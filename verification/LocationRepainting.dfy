/**
 No repainting.  A build at a later cutoff keeps every zone of the earlier build with the same identity,
 times, bounds and sizing ATR, adds only zones confirmed after the earlier cutoff, and revives no dead zone.
 */
module LocationRepainting {
  import opened Common
  import opened Candles
  import opened LocationModel
  import opened LocationCausality
  import Grid
  import LocationDedupe
  import LocationLifecycle
  import LocationZones

  // ---------- what a build contains ----------

  /** Zones as the builder hands them on: told apart by id, still active, confirmed by a known bar. */
  ghost predicate WellBuilt(zones: seq<Zone>, history: seq<ClosedCandle>, cutoff: int) {
    && LocationDedupe.DistinctIds(zones)
    && forall k :: 0 <= k < |zones| ==> ReadyToAge(zones[k], history, cutoff)
  }

  ghost predicate ReadyToAge(zone: Zone, history: seq<ClosedCandle>, cutoff: int) {
    zone.status == Active && zone.Valid() && zone.confirmedAt <= cutoff && ClosesAt(history, zone.confirmedAt)
  }

  /** The zone with the status its history gives it. */
  function Aged(zone: Zone, history: seq<ClosedCandle>, config: Config): Zone
    requires config.Valid()
  {
    zone.(status := StatusFor(zone, config, ClosesSince(history, zone.confirmedAt)))
  }

  lemma RawZonesAreWellBuilt(history: seq<ClosedCandle>, cutoff: int, config: Config, tick: Option<Grid.GridStep>)
    requires config.Valid() && Ordered(history)
    ensures var raw := RawZones(history, cutoff, config, tick);
            && (raw.Err? ==> raw.error == InvalidZone)
            && (raw.Ok? ==> WellBuilt(raw.value, history, cutoff))
  {
    hide SwingsBefore, BuildAll, ConfirmationIndex, AtrValues;
    var lookback := config.swingLookback;
    var end := SwingEnd(history, lookback);
    var swings := SwingPoints(history, lookback, cutoff);
    SwingsBeforeShape(history, lookback, cutoff, end);
    BuildAllShape(swings, ConfirmationIndex(history), AtrValues(history), config, tick);
    var raw := RawZones(history, cutoff, config, tick);
    if raw.Ok? {
      forall k | 0 <= k < |raw.value|
        ensures ReadyToAge(raw.value[k], history, cutoff)
      {
        var j :| 0 <= j < |swings| && BuiltFrom(raw.value[k], swings[j]);
        assert ConfirmedIn(swings[j], history, lookback, cutoff, 0, end);
        var i :| 0 <= i < end && ConfirmedBy(swings[j], history, lookback, i);
        assert history[i + lookback].closedAt == raw.value[k].confirmedAt;
      }
    }
  }

  lemma AgingSucceeds(zone: Zone, history: seq<ClosedCandle>, cutoff: int, config: Config)
    requires config.Valid() && ReadyToAge(zone, history, cutoff)
    ensures UpdatedZone(zone, history, cutoff, config) == Ok(Aged(zone, history, config))
  {
  }

  ghost predicate AgedFrom(zone: Zone, raw: seq<Zone>, history: seq<ClosedCandle>, config: Config)
    requires config.Valid()
  {
    exists k :: 0 <= k < |raw| && zone == Aged(raw[k], history, config)
  }

  /** Deduplication and lifecycle cannot fail on what the builder hands them, and neither drops nor adds a zone. */
  lemma StagesAcceptWellBuilt(raw: seq<Zone>, history: seq<ClosedCandle>, cutoff: int, config: Config)
    requires config.Valid() && WellBuilt(raw, history, cutoff)
    ensures Deduplicated(raw).Ok?
    ensures var zones := Updated(Deduplicated(raw).value, history, cutoff, config);
            && zones.Ok? && LocationDedupe.DistinctIds(zones.value)
            && forall z :: z in zones.value <==> AgedFrom(z, raw, history, config)
  {
    hide Deduplicated, Updated, UpdatedZone, ReadyToAge, StatusFor, ClosesSince;
    LocationDedupe.DeduplicatedMeaning(raw);
    var unique := Deduplicated(raw).value;
    LocationLifecycle.UpdatedMeaning(unique, history, cutoff, config);
    forall i | 0 <= i < |unique|
      ensures UpdatedZone(unique[i], history, cutoff, config) == Ok(Aged(unique[i], history, config))
    {
      assert unique[i] in unique;
      AgingSucceeds(unique[i], history, cutoff, config);
    }
    var zones := Updated(unique, history, cutoff, config).value;
    forall z
      ensures z in zones <==> AgedFrom(z, raw, history, config)
    {
      if z in zones {
        var i :| 0 <= i < |zones| && zones[i] == z;
        assert unique[i] in unique;
        var k :| 0 <= k < |raw| && raw[k] == unique[i];
        assert z == Aged(raw[k], history, config);
      }
      if AgedFrom(z, raw, history, config) {
        var k :| 0 <= k < |raw| && z == Aged(raw[k], history, config);
        assert raw[k] in raw;
        var i :| 0 <= i < |unique| && unique[i] == raw[k];
        assert zones[i] == z;
      }
    }
  }

  /**
   The build fails exactly when some zone has an impossible geometry.  The conflicting-id, future-data and
   missing-confirmation errors of the later stages never occur, and the result is the raw zones, each aged.
   */
  lemma BuildNeverTripsItsOwnStages(history: seq<ClosedCandle>, cutoff: int, config: Config, tick: Option<Grid.GridStep>)
    requires config.Valid() && Ordered(history)
    ensures var raw := RawZones(history, cutoff, config, tick);
            var zones := ZonesFromHistory(history, cutoff, config, tick);
            && (zones.Ok? <==> raw.Ok?)
            && (zones.Err? ==> zones.error == InvalidZone)
            && (zones.Ok? ==>
                  && LocationDedupe.DistinctIds(zones.value)
                  && forall z :: z in zones.value <==> AgedFrom(z, raw.value, history, config))
  {
    RawZonesAreWellBuilt(history, cutoff, config, tick);
    var raw := RawZones(history, cutoff, config, tick);
    hide RawZones, Deduplicated, Updated, WellBuilt, AgedFrom;
    if raw.Ok? {
      StagesAcceptWellBuilt(raw.value, history, cutoff, config);
    }
  }

  /** A zone that is narrow enough to keep but reaches down to price zero. */
  ghost predicate ReachesZero(swing: Swing, atr: Option<real>, config: Config, tick: Option<Grid.GridStep>) {
    && atr.Some? && atr.value > 0.0
    && var bounds := ZoneBounds(swing.level, HalfWidth(config, atr.value), tick);
       bounds.0 <= 0.0 && bounds.1 - bounds.0 <= WidthLimit(config, atr.value)
  }

  lemma SizingFailsIff(swing: Swing, atr: Option<real>, config: Config, tick: Option<Grid.GridStep>)
    requires config.Valid() && swing.formedAt <= swing.confirmedAt
    ensures SizedZone(swing, atr, config, tick).Failed? <==> ReachesZero(swing, atr, config, tick)
  {
    hide ZoneBounds, HalfWidth, WidthLimit;
    if atr.Some? && atr.value > 0.0 {
      LocationZones.HalfWidthIsPositive(config, atr.value);
      LocationZones.SnappedBoundsMeaning(swing.level, HalfWidth(config, atr.value), tick);
    }
  }

  lemma {:induction false} BuildFailsIff(swings: seq<Swing>, index: map<int, nat>, atrs: seq<Option<real>>,
                                         config: Config, tick: Option<Grid.GridStep>)
    ensures BuildAll(swings, index, atrs, config, tick).Err?
       <==> exists k :: 0 <= k < |swings| && BuildZone(swings[k], index, atrs, config, tick).Failed?
    decreases |swings|
  {
    hide BuildZone;
    if swings != [] {
      var n := |swings| - 1;
      BuildFailsIff(swings[..n], index, atrs, config, tick);
      if k :| 0 <= k < |swings| && BuildZone(swings[k], index, atrs, config, tick).Failed? {
        assert k < n ==> swings[..n][k] == swings[k];
      }
    }
  }

  lemma SwingIsConfirmedAfterForming(swing: Swing, history: seq<ClosedCandle>, lookback: nat, i: nat)
    requires Ordered(history) && ConfirmedBy(swing, history, lookback, i)
    ensures swing.formedAt < swing.confirmedAt
  {
  }

  /** The only data that makes a build fail: a swing whose kept zone would reach price zero. */
  lemma BuildFailsOnlyAtZero(history: seq<ClosedCandle>, cutoff: int, config: Config, tick: Option<Grid.GridStep>)
    requires config.Valid() && Ordered(history)
    ensures ZonesFromHistory(history, cutoff, config, tick).Err?
       <==> exists swing :: swing in SwingPoints(history, config.swingLookback, cutoff)
              && ReachesZero(swing, FormationAtr(swing, ConfirmationIndex(history), AtrValues(history)), config, tick)
  {
    hide ReachesZero, SwingsBefore, BuildAll, ConfirmationIndex, AtrValues, FormationAtr, ZonesFromHistory, SizedZone, Ordered;
    var lookback := config.swingLookback;
    var end := SwingEnd(history, lookback);
    var swings, index, atrs := SwingPoints(history, lookback, cutoff), ConfirmationIndex(history), AtrValues(history);
    BuildNeverTripsItsOwnStages(history, cutoff, config, tick);
    BuildFailsIff(swings, index, atrs, config, tick);
    SwingsBeforeShape(history, lookback, cutoff, end);
    forall k | 0 <= k < |swings|
      ensures BuildZone(swings[k], index, atrs, config, tick).Failed?
         <==> ReachesZero(swings[k], FormationAtr(swings[k], index, atrs), config, tick)
    {
      assert ConfirmedIn(swings[k], history, lookback, cutoff, 0, end);
      var i :| 0 <= i < end && ConfirmedBy(swings[k], history, lookback, i);
      SwingIsConfirmedAfterForming(swings[k], history, lookback, i);
      SizingFailsIff(swings[k], FormationAtr(swings[k], index, atrs), config, tick);
    }
    if k :| 0 <= k < |swings| && BuildZone(swings[k], index, atrs, config, tick).Failed? {
      assert swings[k] in swings;
    }
    if swing :| swing in swings && ReachesZero(swing, FormationAtr(swing, index, atrs), config, tick) {
      var k :| 0 <= k < |swings| && swings[k] == swing;
      assert BuildZone(swings[k], index, atrs, config, tick).Failed?;
    }
  }

  lemma NewestStaysOrdered(bars: seq<ClosedCandle>, limit: Option<int>)
    requires Ordered(bars) && (limit.Some? ==> limit.value > 0)
    ensures Ordered(Newest(bars, limit))
  {
  }

  lemma HistoryIsOrdered(candles: seq<Candle>, cutoff: int, config: Config)
    requires H4History(candles, cutoff, config).Ok?
    ensures config.Valid() && Ordered(H4History(candles, cutoff, config).value)
    ensures |H4History(candles, cutoff, config).value| >= MIN_H4_BARS
  {
    hide Ordered, Newest, ClosedBars, FirstFault;
    ClosedBarsAreOrdered(candles, H4, cutoff);
    NewestStaysOrdered(ClosedBars(candles, H4, cutoff), Some(config.historyBars));
  }

  /** Seen from the candles: no build ever reports a conflicting id, future data or a missing confirmation bar. */
  lemma BuildReportsNoStageError(candles: seq<Candle>, cutoff: int, config: Config, tick: Option<real>)
    requires BuildZones(candles, cutoff, config, tick).Err?
    ensures BuildZones(candles, cutoff, config, tick).error !in {ConflictingZoneId, FutureData, ConfirmationMissing}
  {
    hide ZonesFromHistory, ClosedBars, Newest, Ordered;
    var history := H4History(candles, cutoff, config);
    if history.Ok? {
      HistoryIsOrdered(candles, cutoff, config);
      if !BadTick(tick) {
        BuildNeverTripsItsOwnStages(history.value, cutoff, config, TickStep(tick));
      }
    } else if config.Valid() {
      FaultIsACandleFault(Newest(ClosedBars(candles, H4, cutoff), Some(config.historyBars)));
    }
  }

  lemma FaultIsACandleFault(bars: seq<ClosedCandle>)
    ensures FirstFault(bars, |bars|).Some? ==> FirstFault(bars, |bars|).value in {PriceNotPositive, OhlcOutOfRange}
  {
    FaultAmong(bars, |bars|);
  }

  lemma {:induction false} FaultAmong(bars: seq<ClosedCandle>, n: nat)
    requires n <= |bars|
    ensures FirstFault(bars, n).Some? ==> FirstFault(bars, n).value in {PriceNotPositive, OhlcOutOfRange}
  {
    if n > 0 {
      FaultAmong(bars, n - 1);
    }
  }

  lemma AgedIsSound(raw: seq<Zone>, zones: seq<Zone>, history: seq<ClosedCandle>, cutoff: int, config: Config)
    requires config.Valid() && WellBuilt(raw, history, cutoff)
    requires forall z :: z in zones <==> AgedFrom(z, raw, history, config)
    ensures forall k :: 0 <= k < |zones| ==> zones[k].Valid() && zones[k].confirmedAt <= cutoff
  {
    hide StatusFor, ClosesSince;
    forall k | 0 <= k < |zones|
      ensures zones[k].Valid() && zones[k].confirmedAt <= cutoff
    {
      assert zones[k] in zones;
      var i :| 0 <= i < |raw| && zones[k] == Aged(raw[i], history, config);
      assert ReadyToAge(raw[i], history, cutoff);
    }
  }

  lemma BuiltZonesAreSound(history: seq<ClosedCandle>, cutoff: int, config: Config, tick: Option<Grid.GridStep>)
    requires config.Valid() && Ordered(history) && ZonesFromHistory(history, cutoff, config, tick).Ok?
    ensures var zones := ZonesFromHistory(history, cutoff, config, tick).value;
            && LocationDedupe.DistinctIds(zones)
            && forall k :: 0 <= k < |zones| ==> zones[k].Valid() && zones[k].confirmedAt <= cutoff
  {
    hide RawZones, ZonesFromHistory, Ordered, WellBuilt, AgedFrom;
    BuildNeverTripsItsOwnStages(history, cutoff, config, tick);
    RawZonesAreWellBuilt(history, cutoff, config, tick);
    AgedIsSound(RawZones(history, cutoff, config, tick).value, ZonesFromHistory(history, cutoff, config, tick).value,
                history, cutoff, config);
  }

  /** A built context passes its own construction checks, carries an ATR and reuses no zone id. */
  lemma BuiltContextIsSound(candles: seq<Candle>, referencePrice: real, referenceClosedAt: Option<int>, cutoff: int,
                            config: Config, tick: Option<real>)
    requires BuildContext(candles, referencePrice, referenceClosedAt, cutoff, config, tick).Ok?
    ensures var context := BuildContext(candles, referencePrice, referenceClosedAt, cutoff, config, tick).value;
            && context.Valid() && context.currentAtr.Some? && LocationDedupe.DistinctIds(context.zones)
            && forall k :: 0 <= k < |context.zones| ==> context.zones[k].confirmedAt <= cutoff
  {
    hide H4History, ZonesFromHistory, AtrValues, Ordered;
    HistoryIsOrdered(candles, cutoff, config);
    BuiltZonesAreSound(H4History(candles, cutoff, config).value, cutoff, config, TickStep(tick));
  }

  // ---------- two cutoffs ----------

  lemma SwingsKeepTheirAtr(h1: seq<ClosedCandle>, h2: seq<ClosedCandle>, lookback: nat, cutoff: int)
    requires h1 <= h2 && Ordered(h2)
    ensures SameFormationAtr(SwingPoints(h1, lookback, cutoff), ConfirmationIndex(h1), AtrValues(h1),
                             ConfirmationIndex(h2), AtrValues(h2))
  {
    var end := SwingEnd(h1, lookback);
    assert Ordered(h1);
    SwingsBeforeShape(h1, lookback, cutoff, end);
    var swings := SwingPoints(h1, lookback, cutoff);
    hide SwingsBefore, Ordered, ConfirmationIndex, AtrValues, FormationAtr;
    forall k | 0 <= k < |swings|
      ensures FormationAtr(swings[k], ConfirmationIndex(h1), AtrValues(h1))
           == FormationAtr(swings[k], ConfirmationIndex(h2), AtrValues(h2))
    {
      assert ConfirmedIn(swings[k], h1, lookback, cutoff, 0, end);
      var i :| 0 <= i < end && ConfirmedBy(swings[k], h1, lookback, i);
      FormationAtrIsCausal(h1, h2, swings[k], lookback, i);
    }
  }

  /** Before aging, the later build only appends zones, all confirmed after the earlier cutoff. */
  lemma RawZonesOnlyAppend(h1: seq<ClosedCandle>, h2: seq<ClosedCandle>, c1: int, c2: int, config: Config,
                           tick: Option<Grid.GridStep>)
    returns (more: seq<Zone>)
    requires config.Valid() && KnownAt(h1, h2, c1) && c1 <= c2 && Ordered(h2)
    requires RawZones(h2, c2, config, tick).Ok?
    ensures RawZones(h1, c1, config, tick).Ok?
    ensures RawZones(h2, c2, config, tick).value == RawZones(h1, c1, config, tick).value + more
    ensures forall k :: 0 <= k < |more| ==> more[k].confirmedAt > c1
  {
    var lookback := config.swingLookback;
    var rest := SwingsOnlyAppend(h1, h2, lookback, c1, c2);
    SwingsKeepTheirAtr(h1, h2, lookback, c1);
    hide SwingPoints, KnownAt, Ordered, ConfirmationIndex, AtrValues, BuildAll;
    var swings := SwingPoints(h1, lookback, c1);
    BuildAllAgrees(swings, ConfirmationIndex(h1), AtrValues(h1), ConfirmationIndex(h2), AtrValues(h2), config, tick);
    more := BuildAllAppends(swings, rest, ConfirmationIndex(h2), AtrValues(h2), config, tick);
  }

  /** Only the status may differ, and a dead zone is not revived. */
  ghost predicate Survives(earlier: Zone, later: Zone) {
    && later == earlier.(status := later.status)
    && (Dead(earlier.status) ==> Dead(later.status))
    && (earlier.status == Invalidated ==> later.status == Invalidated)
  }

  lemma AgedSurvives(zone: Zone, h1: seq<ClosedCandle>, h2: seq<ClosedCandle>, config: Config)
    requires config.Valid() && h1 <= h2
    ensures Survives(Aged(zone, h1, config), Aged(zone, h2, config))
  {
    hide StatusFor, ClosesSince;
    assert h2 == h1 + h2[|h1|..];
    LocationLifecycle.ClosesSinceGrows(h1, h2[|h1|..], zone.confirmedAt);
    LocationLifecycle.DeadStaysDead(zone, config, ClosesSince(h1, zone.confirmedAt), ClosesSince(h2, zone.confirmedAt));
  }

  ghost predicate NotRepainted(earlier: seq<Zone>, later: seq<Zone>, c1: int) {
    && (forall z :: z in earlier ==> exists w :: w in later && Survives(z, w))
    && (forall w :: w in later && w.confirmedAt <= c1 ==> exists z :: z in earlier && Survives(z, w))
  }

  lemma AgedIsNotRepainted(raw: seq<Zone>, more: seq<Zone>, h1: seq<ClosedCandle>, h2: seq<ClosedCandle>, c1: int,
                           config: Config, earlier: seq<Zone>, later: seq<Zone>)
    requires config.Valid() && h1 <= h2
    requires forall k :: 0 <= k < |more| ==> more[k].confirmedAt > c1
    requires forall z :: z in earlier <==> AgedFrom(z, raw, h1, config)
    requires forall z :: z in later <==> AgedFrom(z, raw + more, h2, config)
    ensures NotRepainted(earlier, later, c1)
  {
    hide StatusFor, ClosesSince, Survives;
    forall k | |raw| <= k < |raw + more|
      ensures (raw + more)[k].confirmedAt > c1
    {
      assert (raw + more)[k] == more[k - |raw|];
    }
    forall z | z in earlier
      ensures exists w :: w in later && Survives(z, w)
    {
      var k :| 0 <= k < |raw| && z == Aged(raw[k], h1, config);
      AgedSurvives(raw[k], h1, h2, config);
      assert (raw + more)[k] == raw[k];
      assert AgedFrom(Aged(raw[k], h2, config), raw + more, h2, config);
    }
    forall w | w in later && w.confirmedAt <= c1
      ensures exists z :: z in earlier && Survives(z, w)
    {
      var k :| 0 <= k < |raw + more| && w == Aged((raw + more)[k], h2, config);
      AgedSurvives(raw[k], h1, h2, config);
      assert AgedFrom(Aged(raw[k], h1, config), raw, h1, config);
    }
  }

  lemma HistoryIsNotRepainted(h1: seq<ClosedCandle>, h2: seq<ClosedCandle>, c1: int, c2: int, config: Config,
                              tick: Option<Grid.GridStep>)
    requires config.Valid() && KnownAt(h1, h2, c1) && c1 <= c2 && Ordered(h2)
    requires ZonesFromHistory(h2, c2, config, tick).Ok?
    ensures ZonesFromHistory(h1, c1, config, tick).Ok?
    ensures NotRepainted(ZonesFromHistory(h1, c1, config, tick).value, ZonesFromHistory(h2, c2, config, tick).value, c1)
  {
    assert h1 <= h2 && Ordered(h1);
    BuildNeverTripsItsOwnStages(h1, c1, config, tick);
    BuildNeverTripsItsOwnStages(h2, c2, config, tick);
    hide RawZones, ZonesFromHistory, KnownAt, Ordered, AgedFrom, NotRepainted;
    var more := RawZonesOnlyAppend(h1, h2, c1, c2, config, tick);
    AgedIsNotRepainted(RawZones(h1, c1, config, tick).value, more, h1, h2, c1, config,
                       ZonesFromHistory(h1, c1, config, tick).value, ZonesFromHistory(h2, c2, config, tick).value);
  }

  lemma {:induction false} NoFaultBefore(h1: seq<ClosedCandle>, h2: seq<ClosedCandle>, m: nat, n: nat)
    requires h1 <= h2 && m <= n <= |h2| && m <= |h1| && FirstFault(h2, n).None?
    ensures FirstFault(h1, m).None?
    decreases n
  {
    if m < n {
      NoFaultBefore(h1, h2, m, n - 1);
    } else if m > 0 {
      assert h1[m - 1] == h2[m - 1];
      NoFaultBefore(h1, h2, m - 1, n - 1);
    }
  }

  /**
   Rebuilding at a later cutoff, as long as the bar cap is not reached: if the later build succeeds, so did the
   earlier one (given the minimum of bars), and its zones are not repainted.
   */
  lemma ZonesAreNeverRepainted(candles: seq<Candle>, c1: int, c2: int, config: Config, tick: Option<real>)
    requires c1 <= c2 && |ClosedBars(candles, H4, c2)| <= config.historyBars
    requires BuildZones(candles, c2, config, tick).Ok?
    ensures BuildZones(candles, c1, config, tick).Err? <==> |ClosedBars(candles, H4, c1)| < MIN_H4_BARS
    ensures |ClosedBars(candles, H4, c1)| >= MIN_H4_BARS ==>
              && BuildZones(candles, c1, config, tick).Ok?
              && NotRepainted(BuildZones(candles, c1, config, tick).value, BuildZones(candles, c2, config, tick).value, c1)
  {
    hide ClosedBars, FirstFault, ZonesFromHistory, NotRepainted;
    var h1, h2 := ClosedBars(candles, H4, c1), ClosedBars(candles, H4, c2);
    CutoffOnlyAppends(candles, H4, c1, c2);
    ClosedBarsAreOrdered(candles, H4, c2);
    NoFaultBefore(h1, h2, |h1|, |h2|);
    HistoryIsNotRepainted(h1, h2, c1, c2, config, TickStep(tick));
  }
}

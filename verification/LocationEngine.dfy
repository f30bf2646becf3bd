/** The loops of the Location engine, each proved to compute its specification in LocationModel. */
module LocationEngine {
  import opened Common
  import opened Candles
  import opened LocationModel
  import Grid
  import Indicators
  import LocationCausality
  import LocationDedupe
  import LocationLifecycle
  import Sorting

  lemma NoCandles(candles: seq<Candle>, timeframe: Timeframe, cutoff: int)
    ensures Increasing(candles[..0]) && ClosedBars(candles[..0], timeframe, cutoff) == []
  {
  }

  lemma OneMoreCandle(candles: seq<Candle>, k: nat, timeframe: Timeframe, cutoff: int)
    requires k < |candles| && Increasing(candles[..k])
    ensures k > 0 && candles[k].time <= candles[k - 1].time ==> !Increasing(candles)
    ensures k == 0 || candles[k].time > candles[k - 1].time ==> Increasing(candles[..k + 1])
    ensures ClosedBars(candles[..k + 1], timeframe, cutoff)
         == ClosedBars(candles[..k], timeframe, cutoff)
            + if Closed(candles[k], timeframe).closedAt <= cutoff then [Closed(candles[k], timeframe)] else []
  {
    assert candles[..k + 1][..k] == candles[..k];
    forall i | 0 < i < k
      ensures candles[i - 1].time < candles[i].time
    {
      assert candles[..k][i - 1].time < candles[..k][i].time;
    }
  }

  method ClosedCandlesAtCutoff(candles: seq<Candle>, timeframe: Timeframe, cutoff: int, maxBars: Option<int>)
    returns (r: Result<seq<ClosedCandle>, LocationError>)
    ensures r == ClosedAtCutoff(candles, timeframe, cutoff, maxBars)
  {
    if maxBars.Some? && maxBars.value <= 0 {
      return Err(LimitNotPositive);
    }
    hide ClosedBars, Increasing;
    var result: seq<ClosedCandle> := [];
    NoCandles(candles, timeframe, cutoff);
    var previousOpen: Option<int> := None;
    for k := 0 to |candles|
      invariant result == ClosedBars(candles[..k], timeframe, cutoff)
      invariant Increasing(candles[..k])
      invariant previousOpen == if k == 0 then None else Some(candles[k - 1].time)
    {
      var candle := candles[k];
      OneMoreCandle(candles, k, timeframe, cutoff);
      if previousOpen.Some? && candle.time <= previousOpen.value {
        return Err(TimestampsNotIncreasing);
      }
      var closedAt := candle.time + Interval(timeframe);
      if closedAt <= cutoff {
        result := result + [ClosedCandle(candle, candle.time, closedAt)];
      }
      previousOpen := Some(candle.time);
    }
    assert candles[..|candles|] == candles;
    if maxBars.Some? && |result| > maxBars.value {
      result := result[|result| - maxBars.value..];
    }
    r := Ok(result);
  }

  lemma {:induction false} FaultPersists(bars: seq<ClosedCandle>, k: nat, n: nat)
    requires k <= n <= |bars| && FirstFault(bars, k).Some?
    ensures FirstFault(bars, n) == FirstFault(bars, k)
  {
    if k < n {
      FaultPersists(bars, k, n - 1);
    }
  }

  method H4HistoryAtCutoff(candles: seq<Candle>, cutoff: int, config: Config)
    returns (r: Result<seq<ClosedCandle>, LocationError>)
    ensures r == H4History(candles, cutoff, config)
  {
    if !config.Valid() {
      return Err(InvalidConfig);
    }
    r := ClosedCandlesAtCutoff(candles, H4, cutoff, Some(config.historyBars));
    if r.Err? {
      return;
    }
    var eligible := r.value;
    if |eligible| < MIN_H4_BARS {
      return Err(InsufficientHistory);
    }
    for k := 0 to |eligible|
      invariant FirstFault(eligible, k).None?
    {
      var fault := CandleFault(eligible[k].candle);
      if fault.Some? {
        FaultPersists(eligible, k + 1, |eligible|);
        return Err(fault.value);
      }
    }
  }

  method SwingPointsFromHistory(history: seq<ClosedCandle>, cutoff: int, lookback: nat) returns (swings: seq<Swing>)
    ensures swings == SwingPoints(history, lookback, cutoff)
  {
    hide SwingsBefore, Greatest, Least, CountOf;
    swings := [];
    if |history| < 2 * lookback {
      LocationCausality.SwingsBase(history, lookback, cutoff, SwingEnd(history, lookback));
      return;
    }
    LocationCausality.SwingsBase(history, lookback, cutoff, lookback);
    for index := lookback to |history| - lookback
      invariant swings == SwingsBefore(history, lookback, cutoff, index)
    {
      LocationCausality.SwingsStep(history, lookback, cutoff, index + 1);
      var window := history[index - lookback..index + lookback + 1];
      var high, low := history[index].candle.high, history[index].candle.low;
      var windowHighs, windowLows := Highs(window), Lows(window);
      var formedAt, confirmedAt := history[index].openTime, history[index + lookback].closedAt;
      if confirmedAt > cutoff {
        continue;
      }
      if high == Greatest(windowHighs) && CountOf(windowHighs, high) == 1 {
        swings := swings + [Swing(ZoneId(Resistance, formedAt), Resistance, high, formedAt, confirmedAt)];
      }
      if low == Least(windowLows) && CountOf(windowLows, low) == 1 {
        swings := swings + [Swing(ZoneId(Support, formedAt), Support, low, formedAt, confirmedAt)];
      }
    }
  }

  method ConfirmationTable(history: seq<ClosedCandle>) returns (index: map<int, nat>)
    ensures index == ConfirmationIndex(history)
  {
    index := map[];
    for k := 0 to |history|
      invariant index == ConfirmationIndex(history[..k])
    {
      assert history[..k + 1][..k] == history[..k];
      index := index[history[k].closedAt := k];
    }
    assert history[..|history|] == history;
  }

  lemma {:induction false} FailurePersists(swings: seq<Swing>, k: nat, index: map<int, nat>, atrs: seq<Option<real>>,
                                           config: Config, tick: Option<Grid.GridStep>)
    requires k <= |swings| && BuildAll(swings[..k], index, atrs, config, tick).Err?
    ensures BuildAll(swings, index, atrs, config, tick) == BuildAll(swings[..k], index, atrs, config, tick)
    decreases |swings|
  {
    if k == |swings| {
      assert swings[..k] == swings;
    } else {
      var n := |swings| - 1;
      assert swings[..n][..k] == swings[..k];
      hide BuildZone;
      FailurePersists(swings[..n], k, index, atrs, config, tick);
    }
  }

  lemma BuildOneMore(swings: seq<Swing>, k: nat, index: map<int, nat>, atrs: seq<Option<real>>, config: Config,
                     tick: Option<Grid.GridStep>)
    requires k < |swings| && BuildAll(swings[..k], index, atrs, config, tick).Ok?
    ensures BuildAll(swings[..k + 1], index, atrs, config, tick)
         == match BuildZone(swings[k], index, atrs, config, tick)
            case Skipped => BuildAll(swings[..k], index, atrs, config, tick)
            case Failed => Err(InvalidZone)
            case Made(zone) => Ok(BuildAll(swings[..k], index, atrs, config, tick).value + [zone])
  {
    hide BuildZone;
    assert swings[..k + 1][..k] == swings[..k];
  }

  /** The body of the zone loop: look up the ATR at confirmation, size the zone, snap it, check its width. */
  method ZoneOfSwing(swing: Swing, index: map<int, nat>, atrs: seq<Option<real>>, config: Config,
                     tick: Option<Grid.GridStep>) returns (built: Built)
    ensures built == BuildZone(swing, index, atrs, config, tick)
  {
    hide Grid.FloorTo, Grid.CeilTo, HalfWidth, WidthLimit;
    var formationAtr := None;
    if swing.confirmedAt in index && index[swing.confirmedAt] < |atrs| {
      formationAtr := atrs[index[swing.confirmedAt]];
    }
    if formationAtr.None? || formationAtr.value <= 0.0 {
      return Skipped;
    }
    var halfWidth := HalfWidth(config, formationAtr.value);
    var low, high := swing.level - halfWidth, swing.level + halfWidth;
    if tick.Some? {
      low, high := Grid.FloorTo(low, tick.value), Grid.CeilTo(high, tick.value);
      if high <= low {
        high := low + tick.value;
      }
    }
    assert (low, high) == ZoneBounds(swing.level, halfWidth, tick);
    if high - low > WidthLimit(config, formationAtr.value) {
      return Skipped;
    }
    var zone := Zone(swing.id, swing.role, low, high, swing.formedAt, swing.confirmedAt, formationAtr.value, Active);
    built := if zone.Valid() then Made(zone) else Failed;
  }

  /** The zone loop: swings that yield no zone are skipped, the first impossible zone stops the build. */
  method ZonesOfSwings(swings: seq<Swing>, index: map<int, nat>, atrs: seq<Option<real>>, config: Config,
                       tick: Option<Grid.GridStep>) returns (r: Result<seq<Zone>, LocationError>)
    ensures r == BuildAll(swings, index, atrs, config, tick)
  {
    hide BuildAll, BuildZone;
    var zones: seq<Zone> := [];
    NothingToBuild(swings, index, atrs, config, tick);
    for k := 0 to |swings|
      invariant BuildAll(swings[..k], index, atrs, config, tick) == Ok(zones)
    {
      BuildOneMore(swings, k, index, atrs, config, tick);
      var built := ZoneOfSwing(swings[k], index, atrs, config, tick);
      if built.Failed? {
        FailurePersists(swings, k + 1, index, atrs, config, tick);
        return Err(InvalidZone);
      }
      if built.Made? {
        zones := zones + [built.zone];
      }
    }
    assert swings[..|swings|] == swings;
    r := Ok(zones);
  }

  lemma NothingToBuild(swings: seq<Swing>, index: map<int, nat>, atrs: seq<Option<real>>, config: Config,
                       tick: Option<Grid.GridStep>)
    ensures BuildAll(swings[..0], index, atrs, config, tick) == Ok([])
  {
  }

  ghost predicate Registers(byId: map<ZoneId, Zone>, zones: seq<Zone>) {
    && (forall k :: 0 <= k < |zones| ==> zones[k].id in byId && byId[zones[k].id] == zones[k])
    && (forall id :: id in byId ==> byId[id] in zones && byId[id].id == id)
  }

  lemma RegisteredZonesAgree(byId: map<ZoneId, Zone>, zones: seq<Zone>)
    requires Registers(byId, zones)
    ensures !Conflicting(zones)
  {
  }

  lemma ClashIsConflict(zones: seq<Zone>, k: nat, previous: Zone)
    requires k < |zones| && previous in zones[..k] && previous.id == zones[k].id && previous != zones[k]
    ensures Conflicting(zones)
  {
    var i :| 0 <= i < k && zones[i] == previous;
    assert zones[i].id == zones[k].id;
  }

  method DeduplicateZones(zones: seq<Zone>) returns (r: Result<seq<Zone>, LocationError>)
    ensures r == Deduplicated(zones)
  {
    hide Registers, Conflicting;
    var byId: map<ZoneId, Zone> := map[];
    var values: seq<Zone> := [];
    NothingRegistered();
    assert zones[..0] == [];
    for k := 0 to |zones|
      invariant Registers(byId, zones[..k])
      invariant values == Uniques(zones[..k])
    {
      var zone := zones[k];
      assert zones[..k + 1][..k] == zones[..k] && zones[..k + 1] == zones[..k] + [zone];
      RegisterLookup(byId, zones[..k], zone);
      if zone.id !in byId {
        RegisterNew(byId, zones[..k], zone);
        byId := byId[zone.id := zone];
        values := values + [zone];
      } else {
        var previous := byId[zone.id];
        if previous != zone {
          ClashIsConflict(zones, k, previous);
          return Err(ConflictingZoneId);
        }
        RegisterAgain(byId, zones[..k], zone);
      }
    }
    assert zones[..|zones|] == zones;
    RegisteredZonesAgree(byId, zones);
    r := Ok(Sorting.Sort(ZoneLeq, values));
  }

  lemma NothingRegistered()
    ensures Registers(map[], [])
  {
  }

  lemma RegisterLookup(byId: map<ZoneId, Zone>, zones: seq<Zone>, zone: Zone)
    requires Registers(byId, zones)
    ensures zone.id in byId ==> byId[zone.id] in zones && byId[zone.id].id == zone.id
    ensures zone in Uniques(zones) <==> zone.id in byId && byId[zone.id] == zone
  {
    LocationDedupe.UniquesMeaning(zones);
  }

  lemma RegisterNew(byId: map<ZoneId, Zone>, zones: seq<Zone>, zone: Zone)
    requires Registers(byId, zones) && zone.id !in byId
    ensures Registers(byId[zone.id := zone], zones + [zone])
  {
  }

  lemma RegisterAgain(byId: map<ZoneId, Zone>, zones: seq<Zone>, zone: Zone)
    requires Registers(byId, zones) && zone.id in byId && byId[zone.id] == zone
    ensures Registers(byId, zones + [zone])
  {
  }

  // ---------- lifecycle ----------

  method RelevantCloses(history: seq<ClosedCandle>, since: int) returns (closes: seq<real>)
    ensures closes == ClosesSince(history, since)
  {
    closes := [];
    for k := 0 to |history|
      invariant closes == ClosesSince(history[..k], since)
    {
      assert history[..k + 1][..k] == history[..k];
      if history[k].closedAt >= since {
        closes := closes + [history[k].candle.close];
      }
    }
    assert history[..|history|] == history;
  }

  /** The streak after `n` closes: how many of the last closes breach without interruption. */
  ghost predicate Streak(zone: Zone, config: Config, closes: seq<real>, n: nat, streak: nat)
    requires n <= |closes|
  {
    BreachRun(zone, config, closes, n, streak) && (streak < n ==> !Breaches(zone, config, closes[n - streak - 1]))
  }

  lemma StreakDecides(zone: Zone, config: Config, closes: seq<real>, n: nat, streak: nat)
    requires n <= |closes| && config.invalidationCloseCount >= 0 && Streak(zone, config, closes, n, streak)
    ensures BreachRun(zone, config, closes, n, config.invalidationCloseCount) <==> streak >= config.invalidationCloseCount
  {
    hide Breaches;
    var count := config.invalidationCloseCount;
    assert streak < n ==> !Breaches(zone, config, closes[n - streak - 1]);
  }

  lemma NoBreachesYet(zone: Zone, config: Config, closes: seq<real>)
    requires config.invalidationCloseCount > 0
    ensures !BrokenBy(zone, config, closes, 0) && Streak(zone, config, closes, 0, 0)
  {
  }

  lemma StreakStep(zone: Zone, config: Config, closes: seq<real>, n: nat, streak: nat)
    requires n < |closes| && Streak(zone, config, closes, n, streak)
    ensures Streak(zone, config, closes, n + 1, if Breaches(zone, config, closes[n]) then streak + 1 else 0)
  {
    hide Breaches;
  }

  lemma NotBrokenYet(zone: Zone, config: Config, closes: seq<real>, n: nat)
    requires n < |closes| && config.invalidationCloseCount >= 0 && !BrokenBy(zone, config, closes, n)
    requires !BreachRun(zone, config, closes, n + 1, config.invalidationCloseCount)
    ensures !BrokenBy(zone, config, closes, n + 1)
  {
    hide BreachRun;
  }

  lemma BrokenFrom(zone: Zone, config: Config, closes: seq<real>, n: nat)
    requires n <= |closes| && config.invalidationCloseCount >= 0
    requires BreachRun(zone, config, closes, n, config.invalidationCloseCount)
    ensures BrokenBy(zone, config, closes, |closes|)
  {
    hide BreachRun;
  }

  /** The breach-streak loop finds the status that the closes since confirmation mean. */
  method ScanBreaches(zone: Zone, config: Config, closes: seq<real>) returns (status: ZoneStatus)
    requires config.Valid()
    ensures status == StatusFor(zone, config, closes)
  {
    hide Breaches, BreachRun;
    var breachStreak := 0;
    status := Active;
    NoBreachesYet(zone, config, closes);
    var k := 0;
    while k < |closes|
      invariant k <= |closes|
      invariant !BrokenBy(zone, config, closes, k) && status != Invalidated
      invariant Streak(zone, config, closes, k, breachStreak)
      invariant status == if breachStreak > 0 then Suspect else Active
      invariant breachStreak > 0 <==> k > 0 && Breaches(zone, config, closes[k - 1])
    {
      var breached := Breaches(zone, config, closes[k]);
      StreakStep(zone, config, closes, k, breachStreak);
      if !breached {
        breachStreak := 0;
        status := Active;
        StreakDecides(zone, config, closes, k + 1, breachStreak);
        NotBrokenYet(zone, config, closes, k);
        k := k + 1;
        continue;
      }
      breachStreak := breachStreak + 1;
      StreakDecides(zone, config, closes, k + 1, breachStreak);
      if breachStreak >= config.invalidationCloseCount {
        status := Invalidated;
        BrokenFrom(zone, config, closes, k + 1);
        break;
      }
      NotBrokenYet(zone, config, closes, k);
      status := Suspect;
      k := k + 1;
    }
    if status != Invalidated {
      var age := if |closes| - 1 > 0 then |closes| - 1 else 0;
      if age > config.zoneMaxAge {
        status := Expired;
      }
    }
  }

  lemma FirstErrorWins(zones: seq<Zone>, k: nat, history: seq<ClosedCandle>, cutoff: int, config: Config)
    requires k < |zones| && config.invalidationCloseCount >= 0
    requires Updated(zones[..k], history, cutoff, config).Ok?
    requires UpdatedZone(zones[k], history, cutoff, config).Err?
    ensures Updated(zones, history, cutoff, config) == Err(UpdatedZone(zones[k], history, cutoff, config).error)
  {
    hide UpdatedZone;
    assert zones[..k + 1][..k] == zones[..k];
    UpdateErrorPersists(zones, k + 1, history, cutoff, config);
  }

  lemma {:induction false} UpdateErrorPersists(zones: seq<Zone>, k: nat, history: seq<ClosedCandle>, cutoff: int,
                                               config: Config)
    requires k <= |zones| && config.invalidationCloseCount >= 0 && Updated(zones[..k], history, cutoff, config).Err?
    ensures Updated(zones, history, cutoff, config) == Updated(zones[..k], history, cutoff, config)
    decreases |zones|
  {
    hide UpdatedZone;
    if k == |zones| {
      assert zones[..k] == zones;
    } else {
      var n := |zones| - 1;
      assert zones[..n][..k] == zones[..k];
      UpdateErrorPersists(zones[..n], k, history, cutoff, config);
    }
  }

  method UpdateFromHistory(zones: seq<Zone>, history: seq<ClosedCandle>, cutoff: int, config: Config)
    returns (r: Result<seq<Zone>, LocationError>)
    requires config.Valid()
    ensures r == Updated(zones, history, cutoff, config)
  {
    hide StatusFor;
    var result: seq<Zone> := [];
    for k := 0 to |zones|
      invariant Updated(zones[..k], history, cutoff, config) == Ok(result)
    {
      var zone := zones[k];
      assert zones[..k + 1][..k] == zones[..k];
      if Dead(zone.status) {
        result := result + [zone];
        continue;
      }
      if zone.confirmedAt > cutoff {
        FirstErrorWins(zones, k, history, cutoff, config);
        return Err(FutureData);
      }
      if !ClosesAt(history, zone.confirmedAt) {
        FirstErrorWins(zones, k, history, cutoff, config);
        return Err(ConfirmationMissing);
      }
      var closes := RelevantCloses(history, zone.confirmedAt);
      var status := ScanBreaches(zone, config, closes);
      result := result + [zone.(status := status)];
    }
    assert zones[..|zones|] == zones;
    r := Ok(result);
  }

  method UpdateLifecycle(zones: seq<Zone>, candles: seq<Candle>, cutoff: int, config: Config)
    returns (r: Result<seq<Zone>, LocationError>)
    ensures r == LifecycleOf(zones, candles, cutoff, config)
  {
    hide H4History, Deduplicated, Updated;
    if !config.Valid() {
      return Err(InvalidConfig);
    }
    var canonical := DeduplicateZones(zones);
    if canonical.Err? {
      return canonical;
    }
    var history := H4HistoryAtCutoff(candles, cutoff, config);
    if history.Err? {
      return Err(history.error);
    }
    r := UpdateFromHistory(canonical.value, history.value, cutoff, config);
  }

  // ---------- the whole pipeline ----------

  method BuildFromHistory(history: seq<ClosedCandle>, cutoff: int, config: Config, tick: Option<Grid.GridStep>)
    returns (r: Result<seq<Zone>, LocationError>)
    requires config.Valid()
    ensures r == ZonesFromHistory(history, cutoff, config, tick)
  {
    hide SwingPoints, BuildAll, ConfirmationIndex, Deduplicated, Updated;
    var swings := SwingPointsFromHistory(history, cutoff, config.swingLookback);
    var atrs := AtrOf(history);
    var index := ConfirmationTable(history);
    r := ZonesOfSwings(swings, index, atrs, config, tick);
    if r.Err? {
      return;
    }
    r := DeduplicateZones(r.value);
    if r.Err? {
      return;
    }
    r := UpdateFromHistory(r.value, history, cutoff, config);
  }

  method AtrOf(history: seq<ClosedCandle>) returns (atrs: seq<Option<real>>)
    ensures atrs == AtrValues(history)
  {
    var computed := Indicators.Atr(Highs(history), Lows(history), Closes(history), ATR_PERIOD);
    atrs := computed.value;
  }

  method BuildLocationZones(candles: seq<Candle>, cutoff: int, config: Config, tick: Option<real>)
    returns (r: Result<seq<Zone>, LocationError>)
    ensures r == BuildZones(candles, cutoff, config, tick)
  {
    hide H4History, ZonesFromHistory;
    if !config.Valid() {
      return Err(InvalidConfig);
    }
    if BadTick(tick) {
      return Err(TickNotPositive);
    }
    var history := H4HistoryAtCutoff(candles, cutoff, config);
    if history.Err? {
      return Err(history.error);
    }
    r := BuildFromHistory(history.value, cutoff, config, TickStep(tick));
  }

  method BuildLocationContext(candles: seq<Candle>, referencePrice: real, referenceClosedAt: Option<int>, cutoff: int,
                              config: Config, tick: Option<real>)
    returns (r: Result<Context, LocationError>)
    ensures r == BuildContext(candles, referencePrice, referenceClosedAt, cutoff, config, tick)
  {
    hide H4History, ZonesFromHistory, AtrValues;
    if referenceClosedAt.Some? && referenceClosedAt.value > cutoff {
      return Err(FutureData);
    }
    if !config.Valid() {
      return Err(InvalidConfig);
    }
    if referencePrice <= 0.0 {
      return Err(PriceNotPositive);
    }
    if BadTick(tick) {
      return Err(TickNotPositive);
    }
    var history := H4HistoryAtCutoff(candles, cutoff, config);
    if history.Err? {
      return Err(history.error);
    }
    var atrs := AtrOf(history.value);
    if atrs == [] || atrs[|atrs| - 1].None? || atrs[|atrs| - 1].value <= 0.0 {
      return Err(AtrUnavailable);
    }
    var zones := BuildFromHistory(history.value, cutoff, config, TickStep(tick));
    if zones.Err? {
      return Err(zones.error);
    }
    r := Ok(Context(referencePrice, referenceClosedAt, cutoff, atrs[|atrs| - 1], zones.value, |history.value|,
                    config, tick));
  }
}

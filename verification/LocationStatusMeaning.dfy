/** The lifecycle of a zone on prices: where the break line is, which closes count, and what each status says about them. */
module LocationStatusMeaning {
  import opened Common
  import opened Candles
  import opened LocationModel
  import opened LocationCausality

  /** The close lies beyond the zone by more than the buffer: below a support, above a resistance. */
  predicate BreaksThrough(zone: Zone, config: Config, close: real) {
    if zone.role == Support then close < zone.low - config.invalidationBufferAtr * zone.formationAtr
    else close > zone.high + config.invalidationBufferAtr * zone.formationAtr
  }

  lemma BreachMeaning(zone: Zone, config: Config, close: real)
    ensures Breaches(zone, config, close) <==> BreaksThrough(zone, config, close)
  {
  }

  /** So many closes in a row, from the `first` on, break through. */
  ghost predicate BrokenRun(zone: Zone, config: Config, closes: seq<real>, first: int) {
    && 0 <= first && first + config.invalidationCloseCount <= |closes|
    && forall j :: first <= j < first + config.invalidationCloseCount ==> BreaksThrough(zone, config, closes[j])
  }

  lemma BrokenMeaning(zone: Zone, config: Config, closes: seq<real>)
    requires config.Valid()
    ensures BrokenBy(zone, config, closes, |closes|) <==> exists first :: BrokenRun(zone, config, closes, first)
  {
    forall x
      ensures Breaches(zone, config, x) <==> BreaksThrough(zone, config, x)
    {
      BreachMeaning(zone, config, x);
    }
    hide Breaches, BreaksThrough;
    var count := config.invalidationCloseCount;
    if BrokenBy(zone, config, closes, |closes|) {
      var k :| 0 <= k <= |closes| && BreachRun(zone, config, closes, k, count);
      assert BrokenRun(zone, config, closes, k - count);
    }
    if first :| BrokenRun(zone, config, closes, first) {
      assert BreachRun(zone, config, closes, first + count, count);
    }
  }

  // ---------- the closes that count ----------

  /** The closes from bar `first` on. */
  function ClosesFrom(history: seq<ClosedCandle>, first: nat): (r: seq<real>)
    requires first <= |history|
    ensures |r| == |history| - first
  {
    seq(|history| - first, i requires 0 <= i < |history| - first => history[first + i].candle.close)
  }

  lemma {:induction false} ClosesSinceMeaning(history: seq<ClosedCandle>, first: nat, since: int)
    requires first <= |history|
    requires forall k :: 0 <= k < first ==> history[k].closedAt < since
    requires forall k :: first <= k < |history| ==> history[k].closedAt >= since
    ensures ClosesSince(history, since) == ClosesFrom(history, first)
    decreases |history|
  {
    if history != [] {
      var n := |history| - 1;
      if first <= n {
        ClosesSinceMeaning(history[..n], first, since);
        assert ClosesFrom(history, first) == ClosesFrom(history[..n], first) + [history[n].candle.close];
      } else {
        ClosesSinceMeaning(history[..n], n, since);
      }
    }
  }

  /** The zone was confirmed by the close of bar `first`. */
  predicate ConfirmedAtBar(zone: Zone, history: seq<ClosedCandle>, first: nat) {
    first < |history| && history[first].closedAt == zone.confirmedAt
  }

  /**
   The status of a live zone, from the closes of its confirmation bar and all later ones: invalidated exactly if
   enough of them in a row break through; else expired exactly if more later bars than its age limit have closed; else
   suspect exactly if the last close breaks through; else active.
   */
  lemma StatusOnPrices(zone: Zone, history: seq<ClosedCandle>, cutoff: int, config: Config, first: nat)
    requires config.Valid() && Ordered(history) && ConfirmedAtBar(zone, history, first)
    requires zone.confirmedAt <= cutoff && (zone.status == Active || zone.status == Suspect)
    ensures var updated, closes := UpdatedZone(zone, history, cutoff, config), ClosesFrom(history, first);
            var broken := exists k :: BrokenRun(zone, config, closes, k);
            var aged := |history| - 1 - first > config.zoneMaxAge;
            var breaking := BreaksThrough(zone, config, history[|history| - 1].candle.close);
            && updated.Ok? && updated.value == zone.(status := updated.value.status)
            && (updated.value.status == Invalidated <==> broken)
            && (updated.value.status == Expired <==> !broken && aged)
            && (updated.value.status == Suspect <==> !broken && !aged && breaking)
            && (updated.value.status == Active <==> !broken && !aged && !breaking)
  {
    var closes := ClosesFrom(history, first);
    ClosesSinceMeaning(history, first, zone.confirmedAt);
    BrokenMeaning(zone, config, closes);
    BreachMeaning(zone, config, closes[|closes| - 1]);
    assert ClosesAt(history, zone.confirmedAt);
    hide BrokenBy, Breaches, BreaksThrough, BrokenRun, ClosesSince, Ordered;
  }

  /** A zone whose closes all stay within its buffer is neither suspect nor invalidated. */
  lemma CalmZoneIsNotBroken(zone: Zone, history: seq<ClosedCandle>, cutoff: int, config: Config, first: nat)
    requires config.Valid() && Ordered(history) && ConfirmedAtBar(zone, history, first)
    requires zone.confirmedAt <= cutoff && (zone.status == Active || zone.status == Suspect)
    requires forall j :: first <= j < |history| ==>
               zone.low - config.invalidationBufferAtr * zone.formationAtr <= history[j].candle.close
               && history[j].candle.close <= zone.high + config.invalidationBufferAtr * zone.formationAtr
    ensures UpdatedZone(zone, history, cutoff, config).Ok?
    ensures UpdatedZone(zone, history, cutoff, config).value.status in {Active, Expired}
  {
    StatusOnPrices(zone, history, cutoff, config, first);
    var closes := ClosesFrom(history, first);
    forall k
      ensures !BrokenRun(zone, config, closes, k)
    {
      assert 0 <= k < |closes| ==> !BreaksThrough(zone, config, closes[k]);
    }
  }

  /** When an update fails, and that dead zones are never touched. */
  lemma UpdateErrors(zone: Zone, history: seq<ClosedCandle>, cutoff: int, config: Config)
    requires config.Valid()
    ensures var updated := UpdatedZone(zone, history, cutoff, config);
            var dead := zone.status == Invalidated || zone.status == Expired;
            && (dead ==> updated == Ok(zone))
            && (updated == Err(FutureData) <==> !dead && zone.confirmedAt > cutoff)
            && (updated == Err(ConfirmationMissing) <==>
                  !dead && zone.confirmedAt <= cutoff
                  && forall i :: 0 <= i < |history| ==> history[i].closedAt != zone.confirmedAt)
            && (updated.Err? ==> updated.error == FutureData || updated.error == ConfirmationMissing)
  {
    hide StatusFor;
  }

  // ---------- a list of zones, and a context ----------

  /** Canonical order: supports first, then by confirmation, then by id text. */
  lemma CanonicalOrder(a: Zone, b: Zone)
    ensures ZoneLeq(a, b) <==>
              || (a.role == Support && b.role == Resistance)
              || (a.role == b.role && a.confirmedAt < b.confirmedAt)
              || (a.role == b.role && a.confirmedAt == b.confirmedAt
                  && ((a.id.role == Resistance && b.id.role == Support)
                      || (a.id.role == b.id.role && a.id.formedAt <= b.id.formedAt)))
  {
  }

  /** A bar is usable exactly if its prices are positive and its open and close lie between its low and its high. */
  lemma CandleFaultMeaning(c: Candle)
    ensures var positive := c.open > 0.0 && c.high > 0.0 && c.low > 0.0 && c.close > 0.0;
            && (CandleFault(c) == Some(PriceNotPositive) <==> !positive)
            && (CandleFault(c) == Some(OhlcOutOfRange) <==>
                  positive && !(c.low <= c.open <= c.high && c.low <= c.close <= c.high))
            && (CandleFault(c).None? <==> positive && c.low <= c.open <= c.high && c.low <= c.close <= c.high)
  {
  }

  /** The fault reported for a history is that of its first faulty bar. */
  lemma {:induction false} FirstFaultMeaning(bars: seq<ClosedCandle>, n: nat)
    requires n <= |bars|
    ensures FirstFault(bars, n).None? <==> forall k :: 0 <= k < n ==> CandleFault(bars[k].candle).None?
    ensures FirstFault(bars, n).Some? ==>
              exists k :: 0 <= k < n && FirstFault(bars, n) == CandleFault(bars[k].candle)
                          && forall j :: 0 <= j < k ==> CandleFault(bars[j].candle).None?
  {
    hide CandleFault;
    if n > 0 {
      FirstFaultMeaning(bars, n - 1);
      if FirstFault(bars, n - 1).None? && CandleFault(bars[n - 1].candle).Some? {
        assert FirstFault(bars, n) == CandleFault(bars[n - 1].candle);
      }
    }
  }

  /** A history is the capped list of closed bars; it is refused for its first reason. */
  lemma HistoryMeaning(candles: seq<Candle>, cutoff: int, config: Config)
    requires config.Valid()
    ensures var kept := Newest(ClosedBars(candles, H4, cutoff), Some(config.historyBars));
            var history := H4History(candles, cutoff, config);
            && (history == Err(TimestampsNotIncreasing) <==> !Increasing(candles))
            && (history == Err(InsufficientHistory) <==> Increasing(candles) && |kept| < 60)
            && (history.Ok? <==>
                  Increasing(candles) && |kept| >= 60 && forall k :: 0 <= k < |kept| ==> CandleFault(kept[k].candle).None?)
            && (history.Ok? ==> history.value == kept)
  {
    hide FirstFault, ClosedBars, Newest, CandleFault, Increasing;
    var kept := Newest(ClosedBars(candles, H4, cutoff), Some(config.historyBars));
    FirstFaultMeaning(kept, |kept|);
    hide FirstFault;
    FaultsAreNotTimestamps(kept, |kept|);
  }

  lemma {:induction false} FaultsAreNotTimestamps(bars: seq<ClosedCandle>, n: nat)
    requires n <= |bars|
    ensures FirstFault(bars, n).Some? ==> FirstFault(bars, n).value == PriceNotPositive || FirstFault(bars, n).value == OhlcOutOfRange
  {
    if n > 0 {
      FaultsAreNotTimestamps(bars, n - 1);
    }
  }

  /** A context holds what it was given, the zones a build gives, and the ATR of the last closed bar. */
  lemma ContextMeaning(candles: seq<Candle>, referencePrice: real, referenceClosedAt: Option<int>, cutoff: int,
                       config: Config, tick: Option<real>)
    ensures var built := BuildContext(candles, referencePrice, referenceClosedAt, cutoff, config, tick);
            var zones, history := BuildZones(candles, cutoff, config, tick), H4History(candles, cutoff, config);
            && (built.Ok? <==>
                  && (referenceClosedAt.None? || referenceClosedAt.value <= cutoff) && referencePrice > 0.0
                  && zones.Ok? && history.Ok? && history.value != []
                  && AtrValues(history.value)[|history.value| - 1].Some?
                  && AtrValues(history.value)[|history.value| - 1].value > 0.0)
            && (built.Ok? ==>
                  built.value == Context(referencePrice, referenceClosedAt, cutoff,
                                         AtrValues(history.value)[|history.value| - 1], zones.value, |history.value|, config,
                                         tick))
  {
    hide H4History, ZonesFromHistory, AtrValues;
  }
}

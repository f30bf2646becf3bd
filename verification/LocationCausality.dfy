/**
 Point-in-time promises of the Location engine.  Bars that close after the cutoff change nothing; and as
 time goes on, zones are only ever added, never moved, resized or brought back to life.
 */
module LocationCausality {
  import opened Common
  import opened Candles
  import opened LocationModel
  import Grid
  import Indicators
  import LocationDedupe

  // ---------- closed bars ----------

  lemma {:induction false} OpenBarsAreIgnored(candles: seq<Candle>, later: seq<Candle>, timeframe: Timeframe, cutoff: int)
    requires forall i :: 0 <= i < |later| ==> later[i].time + Interval(timeframe) > cutoff
    ensures ClosedBars(candles + later, timeframe, cutoff) == ClosedBars(candles, timeframe, cutoff)
    decreases |later|
  {
    if later == [] {
      assert candles + later == candles;
    } else {
      var n := |later| - 1;
      assert (candles + later)[..|candles| + n] == candles + later[..n];
      OpenBarsAreIgnored(candles, later[..n], timeframe, cutoff);
    }
  }

  /** Bars beyond the cutoff leave history, zones and the whole context unchanged, even when the bar cap is active. */
  lemma LaterBarsChangeNothing(candles: seq<Candle>, later: seq<Candle>, referencePrice: real,
                               referenceClosedAt: Option<int>, cutoff: int, config: Config, tick: Option<real>)
    requires Increasing(candles + later)
    requires forall i :: 0 <= i < |later| ==> later[i].time + Interval(H4) > cutoff
    ensures H4History(candles + later, cutoff, config) == H4History(candles, cutoff, config)
    ensures BuildZones(candles + later, cutoff, config, tick) == BuildZones(candles, cutoff, config, tick)
    ensures BuildContext(candles + later, referencePrice, referenceClosedAt, cutoff, config, tick)
         == BuildContext(candles, referencePrice, referenceClosedAt, cutoff, config, tick)
  {
    hide ZonesFromHistory, FirstFault, ClosedBars, AtrValues;
    OpenBarsAreIgnored(candles, later, H4, cutoff);
    forall i | 0 < i < |candles|
      ensures candles[i - 1].time < candles[i].time
    {
      assert (candles + later)[i - 1] == candles[i - 1] && (candles + later)[i] == candles[i];
    }
  }

  /** Bars in time order, each open before it closes. */
  ghost predicate Ordered(history: seq<ClosedCandle>) {
    && (forall i, j :: 0 <= i < j < |history| ==>
          history[i].closedAt < history[j].closedAt && history[i].openTime < history[j].openTime)
    && (forall i :: 0 <= i < |history| ==> history[i].openTime < history[i].closedAt)
  }

  /** `earlier` is what was known at `cutoff` of the history `later`. */
  ghost predicate KnownAt(earlier: seq<ClosedCandle>, later: seq<ClosedCandle>, cutoff: int) {
    && earlier <= later
    && (forall i :: 0 <= i < |earlier| ==> earlier[i].closedAt <= cutoff)
    && (forall i :: |earlier| <= i < |later| ==> later[i].closedAt > cutoff)
  }

  lemma {:induction false} ClosedBarsAreOrdered(candles: seq<Candle>, timeframe: Timeframe, cutoff: int)
    requires Increasing(candles)
    ensures Ordered(ClosedBars(candles, timeframe, cutoff))
    ensures forall b :: b in ClosedBars(candles, timeframe, cutoff) ==>
              b.closedAt <= cutoff && b.closedAt == b.openTime + Interval(timeframe)
              && candles != [] && b.openTime <= candles[|candles| - 1].time
    decreases |candles|
  {
    if candles != [] {
      ClosedBarsAreOrdered(candles[..|candles| - 1], timeframe, cutoff);
    }
  }

  lemma SomeBarClosedLater(b1: seq<ClosedCandle>, b2: seq<ClosedCandle>, c1: int)
    requires KnownAt(b1, b2, c1) && |b1| < |b2|
    ensures exists k :: 0 <= k < |b2| && b2[k].closedAt > c1
  {
    assert b2[|b1|].closedAt > c1;
  }

  lemma OneMoreBar(b1: seq<ClosedCandle>, b2: seq<ClosedCandle>, last: ClosedCandle, c1: int, c2: int)
    requires KnownAt(b1, b2, c1) && c1 <= c2
    requires forall b :: b in b2 ==> b.closedAt < last.closedAt
    ensures KnownAt(b1 + if last.closedAt <= c1 then [last] else [], b2 + if last.closedAt <= c2 then [last] else [], c1)
  {
    if last.closedAt <= c1 {
      forall k | 0 <= k < |b2|
        ensures b2[k].closedAt <= c1
      {
        assert b2[k] in b2;
      }
      if |b1| < |b2| {
        SomeBarClosedLater(b1, b2, c1);
      }
    }
  }

  /** Moving the cutoff forward only appends bars, and only bars that closed after the old cutoff. */
  lemma {:induction false} CutoffOnlyAppends(candles: seq<Candle>, timeframe: Timeframe, c1: int, c2: int)
    requires Increasing(candles) && c1 <= c2
    ensures KnownAt(ClosedBars(candles, timeframe, c1), ClosedBars(candles, timeframe, c2), c1)
    decreases |candles|
  {
    if candles != [] {
      var n := |candles| - 1;
      var front := candles[..n];
      CutoffOnlyAppends(front, timeframe, c1, c2);
      ClosedBarsAreOrdered(front, timeframe, c2);
      hide KnownAt, Ordered;
      assert front != [] ==> front[|front| - 1].time < candles[n].time;
      OneMoreBar(ClosedBars(front, timeframe, c1), ClosedBars(front, timeframe, c2), Closed(candles[n], timeframe), c1, c2);
    }
  }

  // ---------- swings ----------

  lemma SwingsAtAreKnown(h1: seq<ClosedCandle>, h2: seq<ClosedCandle>, lookback: nat, c1: int, c2: int, i: nat)
    requires KnownAt(h1, h2, c1) && c1 <= c2 && lookback <= i && i + lookback < |h1|
    ensures SwingsAt(h1, lookback, c1, i) == SwingsAt(h2, lookback, c2, i)
  {
    assert h1[i - lookback..i + lookback + 1] == h2[i - lookback..i + lookback + 1];
    assert h1[i] == h2[i] && h1[i + lookback] == h2[i + lookback];
  }

  /** Before `lookback` there is nothing to find. */
  lemma SwingsBase(history: seq<ClosedCandle>, lookback: nat, cutoff: int, m: nat)
    requires m <= lookback
    ensures SwingsBefore(history, lookback, cutoff, m) == []
  {
  }

  /** One step of the scan. */
  lemma SwingsStep(history: seq<ClosedCandle>, lookback: nat, cutoff: int, m: nat)
    requires m > lookback && m + lookback <= |history|
    ensures SwingsBefore(history, lookback, cutoff, m)
         == SwingsBefore(history, lookback, cutoff, m - 1) + SwingsAt(history, lookback, cutoff, m - 1)
  {
    hide SwingsAt;
  }

  lemma {:induction false} SwingsBeforeAgree(h1: seq<ClosedCandle>, h2: seq<ClosedCandle>, lookback: nat, c1: int,
                                             c2: int, m: nat)
    requires m > lookback ==> m + lookback <= |h1| <= |h2|
    requires forall i :: lookback <= i < m ==> SwingsAt(h1, lookback, c1, i) == SwingsAt(h2, lookback, c2, i)
    ensures SwingsBefore(h1, lookback, c1, m) == SwingsBefore(h2, lookback, c2, m)
  {
    hide SwingsAt, SwingsBefore;
    if m <= lookback {
      SwingsBase(h1, lookback, c1, m);
      SwingsBase(h2, lookback, c2, m);
    } else {
      SwingsStep(h1, lookback, c1, m);
      SwingsStep(h2, lookback, c2, m);
      SwingsBeforeAgree(h1, h2, lookback, c1, c2, m - 1);
    }
  }

  lemma SwingsBeforeAreKnown(h1: seq<ClosedCandle>, h2: seq<ClosedCandle>, lookback: nat, c1: int, c2: int, m: nat)
    requires KnownAt(h1, h2, c1) && c1 <= c2 && (m > lookback ==> m + lookback <= |h1|)
    ensures m > lookback ==> m + lookback <= |h2|
    ensures SwingsBefore(h1, lookback, c1, m) == SwingsBefore(h2, lookback, c2, m)
  {
    hide SwingsAt, SwingsBefore;
    forall i | lookback <= i < m
      ensures SwingsAt(h1, lookback, c1, i) == SwingsAt(h2, lookback, c2, i)
    {
      SwingsAtAreKnown(h1, h2, lookback, c1, c2, i);
    }
    SwingsBeforeAgree(h1, h2, lookback, c1, c2, m);
  }

  /** A swing is confirmed by a known bar `lookback` places after the one it is named after. */
  ghost predicate ConfirmedBy(swing: Swing, history: seq<ClosedCandle>, lookback: nat, i: nat) {
    && i + lookback < |history|
    && swing.formedAt == history[i].openTime && swing.confirmedAt == history[i + lookback].closedAt
    && swing.id == ZoneId(swing.role, swing.formedAt)
  }

  ghost predicate ConfirmedIn(swing: Swing, history: seq<ClosedCandle>, lookback: nat, cutoff: int, lo: nat, hi: nat) {
    swing.confirmedAt <= cutoff && exists i :: lo <= i < hi && ConfirmedBy(swing, history, lookback, i)
  }

  /** All swings are centred on bars from `lo` up to `hi`. */
  ghost predicate AllConfirmedIn(swings: seq<Swing>, history: seq<ClosedCandle>, lookback: nat, cutoff: int, lo: nat,
                                 hi: nat)
  {
    forall k :: 0 <= k < |swings| ==> ConfirmedIn(swings[k], history, lookback, cutoff, lo, hi)
  }

  ghost predicate DistinctSwings(swings: seq<Swing>) {
    forall k, l :: 0 <= k < l < |swings| ==> swings[k].id != swings[l].id
  }

  lemma SwingsAtShape(history: seq<ClosedCandle>, lookback: nat, cutoff: int, i: nat)
    requires lookback <= i && i + lookback < |history|
    ensures AllConfirmedIn(SwingsAt(history, lookback, cutoff, i), history, lookback, cutoff, i, i + 1)
    ensures DistinctSwings(SwingsAt(history, lookback, cutoff, i))
  {
    var s := SwingsAt(history, lookback, cutoff, i);
    forall k | 0 <= k < |s|
      ensures ConfirmedIn(s[k], history, lookback, cutoff, i, i + 1)
    {
      assert ConfirmedBy(s[k], history, lookback, i);
    }
  }

  lemma ConfirmedInWider(swing: Swing, history: seq<ClosedCandle>, lookback: nat, cutoff: int, lo: nat, hi: nat,
                         lo': nat, hi': nat)
    requires ConfirmedIn(swing, history, lookback, cutoff, lo, hi) && lo' <= lo && hi <= hi'
    ensures ConfirmedIn(swing, history, lookback, cutoff, lo', hi')
  {
  }

  lemma IdsOfDifferentBarsDiffer(a: Swing, b: Swing, history: seq<ClosedCandle>, lookback: nat, cutoff: int, lo: nat,
                                 mid: nat, hi: nat)
    requires Ordered(history)
    requires ConfirmedIn(a, history, lookback, cutoff, lo, mid) && ConfirmedIn(b, history, lookback, cutoff, mid, hi)
    ensures a.id != b.id
  {
  }

  /** Joining the swings of two stretches of bars. */
  lemma SwingsJoin(front: seq<Swing>, back: seq<Swing>, history: seq<ClosedCandle>, lookback: nat, cutoff: int, lo: nat,
                   mid: nat, hi: nat)
    requires Ordered(history) && lo <= mid <= hi
    requires AllConfirmedIn(front, history, lookback, cutoff, lo, mid)
    requires AllConfirmedIn(back, history, lookback, cutoff, mid, hi)
    ensures AllConfirmedIn(front + back, history, lookback, cutoff, lo, hi)
    ensures DistinctSwings(front) && DistinctSwings(back) ==> DistinctSwings(front + back)
  {
    hide ConfirmedIn;
    forall k | 0 <= k < |front + back|
      ensures ConfirmedIn((front + back)[k], history, lookback, cutoff, lo, hi)
    {
      if k < |front| {
        ConfirmedInWider(front[k], history, lookback, cutoff, lo, mid, lo, hi);
      } else {
        ConfirmedInWider(back[k - |front|], history, lookback, cutoff, mid, hi, lo, hi);
      }
    }
    forall k, l | 0 <= k < |front| && 0 <= l < |back|
      ensures front[k].id != back[l].id
    {
      IdsOfDifferentBarsDiffer(front[k], back[l], history, lookback, cutoff, lo, mid, hi);
    }
  }

  lemma NoSwings(history: seq<ClosedCandle>, lookback: nat, cutoff: int, lo: nat, hi: nat)
    ensures AllConfirmedIn([], history, lookback, cutoff, lo, hi) && DistinctSwings([])
  {
  }

  lemma {:induction false} SwingsBeforeShape(history: seq<ClosedCandle>, lookback: nat, cutoff: int, m: nat)
    requires Ordered(history) && (m > lookback ==> m + lookback <= |history|)
    ensures AllConfirmedIn(SwingsBefore(history, lookback, cutoff, m), history, lookback, cutoff, 0, m)
    ensures DistinctSwings(SwingsBefore(history, lookback, cutoff, m))
  {
    hide SwingsAt, SwingsBefore, AllConfirmedIn, DistinctSwings, Ordered;
    NoSwings(history, lookback, cutoff, 0, m);
    if m <= lookback {
      SwingsBase(history, lookback, cutoff, m);
    } else {
      SwingsStep(history, lookback, cutoff, m);
      SwingsBeforeShape(history, lookback, cutoff, m - 1);
      SwingsAtShape(history, lookback, cutoff, m - 1);
      SwingsJoin(SwingsBefore(history, lookback, cutoff, m - 1), SwingsAt(history, lookback, cutoff, m - 1), history,
                 lookback, cutoff, 0, m - 1, m);
    }
  }

  lemma Associative<T>(a: seq<T>, b: seq<T>, c: seq<T>)
    ensures (a + b) + c == a + (b + c)
  {
  }

  /** Splitting the scan: what lies beyond `m` is centred on bar `m` or later. */
  lemma {:induction false} SwingsSplit(history: seq<ClosedCandle>, lookback: nat, cutoff: int, m: nat, n: nat)
    returns (rest: seq<Swing>)
    requires Ordered(history) && m <= n && (n > lookback ==> n + lookback <= |history|)
    ensures SwingsBefore(history, lookback, cutoff, n) == SwingsBefore(history, lookback, cutoff, m) + rest
    ensures AllConfirmedIn(rest, history, lookback, cutoff, m, n)
    decreases n
  {
    hide SwingsAt, SwingsBefore, AllConfirmedIn, DistinctSwings, Ordered;
    if m == n || n <= lookback {
      NoSwings(history, lookback, cutoff, m, n);
      if n <= lookback {
        SwingsBase(history, lookback, cutoff, m);
        SwingsBase(history, lookback, cutoff, n);
      }
      rest := [];
    } else {
      SwingsStep(history, lookback, cutoff, n);
      var front := SwingsSplit(history, lookback, cutoff, m, n - 1);
      var back := SwingsAt(history, lookback, cutoff, n - 1);
      SwingsAtShape(history, lookback, cutoff, n - 1);
      SwingsJoin(front, back, history, lookback, cutoff, m, n - 1, n);
      Associative(SwingsBefore(history, lookback, cutoff, m), front, back);
      rest := front + back;
    }
  }

  /** The swings known at an earlier cutoff are the first swings known later; all others are confirmed after it. */
  lemma SwingsOnlyAppend(h1: seq<ClosedCandle>, h2: seq<ClosedCandle>, lookback: nat, c1: int, c2: int)
    returns (rest: seq<Swing>)
    requires KnownAt(h1, h2, c1) && c1 <= c2 && Ordered(h2)
    ensures SwingPoints(h2, lookback, c2) == SwingPoints(h1, lookback, c1) + rest
    ensures forall k :: 0 <= k < |rest| ==> rest[k].confirmedAt > c1
  {
    var m, n := SwingEnd(h1, lookback), SwingEnd(h2, lookback);
    SwingsBeforeAreKnown(h1, h2, lookback, c1, c2, m);
    rest := SwingsSplit(h2, lookback, c2, m, n);
    hide SwingsBefore;
    forall k | 0 <= k < |rest|
      ensures rest[k].confirmedAt > c1
    {
      assert ConfirmedIn(rest[k], h2, lookback, c2, m, n);
      var i :| m <= i < n && ConfirmedBy(rest[k], h2, lookback, i);
      assert i + lookback >= |h1|;
    }
  }

  // ---------- ATR at confirmation ----------

  lemma {:induction false} IndexMeaning(history: seq<ClosedCandle>, k: nat)
    requires Ordered(history) && k < |history|
    ensures history[k].closedAt in ConfirmationIndex(history)
    ensures ConfirmationIndex(history)[history[k].closedAt] == k
    decreases |history|
  {
    if k < |history| - 1 {
      IndexMeaning(history[..|history| - 1], k);
    }
  }

  lemma AtrValuesAreCausal(h1: seq<ClosedCandle>, h2: seq<ClosedCandle>)
    requires h1 <= h2
    ensures AtrValues(h1) == AtrValues(h2)[..|h1|]
  {
    var n := |h1|;
    assert Highs(h1) == Highs(h2)[..n] && Lows(h1) == Lows(h2)[..n] && Closes(h1) == Closes(h2)[..n];
    Indicators.AtrIsCausal(Highs(h2), Lows(h2), Closes(h2), ATR_PERIOD, n);
  }

  lemma FormationAtrOf(history: seq<ClosedCandle>, swing: Swing, lookback: nat, i: nat)
    requires Ordered(history) && ConfirmedBy(swing, history, lookback, i)
    ensures FormationAtr(swing, ConfirmationIndex(history), AtrValues(history)) == AtrValues(history)[i + lookback]
  {
    hide ConfirmationIndex, AtrValues;
    IndexMeaning(history, i + lookback);
  }

  /** The ATR that sizes a zone does not depend on anything after its confirmation. */
  lemma FormationAtrIsCausal(h1: seq<ClosedCandle>, h2: seq<ClosedCandle>, swing: Swing, lookback: nat, i: nat)
    requires h1 <= h2 && Ordered(h2) && ConfirmedBy(swing, h1, lookback, i)
    ensures FormationAtr(swing, ConfirmationIndex(h1), AtrValues(h1))
         == FormationAtr(swing, ConfirmationIndex(h2), AtrValues(h2))
  {
    hide ConfirmationIndex, AtrValues, FormationAtr;
    FormationAtrOf(h1, swing, lookback, i);
    FormationAtrOf(h2, swing, lookback, i);
    AtrValuesAreCausal(h1, h2);
  }

  // ---------- zones ----------

  ghost predicate SameFormationAtr(swings: seq<Swing>, i1: map<int, nat>, a1: seq<Option<real>>, i2: map<int, nat>,
                                   a2: seq<Option<real>>)
  {
    forall k :: 0 <= k < |swings| ==> FormationAtr(swings[k], i1, a1) == FormationAtr(swings[k], i2, a2)
  }

  lemma BuildZoneAgrees(swing: Swing, i1: map<int, nat>, a1: seq<Option<real>>, i2: map<int, nat>,
                        a2: seq<Option<real>>, config: Config, tick: Option<Grid.GridStep>)
    requires FormationAtr(swing, i1, a1) == FormationAtr(swing, i2, a2)
    ensures BuildZone(swing, i1, a1, config, tick) == BuildZone(swing, i2, a2, config, tick)
  {
    hide SizedZone, FormationAtr;
  }

  lemma {:induction false} BuildAllAgrees(swings: seq<Swing>, i1: map<int, nat>, a1: seq<Option<real>>, i2: map<int, nat>,
                                          a2: seq<Option<real>>, config: Config, tick: Option<Grid.GridStep>)
    requires SameFormationAtr(swings, i1, a1, i2, a2)
    ensures BuildAll(swings, i1, a1, config, tick) == BuildAll(swings, i2, a2, config, tick)
    decreases |swings|
  {
    if swings != [] {
      hide BuildZone, FormationAtr;
      BuildAllAgrees(swings[..|swings| - 1], i1, a1, i2, a2, config, tick);
      BuildZoneAgrees(swings[|swings| - 1], i1, a1, i2, a2, config, tick);
    }
  }

  /** A zone keeps the identity and the times of the swing it was built from. */
  ghost predicate BuiltFrom(zone: Zone, swing: Swing) {
    && zone.id == swing.id && zone.role == swing.role && zone.formedAt == swing.formedAt
    && zone.confirmedAt == swing.confirmedAt && zone.status == Active && zone.Valid()
  }

  lemma BuildZoneShape(swing: Swing, index: map<int, nat>, atrs: seq<Option<real>>, config: Config,
                       tick: Option<Grid.GridStep>)
    ensures var b := BuildZone(swing, index, atrs, config, tick); b.Made? ==> BuiltFrom(b.zone, swing)
  {
    hide ZoneBounds, FormationAtr;
  }

  /** Building more swings only appends zones of the further swings, and cannot repair a failed build. */
  lemma {:induction false} BuildAllAppends(swings: seq<Swing>, rest: seq<Swing>, index: map<int, nat>,
                                           atrs: seq<Option<real>>, config: Config, tick: Option<Grid.GridStep>)
    returns (more: seq<Zone>)
    requires BuildAll(swings + rest, index, atrs, config, tick).Ok?
    ensures BuildAll(swings, index, atrs, config, tick).Ok?
    ensures BuildAll(swings + rest, index, atrs, config, tick).value
         == BuildAll(swings, index, atrs, config, tick).value + more
    ensures forall k :: 0 <= k < |more| ==> exists j :: 0 <= j < |rest| && BuiltFrom(more[k], rest[j])
    decreases |rest|
  {
    if rest == [] {
      assert swings + rest == swings;
      more := [];
    } else {
      var n := |rest| - 1;
      var all := swings + rest;
      assert all[..|swings| + n] == swings + rest[..n];
      assert all[|swings| + n] == rest[n];
      var earlier := BuildAllAppends(swings, rest[..n], index, atrs, config, tick);
      BuildZoneShape(rest[n], index, atrs, config, tick);
      hide BuildZone, BuiltFrom;
      var built := BuildZone(rest[n], index, atrs, config, tick);
      more := earlier + if built.Made? then [built.zone] else [];
      forall k | 0 <= k < |more|
        ensures exists j :: 0 <= j < |rest| && BuiltFrom(more[k], rest[j])
      {
        if k < |earlier| {
          var j :| 0 <= j < n && BuiltFrom(earlier[k], rest[..n][j]);
          assert BuiltFrom(more[k], rest[j]);
        } else {
          assert BuiltFrom(more[k], rest[n]);
        }
      }
    }
  }

  lemma {:induction false} BuildAllShape(swings: seq<Swing>, index: map<int, nat>, atrs: seq<Option<real>>, config: Config,
                                         tick: Option<Grid.GridStep>)
    requires forall k, l :: 0 <= k < l < |swings| ==> swings[k].id != swings[l].id
    ensures var r := BuildAll(swings, index, atrs, config, tick);
            && (r.Err? ==> r.error == InvalidZone)
            && (r.Ok? ==>
                  && LocationDedupe.DistinctIds(r.value)
                  && forall k :: 0 <= k < |r.value| ==> exists j :: 0 <= j < |swings| && BuiltFrom(r.value[k], swings[j]))
    decreases |swings|
  {
    if swings != [] {
      var n := |swings| - 1;
      BuildAllShape(swings[..n], index, atrs, config, tick);
      BuildZoneShape(swings[n], index, atrs, config, tick);
      hide BuildZone;
      var earlier := BuildAll(swings[..n], index, atrs, config, tick);
      var built := BuildZone(swings[n], index, atrs, config, tick);
      if earlier.Ok? {
        forall k | 0 <= k < |earlier.value|
          ensures exists j :: 0 <= j < n && BuiltFrom(earlier.value[k], swings[j])
        {
          var j :| 0 <= j < n && BuiltFrom(earlier.value[k], swings[..n][j]);
          assert BuiltFrom(earlier.value[k], swings[j]);
        }
        if built.Made? {
          assert BuiltFrom(built.zone, swings[n]);
        }
      }
    }
  }
}

/**
 What the bar cap does to a rebuild.  Dropped bars may change the ATR that sizes a zone, so a zone can be
 repainted; they change nothing else.  Swings are the same as long as their bars are kept, and a zone is kept
 exactly if its sizing ATR is.
 */
module LocationBarCap {
  import opened Common
  import opened Candles
  import opened LocationModel
  import opened LocationCausality
  import opened LocationRepainting
  import opened LocationSwings
  import Grid
  import LocationDedupe
  import LocationLifecycle
  import Indicators

  // ---------- swings of a window ----------

  lemma ShiftedStandsOut(role: Role, bars: seq<ClosedCandle>, start: nat, lookback: nat, i: nat)
    requires start <= |bars| && lookback <= i && i + lookback < |bars| - start
    ensures StandsOut(role, bars[start..], lookback, i) == StandsOut(role, bars, lookback, start + i)
  {
    var window := bars[start..];
    assert window[i] == bars[start + i];
    if StandsOut(role, window, lookback, i) {
      forall j | start + i - lookback <= j <= start + i + lookback && j != start + i
        ensures if role == Resistance then bars[j].candle.high < bars[start + i].candle.high
                else bars[j].candle.low > bars[start + i].candle.low
      {
        assert window[j - start] == bars[j];
      }
    }
  }

  lemma ShiftedSwing(swing: Swing, bars: seq<ClosedCandle>, start: nat, lookback: nat, cutoff: int, i: nat)
    requires start <= |bars| && lookback <= i && i + lookback < |bars| - start
    ensures SwingOf(swing, bars[start..], lookback, cutoff, i) == SwingOf(swing, bars, lookback, cutoff, start + i)
  {
    hide StandsOut;
    ShiftedStandsOut(swing.role, bars, start, lookback, i);
  }

  lemma KnownSwing(swing: Swing, b1: seq<ClosedCandle>, b2: seq<ClosedCandle>, lookback: nat, c1: int, c2: int, a: nat)
    requires KnownAt(b1, b2, c1) && c1 <= c2 && lookback <= a && a + lookback < |b2|
    ensures SwingOf(swing, b2, lookback, c2, a) && swing.confirmedAt <= c1 ==> a + lookback < |b1|
    ensures a + lookback < |b1| ==> SwingOf(swing, b2, lookback, c2, a) == SwingOf(swing, b1, lookback, c1, a)
  {
    if a + lookback < |b1| {
      assert b1[a + lookback] == b2[a + lookback] && b1[a] == b2[a];
      assert StandsOut(swing.role, b1, lookback, a) == StandsOut(swing.role, b2, lookback, a);
    }
  }

  /** The window still holds a bar that opened then, with `lookback` bars before it. */
  ghost predicate Inside(formedAt: int, window: seq<ClosedCandle>, lookback: nat) {
    exists i :: lookback <= i < |window| && window[i].openTime == formedAt
  }

  ghost predicate FoundAt(swing: Swing, history: seq<ClosedCandle>, lookback: nat, cutoff: int, i: int) {
    lookback <= i && i + lookback < |history| && SwingOf(swing, history, lookback, cutoff, i)
  }

  lemma FoundMeaning(swing: Swing, history: seq<ClosedCandle>, lookback: nat, cutoff: int)
    ensures swing in SwingPoints(history, lookback, cutoff) <==> exists i :: FoundAt(swing, history, lookback, cutoff, i)
  {
    hide SwingOf, SwingPoints;
    SwingPointsMeaning(history, lookback, cutoff, swing);
    if swing in SwingPoints(history, lookback, cutoff) {
      var i :| lookback <= i && i + lookback < |history| && SwingOf(swing, history, lookback, cutoff, i);
      assert FoundAt(swing, history, lookback, cutoff, i);
    }
  }

  lemma FoundLaterIsFoundEarlier(swing: Swing, b1: seq<ClosedCandle>, b2: seq<ClosedCandle>, s1: nat, s2: nat,
                                 lookback: nat, c1: int, c2: int, i: int)
    requires KnownAt(b1, b2, c1) && c1 <= c2 && s1 <= s2 <= |b2| && s1 <= |b1|
    requires FoundAt(swing, b2[s2..], lookback, c2, i) && swing.confirmedAt <= c1
    ensures FoundAt(swing, b1[s1..], lookback, c1, s2 + i - s1)
    ensures Inside(swing.formedAt, b2[s2..], lookback)
  {
    ShiftedSwing(swing, b2, s2, lookback, c2, i);
    KnownSwing(swing, b1, b2, lookback, c1, c2, s2 + i);
    ShiftedSwing(swing, b1, s1, lookback, c1, s2 + i - s1);
  }

  lemma FoundEarlierIsFoundLater(swing: Swing, b1: seq<ClosedCandle>, b2: seq<ClosedCandle>, s1: nat, s2: nat,
                                 lookback: nat, c1: int, c2: int, j: int) returns (i: int)
    requires KnownAt(b1, b2, c1) && Ordered(b2) && c1 <= c2 && s1 <= s2 <= |b2| && s1 <= |b1|
    requires FoundAt(swing, b1[s1..], lookback, c1, j) && Inside(swing.formedAt, b2[s2..], lookback)
    ensures FoundAt(swing, b2[s2..], lookback, c2, i)
  {
    ShiftedSwing(swing, b1, s1, lookback, c1, j);
    KnownSwing(swing, b1, b2, lookback, c1, c2, s1 + j);
    i :| lookback <= i < |b2[s2..]| && b2[s2..][i].openTime == swing.formedAt;
    assert b2[s2 + i].openTime == b2[s1 + j].openTime;
    assert s2 + i == s1 + j;
    ShiftedSwing(swing, b2, s2, lookback, c2, i);
  }

  lemma WindowSwingsIff(swing: Swing, b1: seq<ClosedCandle>, b2: seq<ClosedCandle>, s1: nat, s2: nat, lookback: nat,
                        c1: int, c2: int)
    requires KnownAt(b1, b2, c1) && Ordered(b2) && c1 <= c2 && s1 <= s2 <= |b2| && s1 <= |b1|
    requires swing.confirmedAt <= c1
    ensures swing in SwingPoints(b2[s2..], lookback, c2)
       <==> swing in SwingPoints(b1[s1..], lookback, c1) && Inside(swing.formedAt, b2[s2..], lookback)
  {
    hide SwingPoints, KnownAt, Ordered, SwingOf, Inside;
    FoundMeaning(swing, b1[s1..], lookback, c1);
    FoundMeaning(swing, b2[s2..], lookback, c2);
    hide FoundAt;
    if i :| FoundAt(swing, b2[s2..], lookback, c2, i) {
      FoundLaterIsFoundEarlier(swing, b1, b2, s1, s2, lookback, c1, c2, i);
    }
    if j :| FoundAt(swing, b1[s1..], lookback, c1, j) {
      if Inside(swing.formedAt, b2[s2..], lookback) {
        var i := FoundEarlierIsFoundLater(swing, b1, b2, s1, s2, lookback, c1, c2, j);
      }
    }
  }

  // ---------- statuses in a window ----------

  lemma {:induction false} EarlierClosesDoNotCount(bars: seq<ClosedCandle>, start: nat, since: int)
    requires start <= |bars| && forall k :: 0 <= k < start ==> bars[k].closedAt < since
    ensures ClosesSince(bars[start..], since) == ClosesSince(bars, since)
    decreases |bars|
  {
    if bars != [] {
      var n := |bars| - 1;
      if start <= n {
        assert bars[start..][..n - start] == bars[..n][start..];
        EarlierClosesDoNotCount(bars[..n], start, since);
      } else {
        assert bars[..n][n..] == [];
        EarlierClosesDoNotCount(bars[..n], n, since);
      }
    }
  }

  /** The closes since a bar of both windows: the later window only adds to them. */
  lemma ClosesSinceInWindows(b1: seq<ClosedCandle>, b2: seq<ClosedCandle>, s1: nat, s2: nat, since: int)
    requires b1 <= b2 && Ordered(b2) && s1 <= s2 <= |b2| && s1 <= |b1| && ClosesAt(b2[s2..], since)
    ensures ClosesSince(b1[s1..], since) <= ClosesSince(b2[s2..], since)
  {
    var i :| 0 <= i < |b2[s2..]| && b2[s2..][i].closedAt == since;
    assert b2[s2 + i].closedAt == since;
    EarlierClosesDoNotCount(b1, s1, since);
    EarlierClosesDoNotCount(b2, s2, since);
    assert b2 == b1 + b2[|b1|..];
    LocationLifecycle.ClosesSinceGrows(b1, b2[|b1|..], since);
  }

  lemma AgedInWindows(zone: Zone, b1: seq<ClosedCandle>, b2: seq<ClosedCandle>, s1: nat, s2: nat, config: Config)
    requires config.Valid() && b1 <= b2 && Ordered(b2) && s1 <= s2 <= |b2| && s1 <= |b1|
    requires ClosesAt(b2[s2..], zone.confirmedAt)
    ensures Survives(Aged(zone, b1[s1..], config), Aged(zone, b2[s2..], config))
  {
    hide StatusFor, ClosesSince, Ordered, ClosesAt;
    ClosesSinceInWindows(b1, b2, s1, s2, zone.confirmedAt);
    LocationLifecycle.DeadStaysDead(zone, config, ClosesSince(b1[s1..], zone.confirmedAt),
                                    ClosesSince(b2[s2..], zone.confirmedAt));
  }

  // ---------- where zones come from ----------

  /** The ATR of the bar that closes at a time, as the zone loop looks it up. */
  function AtrAt(history: seq<ClosedCandle>, t: int): Option<real> {
    FormationAtr(Swing(ZoneId(Support, 0), Support, 0.0, 0, t), ConfirmationIndex(history), AtrValues(history))
  }

  ghost predicate Makes(swing: Swing, atr: Option<real>, zone: Zone, config: Config, tick: Option<Grid.GridStep>) {
    SizedZone(swing, atr, config, tick) == Made(zone)
  }

  lemma {:induction false} BuiltMeaning(swings: seq<Swing>, index: map<int, nat>, atrs: seq<Option<real>>, config: Config,
                                        tick: Option<Grid.GridStep>, zone: Zone)
    requires BuildAll(swings, index, atrs, config, tick).Ok?
    ensures zone in BuildAll(swings, index, atrs, config, tick).value
       <==> exists k :: 0 <= k < |swings| && Makes(swings[k], FormationAtr(swings[k], index, atrs), zone, config, tick)
    decreases |swings|
  {
    hide SizedZone, FormationAtr;
    if swings != [] {
      var n := |swings| - 1;
      BuiltMeaning(swings[..n], index, atrs, config, tick, zone);
      assert forall k :: 0 <= k < n ==> swings[..n][k] == swings[k];
    }
  }

  /** The zone comes from a swing of the history, sized by the ATR at its confirmation, and is aged by the history. */
  ghost predicate Originates(swing: Swing, raw: Zone, zone: Zone, history: seq<ClosedCandle>, cutoff: int, config: Config,
                             tick: Option<Grid.GridStep>)
    requires config.Valid()
  {
    && swing in SwingPoints(history, config.swingLookback, cutoff)
    && Makes(swing, AtrAt(history, swing.confirmedAt), raw, config, tick) && zone == Aged(raw, history, config)
  }

  lemma MadeKeepsSwing(swing: Swing, atr: Option<real>, raw: Zone, config: Config, tick: Option<Grid.GridStep>)
    requires Makes(swing, atr, raw, config, tick)
    ensures raw.id == swing.id && raw.confirmedAt == swing.confirmedAt && raw.formedAt == swing.formedAt
    ensures atr == Some(raw.formationAtr)
  {
    hide ZoneBounds;
  }

  lemma ZonesOriginate(history: seq<ClosedCandle>, cutoff: int, config: Config, tick: Option<Grid.GridStep>, zone: Zone)
    requires config.Valid() && Ordered(history) && ZonesFromHistory(history, cutoff, config, tick).Ok?
    ensures zone in ZonesFromHistory(history, cutoff, config, tick).value
       <==> exists swing, raw :: Originates(swing, raw, zone, history, cutoff, config, tick)
  {
    hide SwingPoints, BuildAll, ConfirmationIndex, AtrValues, ZonesFromHistory, Makes, Aged, Ordered;
    BuildNeverTripsItsOwnStages(history, cutoff, config, tick);
    var swings := SwingPoints(history, config.swingLookback, cutoff);
    var index, atrs, raws := ConfirmationIndex(history), AtrValues(history), RawZones(history, cutoff, config, tick).value;
    if AgedFrom(zone, raws, history, config) {
      var k :| 0 <= k < |raws| && zone == Aged(raws[k], history, config);
      BuiltMeaning(swings, index, atrs, config, tick, raws[k]);
      assert raws[k] in raws;
      var l :| 0 <= l < |swings| && Makes(swings[l], FormationAtr(swings[l], index, atrs), raws[k], config, tick);
      assert Originates(swings[l], raws[k], zone, history, cutoff, config, tick);
    }
    if swing, raw :| Originates(swing, raw, zone, history, cutoff, config, tick) {
      var l :| 0 <= l < |swings| && swings[l] == swing;
      assert Makes(swings[l], FormationAtr(swings[l], index, atrs), raw, config, tick);
      BuiltMeaning(swings, index, atrs, config, tick, raw);
      var k :| 0 <= k < |raws| && raws[k] == raw;
      assert AgedFrom(zone, raws, history, config);
    }
  }

  // ---------- what survives the cap ----------

  /** A zone carries the ATR of the bar that confirmed it. */
  lemma ZoneCarriesItsAtr(history: seq<ClosedCandle>, cutoff: int, config: Config, tick: Option<Grid.GridStep>, zone: Zone)
    requires config.Valid() && Ordered(history) && ZonesFromHistory(history, cutoff, config, tick).Ok?
    requires zone in ZonesFromHistory(history, cutoff, config, tick).value
    ensures AtrAt(history, zone.confirmedAt) == Some(zone.formationAtr)
  {
    hide ZonesFromHistory, SwingPoints, AtrAt, Makes, Ordered, StatusFor, ClosesSince;
    ZonesOriginate(history, cutoff, config, tick, zone);
    var swing, raw :| Originates(swing, raw, zone, history, cutoff, config, tick);
    MadeKeepsSwing(swing, AtrAt(history, swing.confirmedAt), raw, config, tick);
  }

  lemma WindowsAreOrdered(b1: seq<ClosedCandle>, b2: seq<ClosedCandle>, s1: nat, s2: nat)
    requires Ordered(b2) && b1 <= b2 && s1 <= |b1| && s2 <= |b2|
    ensures Ordered(b1[s1..]) && Ordered(b2[s2..])
  {
  }

  lemma KeptIfAtrAgrees(b1: seq<ClosedCandle>, b2: seq<ClosedCandle>, s1: nat, s2: nat, c1: int, c2: int, config: Config,
                        tick: Option<Grid.GridStep>, swing: Swing, raw: Zone)
    requires config.Valid() && KnownAt(b1, b2, c1) && Ordered(b2) && c1 <= c2 && s1 <= s2 <= |b2| && s1 <= |b1|
    requires swing in SwingPoints(b2[s2..], config.swingLookback, c2) && swing.confirmedAt <= c1
    requires Makes(swing, AtrAt(b1[s1..], swing.confirmedAt), raw, config, tick)
    ensures Originates(swing, raw, Aged(raw, b1[s1..], config), b1[s1..], c1, config, tick)
    ensures Survives(Aged(raw, b1[s1..], config), Aged(raw, b2[s2..], config))
  {
    hide SwingPoints, Makes, AtrAt, Ordered, Survives, StatusFor, ClosesSince, ClosesAt;
    assert b1 <= b2;
    WindowSwingsIff(swing, b1, b2, s1, s2, config.swingLookback, c1, c2);
    SwingsConfirmInHistory(swing, b2[s2..], config.swingLookback, c2);
    MadeKeepsSwing(swing, AtrAt(b1[s1..], swing.confirmedAt), raw, config, tick);
    AgedInWindows(raw, b1, b2, s1, s2, config);
  }

  lemma WindowZoneKeptIff(b1: seq<ClosedCandle>, b2: seq<ClosedCandle>, s1: nat, s2: nat, c1: int, c2: int, config: Config,
                          tick: Option<Grid.GridStep>, later: Zone)
    requires config.Valid() && KnownAt(b1, b2, c1) && Ordered(b2) && c1 <= c2 && s1 <= s2 <= |b2| && s1 <= |b1|
    requires ZonesFromHistory(b1[s1..], c1, config, tick).Ok? && ZonesFromHistory(b2[s2..], c2, config, tick).Ok?
    requires later in ZonesFromHistory(b2[s2..], c2, config, tick).value && later.confirmedAt <= c1
    ensures (exists z :: z in ZonesFromHistory(b1[s1..], c1, config, tick).value && Survives(z, later))
       <==> AtrAt(b1[s1..], later.confirmedAt) == Some(later.formationAtr)
  {
    assert b1 <= b2;
    hide ZonesFromHistory, SwingPoints, AtrAt, Makes, KnownAt, Ordered, Survives, StatusFor, ClosesSince;
    var h1, h2 := b1[s1..], b2[s2..];
    WindowsAreOrdered(b1, b2, s1, s2);
    if z :| z in ZonesFromHistory(h1, c1, config, tick).value && Survives(z, later) {
      ZoneCarriesItsAtr(h1, c1, config, tick, z);
      SurvivorsShareSizing(z, later);
    }
    if AtrAt(h1, later.confirmedAt) == Some(later.formationAtr) {
      ZonesOriginate(h2, c2, config, tick, later);
      var swing, raw :| Originates(swing, raw, later, h2, c2, config, tick);
      MadeKeepsSwing(swing, AtrAt(h2, swing.confirmedAt), raw, config, tick);
      KeptIfAtrAgrees(b1, b2, s1, s2, c1, c2, config, tick, swing, raw);
      ZonesOriginate(h1, c1, config, tick, Aged(raw, h1, config));
    }
  }

  lemma SurvivorsShareSizing(z: Zone, w: Zone)
    requires Survives(z, w)
    ensures z.formationAtr == w.formationAtr && z.confirmedAt == w.confirmedAt && z.id == w.id
  {
  }

  lemma SwingsConfirmInHistory(swing: Swing, history: seq<ClosedCandle>, lookback: nat, cutoff: int)
    requires swing in SwingPoints(history, lookback, cutoff)
    ensures ClosesAt(history, swing.confirmedAt)
  {
    hide SwingPoints, StandsOut;
    SwingPointsMeaning(history, lookback, cutoff, swing);
    var i :| lookback <= i && i + lookback < |history| && SwingOf(swing, history, lookback, cutoff, i);
    assert history[i + lookback].closedAt == swing.confirmedAt;
  }

  /** An earlier zone is found again, in all but its status, exactly if its bars are kept and size it alike. */
  lemma WindowZoneSurvivesIff(b1: seq<ClosedCandle>, b2: seq<ClosedCandle>, s1: nat, s2: nat, c1: int, c2: int,
                              config: Config, tick: Option<Grid.GridStep>, earlier: Zone)
    requires config.Valid() && KnownAt(b1, b2, c1) && Ordered(b2) && c1 <= c2 && s1 <= s2 <= |b2| && s1 <= |b1|
    requires ZonesFromHistory(b1[s1..], c1, config, tick).Ok? && ZonesFromHistory(b2[s2..], c2, config, tick).Ok?
    requires earlier in ZonesFromHistory(b1[s1..], c1, config, tick).value
    ensures earlier.confirmedAt <= c1
    ensures (exists w :: w in ZonesFromHistory(b2[s2..], c2, config, tick).value && Survives(earlier, w))
       <==> Inside(earlier.formedAt, b2[s2..], config.swingLookback)
            && AtrAt(b2[s2..], earlier.confirmedAt) == Some(earlier.formationAtr)
  {
    assert b1 <= b2;
    hide ZonesFromHistory, SwingPoints, AtrAt, Makes, KnownAt, Ordered, Survives, StatusFor, ClosesSince, Inside, ClosesAt;
    var h1, h2 := b1[s1..], b2[s2..];
    WindowsAreOrdered(b1, b2, s1, s2);
    ZonesOriginate(h1, c1, config, tick, earlier);
    var swing, raw :| Originates(swing, raw, earlier, h1, c1, config, tick);
    MadeKeepsSwing(swing, AtrAt(h1, swing.confirmedAt), raw, config, tick);
    ConfirmedByCutoff(swing, h1, config.swingLookback, c1);
    WindowSwingsIff(swing, b1, b2, s1, s2, config.swingLookback, c1, c2);
    if w :| w in ZonesFromHistory(h2, c2, config, tick).value && Survives(earlier, w) {
      ZoneCarriesItsAtr(h2, c2, config, tick, w);
      SurvivorsShareSizing(earlier, w);
      ZonesOriginate(h2, c2, config, tick, w);
      var own, made :| Originates(own, made, w, h2, c2, config, tick);
      MadeKeepsSwing(own, AtrAt(h2, own.confirmedAt), made, config, tick);
      WindowSwingsIff(own, b1, b2, s1, s2, config.swingLookback, c1, c2);
    }
    if Inside(earlier.formedAt, h2, config.swingLookback)
       && AtrAt(h2, earlier.confirmedAt) == Some(earlier.formationAtr) {
      var later := Aged(raw, h2, config);
      assert Originates(swing, raw, later, h2, c2, config, tick);
      ZonesOriginate(h2, c2, config, tick, later);
      SwingsConfirmInHistory(swing, h2, config.swingLookback, c2);
      AgedInWindows(raw, b1, b2, s1, s2, config);
    }
  }

  lemma ConfirmedByCutoff(swing: Swing, history: seq<ClosedCandle>, lookback: nat, cutoff: int)
    requires swing in SwingPoints(history, lookback, cutoff)
    ensures swing.confirmedAt <= cutoff
  {
    hide SwingPoints, StandsOut;
    SwingPointsMeaning(history, lookback, cutoff, swing);
  }

  // ---------- when the sizing ATRs agree ----------

  const WARM := ATR_PERIOD - 1

  lemma AverageIsInjective(a: real, b: real, value: real)
    ensures Indicators.NextAverage(a, value, ATR_PERIOD) == Indicators.NextAverage(b, value, ATR_PERIOD) <==> a == b
  {
  }

  function RangesOf(window: seq<ClosedCandle>): (r: seq<real>)
    ensures |r| == |window|
  {
    Indicators.TrueRanges(Highs(window), Lows(window), Closes(window))
  }

  lemma AtrValueAt(window: seq<ClosedCandle>, i: nat)
    requires WARM <= i < |window|
    ensures AtrValues(window)[i] == Some(Indicators.WilderAt(RangesOf(window), ATR_PERIOD, i + 1))
  {
    hide Indicators.WilderAt, Indicators.TrueRange;
  }

  lemma TooFewForAtr(window: seq<ClosedCandle>, i: nat)
    requires i < WARM && i < |window|
    ensures AtrValues(window)[i] == None
  {
    hide Indicators.WilderAt, Indicators.TrueRange;
  }

  /** All bars but the first of a window have the true range they have in any longer window. */
  lemma RangesAgree(b1: seq<ClosedCandle>, b2: seq<ClosedCandle>, s1: nat, s2: nat, i: nat)
    requires b1 <= b2 && s1 <= s2 && 1 <= i && s2 + i < |b1|
    ensures RangesOf(b1[s1..])[s2 - s1 + i] == RangesOf(b2[s2..])[i]
  {
    var h1, h2, j := b1[s1..], b2[s2..], s2 - s1 + i;
    assert h1[j] == h2[i] && h1[j - 1] == h2[i - 1];
    assert RangesOf(h1)[j] == Indicators.TrueRange(Highs(h1), Lows(h1), Closes(h1), j);
    assert RangesOf(h2)[i] == Indicators.TrueRange(Highs(h2), Lows(h2), Closes(h2), i);
  }

  /** Two windows agree on one ATR, from the first that both have, exactly if they agree on all. */
  lemma {:induction false} AtrsAgreeTogether(b1: seq<ClosedCandle>, b2: seq<ClosedCandle>, s1: nat, s2: nat, i: nat)
    requires b1 <= b2 && s1 <= s2 && WARM <= i && s2 + i < |b1|
    ensures AtrValues(b1[s1..])[s2 - s1 + i] == AtrValues(b2[s2..])[i]
       <==> AtrValues(b1[s1..])[s2 - s1 + WARM] == AtrValues(b2[s2..])[WARM]
    decreases i
  {
    if i > WARM {
      AtrsAgreeTogether(b1, b2, s1, s2, i - 1);
      AtrStep(b1, b2, s1, s2, i);
    }
  }

  lemma AtrStep(b1: seq<ClosedCandle>, b2: seq<ClosedCandle>, s1: nat, s2: nat, i: nat)
    requires b1 <= b2 && s1 <= s2 && WARM < i && s2 + i < |b1|
    ensures AtrValues(b1[s1..])[s2 - s1 + i] == AtrValues(b2[s2..])[i]
       <==> AtrValues(b1[s1..])[s2 - s1 + i - 1] == AtrValues(b2[s2..])[i - 1]
  {
    var h1, h2, j := b1[s1..], b2[s2..], s2 - s1 + i;
    AtrValueAt(h1, j);
    AtrValueAt(h1, j - 1);
    AtrValueAt(h2, i);
    AtrValueAt(h2, i - 1);
    RangesAgree(b1, b2, s1, s2, i);
    hide AtrValues, RangesOf, Indicators.NextAverage;
    AverageIsInjective(Indicators.WilderAt(RangesOf(h1), ATR_PERIOD, j), Indicators.WilderAt(RangesOf(h2), ATR_PERIOD, i),
                       RangesOf(h2)[i]);
  }

  /** The earlier window gave the bar that completes the later window's first ATR the same ATR. */
  predicate SameWarmAtr(h1: seq<ClosedCandle>, h2: seq<ClosedCandle>) {
    |h2| > WARM && AtrAt(h1, h2[WARM].closedAt) == AtrAt(h2, h2[WARM].closedAt)
  }

  lemma AtrAtBar(history: seq<ClosedCandle>, i: nat)
    requires Ordered(history) && i < |history|
    ensures AtrAt(history, history[i].closedAt) == AtrValues(history)[i]
  {
    hide ConfirmationIndex, AtrValues;
    IndexMeaning(history, i);
  }

  /** The ATRs that two windows give a bar they share. */
  lemma SharedBarAtrs(b1: seq<ClosedCandle>, b2: seq<ClosedCandle>, s1: nat, s2: nat, i: nat)
    requires b1 <= b2 && Ordered(b2) && s1 <= s2 && s2 + i < |b1|
    ensures AtrAt(b1[s1..], b2[s2 + i].closedAt) == AtrValues(b1[s1..])[s2 - s1 + i]
    ensures AtrAt(b2[s2..], b2[s2 + i].closedAt) == AtrValues(b2[s2..])[i]
  {
    hide AtrAt, AtrValues;
    WindowsAreOrdered(b1, b2, s1, s2);
    assert b1[s1..][s2 - s1 + i] == b2[s2 + i] && b2[s2..][i] == b2[s2 + i];
    AtrAtBar(b1[s1..], s2 - s1 + i);
    AtrAtBar(b2[s2..], i);
  }

  /** A bar of both windows that the later one has an ATR for: its ATRs agree exactly if the first ones do. */
  lemma SharedBarAgrees(b1: seq<ClosedCandle>, b2: seq<ClosedCandle>, s1: nat, s2: nat, c1: int, i: nat)
    requires KnownAt(b1, b2, c1) && Ordered(b2) && s1 <= s2 <= |b2| && s1 <= |b1|
    requires WARM <= i < |b2| - s2 && b2[s2 + i].closedAt <= c1
    ensures AtrAt(b1[s1..], b2[s2 + i].closedAt) == AtrAt(b2[s2..], b2[s2 + i].closedAt)
       <==> SameWarmAtr(b1[s1..], b2[s2..])
  {
    assert s2 + i < |b1| && b1 <= b2;
    hide AtrAt, AtrValues, KnownAt, Ordered;
    SharedBarAtrs(b1, b2, s1, s2, i);
    SharedBarAtrs(b1, b2, s1, s2, WARM);
    AtrsAgreeTogether(b1, b2, s1, s2, i);
    assert b2[s2..][WARM] == b2[s2 + WARM];
  }

  /** The later window has an ATR for the bar that closes then. */
  ghost predicate SizedIn(t: int, window: seq<ClosedCandle>) {
    exists i :: WARM <= i < |window| && window[i].closedAt == t
  }

  lemma SizedIffAtr(window: seq<ClosedCandle>, t: int)
    requires Ordered(window)
    ensures AtrAt(window, t).Some? <==> SizedIn(t, window)
  {
    IndexOnlyHoldsBars(window, t);
    if i :| 0 <= i < |window| && window[i].closedAt == t {
      AtrAtBar(window, i);
      if i < WARM {
        TooFewForAtr(window, i);
      } else {
        AtrValueAt(window, i);
      }
      hide AtrAt, AtrValues;
      forall k | 0 <= k < |window| && window[k].closedAt == t
        ensures k == i
      {
        SameCloseSameBar(window, k, i);
      }
    }
  }

  lemma SameCloseSameBar(window: seq<ClosedCandle>, k: nat, i: nat)
    requires Ordered(window) && k < |window| && i < |window| && window[k].closedAt == window[i].closedAt
    ensures k == i
  {
  }

  lemma {:induction false} IndexHoldsBars(history: seq<ClosedCandle>, t: int)
    ensures t in ConfirmationIndex(history) ==> exists i :: 0 <= i < |history| && history[i].closedAt == t
    decreases |history|
  {
    if history != [] {
      var n := |history| - 1;
      IndexHoldsBars(history[..n], t);
      if i :| 0 <= i < n && history[..n][i].closedAt == t {
        assert history[i].closedAt == t;
      }
    }
  }

  lemma IndexOnlyHoldsBars(window: seq<ClosedCandle>, t: int)
    ensures AtrAt(window, t).Some? ==> exists i :: 0 <= i < |window| && window[i].closedAt == t
  {
    hide ConfirmationIndex, AtrValues;
    IndexHoldsBars(window, t);
  }

  /** For times both windows know: the ATRs agree and exist exactly if the later window has one and the first ones agree. */
  lemma AgreementMeaning(b1: seq<ClosedCandle>, b2: seq<ClosedCandle>, s1: nat, s2: nat, c1: int, t: int, atr: real)
    requires KnownAt(b1, b2, c1) && Ordered(b2) && s1 <= s2 <= |b2| && s1 <= |b1| && t <= c1
    ensures AtrAt(b1[s1..], t) == Some(atr) ==>
              (AtrAt(b2[s2..], t) == Some(atr) <==> SizedIn(t, b2[s2..]) && SameWarmAtr(b1[s1..], b2[s2..]))
    ensures AtrAt(b2[s2..], t) == Some(atr) ==>
              (AtrAt(b1[s1..], t) == Some(atr) <==> SameWarmAtr(b1[s1..], b2[s2..]))
  {
    assert b1 <= b2;
    hide AtrAt, SameWarmAtr, KnownAt, Ordered;
    WindowsAreOrdered(b1, b2, s1, s2);
    SizedIffAtr(b2[s2..], t);
    if i :| WARM <= i < |b2[s2..]| && b2[s2..][i].closedAt == t {
      SharedBarAgrees(b1, b2, s1, s2, c1, i);
    }
  }

  /** The later window still covers an earlier zone: its bar with the bars before it, and an ATR at its confirmation. */
  ghost predicate Covers(window: seq<ClosedCandle>, zone: Zone, lookback: nat) {
    Inside(zone.formedAt, window, lookback) && SizedIn(zone.confirmedAt, window)
  }

  lemma WindowNotRepaintedIff(b1: seq<ClosedCandle>, b2: seq<ClosedCandle>, s1: nat, s2: nat, c1: int, c2: int,
                              config: Config, tick: Option<Grid.GridStep>)
    requires config.Valid() && KnownAt(b1, b2, c1) && Ordered(b2) && c1 <= c2 && s1 <= s2 <= |b2| && s1 <= |b1|
    requires ZonesFromHistory(b1[s1..], c1, config, tick).Ok? && ZonesFromHistory(b2[s2..], c2, config, tick).Ok?
    ensures var earlier, later := ZonesFromHistory(b1[s1..], c1, config, tick).value,
                                  ZonesFromHistory(b2[s2..], c2, config, tick).value;
            && (forall z :: z in earlier ==>
                  ((exists w :: w in later && Survives(z, w))
                   <==> Covers(b2[s2..], z, config.swingLookback) && SameWarmAtr(b1[s1..], b2[s2..])))
            && (forall w :: w in later && w.confirmedAt <= c1 ==>
                  ((exists z :: z in earlier && Survives(z, w)) <==> SameWarmAtr(b1[s1..], b2[s2..])))
  {
    assert b1 <= b2;
    hide ZonesFromHistory, AtrAt, KnownAt, Ordered, Survives, Inside, SizedIn, SameWarmAtr;
    var h1, h2 := b1[s1..], b2[s2..];
    WindowsAreOrdered(b1, b2, s1, s2);
    var earlier, later := ZonesFromHistory(h1, c1, config, tick).value, ZonesFromHistory(h2, c2, config, tick).value;
    forall z | z in earlier
      ensures (exists w :: w in later && Survives(z, w))
         <==> Covers(h2, z, config.swingLookback) && SameWarmAtr(h1, h2)
    {
      WindowZoneSurvivesIff(b1, b2, s1, s2, c1, c2, config, tick, z);
      ZoneCarriesItsAtr(h1, c1, config, tick, z);
      AgreementMeaning(b1, b2, s1, s2, c1, z.confirmedAt, z.formationAtr);
    }
    forall w | w in later && w.confirmedAt <= c1
      ensures (exists z :: z in earlier && Survives(z, w)) <==> SameWarmAtr(h1, h2)
    {
      WindowZoneKeptIff(b1, b2, s1, s2, c1, c2, config, tick, w);
      ZoneCarriesItsAtr(h2, c2, config, tick, w);
      AgreementMeaning(b1, b2, s1, s2, c1, w.confirmedAt, w.formationAtr);
    }
  }

  /** The kept window of a built history. */
  function Kept(candles: seq<Candle>, cutoff: int, config: Config): seq<ClosedCandle>
    requires config.Valid()
  {
    Newest(ClosedBars(candles, H4, cutoff), Some(config.historyBars))
  }

  lemma BuildUsesKept(candles: seq<Candle>, cutoff: int, config: Config, tick: Option<real>)
    requires BuildZones(candles, cutoff, config, tick).Ok?
    ensures config.Valid() && !BadTick(tick) && Increasing(candles)
    ensures H4History(candles, cutoff, config) == Ok(Kept(candles, cutoff, config))
    ensures BuildZones(candles, cutoff, config, tick)
         == ZonesFromHistory(Kept(candles, cutoff, config), cutoff, config, TickStep(tick))
  {
    hide ZonesFromHistory, ClosedBars, FirstFault, Newest;
  }

  lemma NewestIsASuffix(b1: seq<ClosedCandle>, b2: seq<ClosedCandle>, cap: int) returns (s1: nat, s2: nat)
    requires cap > 0 && b1 <= b2
    ensures s1 <= |b1| && s1 <= s2 <= |b2| && Newest(b1, Some(cap)) == b1[s1..] && Newest(b2, Some(cap)) == b2[s2..]
  {
    s1 := if |b1| <= cap then 0 else |b1| - cap;
    s2 := if |b2| <= cap then 0 else |b2| - cap;
  }

  /**
   With or without the cap: a swing confirmed by the earlier cutoff is found later exactly if it was found earlier
   and the later window still holds its bars, with the same id, role, level and times.
   */
  lemma CapKeepsSwings(candles: seq<Candle>, c1: int, c2: int, config: Config, swing: Swing)
    requires config.Valid() && Increasing(candles) && c1 <= c2 && swing.confirmedAt <= c1
    ensures swing in SwingPoints(Kept(candles, c2, config), config.swingLookback, c2)
       <==> swing in SwingPoints(Kept(candles, c1, config), config.swingLookback, c1)
            && Inside(swing.formedAt, Kept(candles, c2, config), config.swingLookback)
  {
    var b1, b2 := ClosedBars(candles, H4, c1), ClosedBars(candles, H4, c2);
    CutoffOnlyAppends(candles, H4, c1, c2);
    ClosedBarsAreOrdered(candles, H4, c2);
    var s1, s2 := NewestIsASuffix(b1, b2, config.historyBars);
    hide SwingPoints, KnownAt, Ordered, Newest, ClosedBars, Inside;
    WindowSwingsIff(swing, b1, b2, s1, s2, config.swingLookback, c1, c2);
  }

  /** What the cap leaves two builds in common: one ATR of one bar. */
  predicate SameSizing(candles: seq<Candle>, c1: int, c2: int, config: Config)
    requires config.Valid()
  {
    SameWarmAtr(Kept(candles, c1, config), Kept(candles, c2, config))
  }

  /**
   With or without the cap, all or none: an earlier zone is found later, the same but for its status and not revived,
   exactly if the later window covers it and both windows give its first sized bar the same ATR; a later zone
   confirmed by the earlier cutoff was there before exactly if they do.
   */
  lemma ZonesKeptIffSizingAgrees(candles: seq<Candle>, c1: int, c2: int, config: Config, tick: Option<real>)
    requires c1 <= c2 && BuildZones(candles, c1, config, tick).Ok? && BuildZones(candles, c2, config, tick).Ok?
    ensures config.Valid()
    ensures var earlier, later := BuildZones(candles, c1, config, tick).value, BuildZones(candles, c2, config, tick).value;
            var window := Kept(candles, c2, config);
            && (forall z :: z in earlier ==>
                  ((exists w :: w in later && Survives(z, w))
                   <==> Covers(window, z, config.swingLookback) && SameSizing(candles, c1, c2, config)))
            && (forall w :: w in later && w.confirmedAt <= c1 ==>
                  ((exists z :: z in earlier && Survives(z, w)) <==> SameSizing(candles, c1, c2, config)))
  {
    BuildUsesKept(candles, c1, config, tick);
    BuildUsesKept(candles, c2, config, tick);
    var b1, b2 := ClosedBars(candles, H4, c1), ClosedBars(candles, H4, c2);
    CutoffOnlyAppends(candles, H4, c1, c2);
    ClosedBarsAreOrdered(candles, H4, c2);
    assert b1 <= b2;
    var s1, s2 := NewestIsASuffix(b1, b2, config.historyBars);
    hide ZonesFromHistory, BuildZones, KnownAt, Ordered, Newest, ClosedBars, SameWarmAtr, Survives, Covers;
    WindowNotRepaintedIff(b1, b2, s1, s2, c1, c2, config, TickStep(tick));
  }

  /**
   No repainting, exactly: every earlier zone is still covered, and the two windows agree on the sizing ATR unless
   there is no zone for it to size.
   */
  lemma NotRepaintedIff(candles: seq<Candle>, c1: int, c2: int, config: Config, tick: Option<real>)
    requires c1 <= c2 && BuildZones(candles, c1, config, tick).Ok? && BuildZones(candles, c2, config, tick).Ok?
    ensures config.Valid()
    ensures var earlier, later := BuildZones(candles, c1, config, tick).value, BuildZones(candles, c2, config, tick).value;
            NotRepainted(earlier, later, c1) <==>
              && (forall z :: z in earlier ==> Covers(Kept(candles, c2, config), z, config.swingLookback))
              && (SameSizing(candles, c1, c2, config)
                  || (earlier == [] && forall w :: w in later ==> w.confirmedAt > c1))
  {
    hide BuildZones, Survives, Covers, SameSizing, Kept;
    ZonesKeptIffSizingAgrees(candles, c1, c2, config, tick);
    var earlier := BuildZones(candles, c1, config, tick).value;
    if earlier != [] {
      assert earlier[0] in earlier;
    }
  }
}

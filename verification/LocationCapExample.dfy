/**
 A repainted zone.  Sixty-one four-hour bars, a cap of sixty, and a first bar with a wide range: once that bar
 falls out of the window, the ATR that sizes the only zone changes, and so does the zone.
 */
module LocationCapExample {
  import opened Common
  import opened Candles
  import opened LocationModel
  import opened LocationCausality
  import opened LocationRepainting
  import opened LocationSwings
  import opened LocationBarCap
  import Indicators
  import LocationDedupe
  import LocationZones

  const CAP_60 := Config(2, 60, 0.15, 1.0, 2, 0.10, 120, 1.0, 1.0, 0.5)
  const HOURS_4 := 14400

  /** When the window that starts at bar `first` ends: the first cutoff and, one bar later, the second. */
  function Cutoff(first: nat): int {
    (60 + first) * HOURS_4
  }

  /** Flat bars of range 1, but for a wide first bar and a peak at bar 30. */
  function Bar(i: nat): Candle {
    Candle(i * HOURS_4, 100.5, HighOf(i), LowOf(i), 100.5, 1.0)
  }

  function HighOf(i: nat): real {
    if i == 0 then 201.0 else if i == 30 then 101.25 else 101.0
  }

  function LowOf(i: nat): real {
    if i == 30 then 100.25 else 100.0
  }

  function Bars(n: nat): (r: seq<Candle>)
    ensures |r| == n
  {
    seq(n, i requires 0 <= i < n => Bar(i))
  }

  function Window(first: nat, n: nat): (r: seq<ClosedCandle>)
    ensures |r| == n
  {
    seq(n, i requires 0 <= i < n => Closed(Bar(first + i), H4))
  }

  lemma WindowAt(first: nat, n: nat, i: nat)
    requires i < n
    ensures var bar := Window(first, n)[i];
            && bar.candle == Bar(first + i) && bar.openTime == (first + i) * HOURS_4
            && bar.closedAt == (first + i + 1) * HOURS_4
  {
    assert Window(first, n)[i] == Closed(Bar(first + i), H4);
  }

  lemma {:induction false} ClosedOfBars(n: nat, closed: nat)
    ensures ClosedBars(Bars(n), H4, closed * HOURS_4) == Window(0, if n < closed then n else closed)
  {
    if n > 0 {
      assert Bars(n)[..n - 1] == Bars(n - 1);
      ClosedOfBars(n - 1, closed);
      assert Closed(Bar(n - 1), H4).closedAt == n * HOURS_4;
      if n <= closed {
        assert Window(0, n) == Window(0, n - 1) + [Closed(Bar(n - 1), H4)];
      }
    }
  }

  lemma {:induction false} BarsAreFaultless(first: nat, n: nat, k: nat)
    requires k <= n
    ensures FirstFault(Window(first, n), k).None?
  {
    if k > 0 {
      BarsAreFaultless(first, n, k - 1);
      WindowAt(first, n, k - 1);
    }
  }

  lemma WindowIsOrdered(first: nat, n: nat)
    ensures Ordered(Window(first, n))
  {
    var w := Window(first, n);
    forall i, j | 0 <= i < j < |w|
      ensures w[i].closedAt < w[j].closedAt && w[i].openTime < w[j].openTime
    {
      WindowAt(first, n, i);
      WindowAt(first, n, j);
    }
    forall i | 0 <= i < |w|
      ensures w[i].openTime < w[i].closedAt
    {
      WindowAt(first, n, i);
    }
  }

  lemma Histories()
    ensures H4History(Bars(61), Cutoff(0), CAP_60) == Ok(Window(0, 60))
    ensures H4History(Bars(61), Cutoff(1), CAP_60) == Ok(Window(1, 60))
    ensures |ClosedBars(Bars(61), H4, Cutoff(1))| == 61
  {
    ClosedOfBars(61, 60);
    ClosedOfBars(61, 61);
    BarsAreFaultless(0, 60, 60);
    BarsAreFaultless(1, 60, 60);
    assert Window(0, 61)[1..] == Window(1, 60);
    assert Increasing(Bars(61));
    hide ClosedBars, FirstFault, Window, Bars;
  }

  // ---------- the ATR at the confirmation bar ----------

  function Ranges(first: nat): (r: seq<real>)
    ensures |r| == 60
  {
    var w := Window(first, 60);
    Indicators.TrueRanges(Highs(w), Lows(w), Closes(w))
  }

  lemma RangesAre(first: nat, k: nat)
    requires first <= 1 && k < 60
    ensures Ranges(first)[k] == if first == 0 && k == 0 then 101.0 else 1.0
  {
    WindowAt(first, 60, k);
    if k > 0 {
      WindowAt(first, 60, k - 1);
    }
    var w := Window(first, 60);
    assert Ranges(first)[k] == Indicators.TrueRange(Highs(w), Lows(w), Closes(w), k);
    hide Window;
  }

  lemma AtrIs(first: nat, k: nat)
    requires k < 60
    ensures AtrValues(Window(first, 60))[k]
         == if k + 1 < ATR_PERIOD then None else Some(Indicators.WilderAt(Ranges(first), ATR_PERIOD, k + 1))
  {
    hide Indicators.WilderAt, Indicators.TrueRange;
  }

  /** Above one while the wide bar is remembered: an average of ones and a value above one stays above one. */
  lemma {:induction false} WideBarIsRemembered(n: nat)
    requires ATR_PERIOD <= n <= 60
    ensures Indicators.WilderAt(Ranges(0), ATR_PERIOD, n) > 1.0
    decreases n
  {
    hide Ranges;
    if n == ATR_PERIOD {
      SumOfFirst(ATR_PERIOD);
    } else {
      WideBarIsRemembered(n - 1);
      RangesAre(0, n - 1);
      AverageAboveOne(Indicators.WilderAt(Ranges(0), ATR_PERIOD, n - 1));
    }
  }

  lemma {:induction false} SumOfFirst(n: nat)
    requires 1 <= n <= 60
    ensures Indicators.Sum(Ranges(0)[..n]) == 100.0 + n as real
  {
    hide Ranges;
    RangesAre(0, n - 1);
    var first := Ranges(0)[..n];
    if n == 1 {
      assert first[..0] == [];
      assert Indicators.Sum(first[..0]) == 0.0;
    } else {
      assert first[..n - 1] == Ranges(0)[..n - 1];
      SumOfFirst(n - 1);
    }
  }

  lemma AverageAboveOne(current: real)
    requires current > 1.0
    ensures Indicators.NextAverage(current, 1.0, ATR_PERIOD) > 1.0
  {
  }

  lemma AtrWithin(first: nat, n: nat)
    requires first <= 1 && ATR_PERIOD <= n <= 60
    ensures 1.0 <= Indicators.WilderAt(Ranges(first), ATR_PERIOD, n) <= 101.0
    ensures first == 1 ==> Indicators.WilderAt(Ranges(first), ATR_PERIOD, n) == 1.0
  {
    hide Ranges;
    forall k | 0 <= k < n
      ensures 1.0 <= Ranges(first)[k] <= if first == 1 then 1.0 else 101.0
    {
      RangesAre(first, k);
    }
    Indicators.WilderIsBounded(Ranges(first), ATR_PERIOD, n, 1.0, if first == 1 then 1.0 else 101.0);
  }

  // ---------- the swing and its zone ----------

  const PEAK := Swing(ZoneId(Resistance, 30 * HOURS_4), Resistance, 101.25, 30 * HOURS_4, 33 * HOURS_4)

  lemma PeakIsFound(first: nat)
    requires first <= 1
    ensures PEAK in SwingPoints(Window(first, 60), 2, Cutoff(first))
  {
    var w := Window(first, 60);
    SwingPointsMeaning(w, 2, Cutoff(first), PEAK);
    forall j | 28 - first <= j <= 32 - first
      ensures w[j].candle == Bar(first + j)
    {
      WindowAt(first, 60, j);
    }
    WindowAt(first, 60, 30 - first);
    WindowAt(first, 60, 32 - first);
    hide SwingPoints, Window;
    assert StandsOut(Resistance, w, 2, 30 - first);
    assert SwingOf(PEAK, w, 2, Cutoff(first), 30 - first);
  }

  /** The ATR at the peak's confirmation: above one with the wide bar in the window, one without. */
  lemma PeakAtr(first: nat) returns (atr: real)
    requires first <= 1
    ensures AtrAt(Window(first, 60), PEAK.confirmedAt) == Some(atr) && 1.0 <= atr <= 101.0
    ensures if first == 0 then atr > 1.0 else atr == 1.0
  {
    var w := Window(first, 60);
    WindowIsOrdered(first, 60);
    IndexMeaning(w, 32 - first);
    WindowAt(first, 60, 32 - first);
    AtrIs(first, 32 - first);
    AtrWithin(first, 33 - first);
    if first == 0 {
      WideBarIsRemembered(33);
    }
    hide ConfirmationIndex, AtrValues, Window, Ranges;
    atr := Indicators.WilderAt(Ranges(first), ATR_PERIOD, 33 - first);
  }

  /** No zone comes near price zero: levels are at least 100 and half widths at most 0.15 times 101. */
  lemma NothingReachesZero(first: nat, swing: Swing)
    requires first <= 1 && swing in SwingPoints(Window(first, 60), 2, Cutoff(first))
    ensures var w := Window(first, 60);
            !ReachesZero(swing, FormationAtr(swing, ConfirmationIndex(w), AtrValues(w)), CAP_60, None)
  {
    var w := Window(first, 60);
    SwingPointsMeaning(w, 2, Cutoff(first), swing);
    hide SwingPoints, StandsOut, Window, Ranges;
    var i :| 2 <= i && i + 2 < |w| && SwingOf(swing, w, 2, Cutoff(first), i);
    WindowAt(first, 60, i);
    assert swing.level >= 100.0;
    WindowIsOrdered(first, 60);
    IndexMeaning(w, i + 2);
    AtrIs(first, i + 2);
    if i + 3 >= ATR_PERIOD {
      AtrWithin(first, i + 3);
    }
    hide ConfirmationIndex, AtrValues, Window, Ranges, Indicators.WilderAt;
  }

  /** The build from the window that starts at bar `first`. */
  function Build(first: nat): Result<seq<Zone>, LocationError> {
    ZonesFromHistory(Window(first, 60), Cutoff(first), CAP_60, None)
  }

  lemma BuildSucceeds(first: nat)
    requires first <= 1
    ensures Build(first).Ok?
  {
    var w := Window(first, 60);
    WindowIsOrdered(first, 60);
    hide Window, ZonesFromHistory, SwingPoints, ReachesZero, FormationAtr, ConfirmationIndex, AtrValues, Ordered;
    BuildFailsOnlyAtZero(w, Cutoff(first), CAP_60, None);
    forall swing | swing in SwingPoints(w, 2, Cutoff(first))
      ensures !ReachesZero(swing, FormationAtr(swing, ConfirmationIndex(w), AtrValues(w)), CAP_60, None)
    {
      NothingReachesZero(first, swing);
    }
  }

  lemma PeakMakesAZone(atr: real) returns (raw: Zone)
    requires 1.0 <= atr <= 101.0
    ensures Makes(PEAK, Some(atr), raw, CAP_60, None)
    ensures raw.id == PEAK.id && raw.confirmedAt == PEAK.confirmedAt && raw.formationAtr == atr
  {
    LocationZones.UntickedWidthIsAConfigQuestion(PEAK, atr, CAP_60);
    raw := SizedZone(PEAK, Some(atr), CAP_60, None).zone;
  }

  /** The zone of the peak in each build, with the ATR that sized it. */
  lemma PeakZone(first: nat) returns (zone: Zone)
    requires first <= 1
    ensures Build(first).Ok?
    ensures zone in Build(first).value
    ensures zone.id == PEAK.id && zone.confirmedAt == PEAK.confirmedAt
    ensures if first == 0 then zone.formationAtr > 1.0 else zone.formationAtr == 1.0
  {
    hide Window, ZonesFromHistory, SwingPoints, Makes, AtrAt, Ordered, StatusFor, ClosesSince, Cutoff;
    var w := Window(first, 60);
    WindowIsOrdered(first, 60);
    PeakIsFound(first);
    BuildSucceeds(first);
    var atr := PeakAtr(first);
    var raw := PeakMakesAZone(atr);
    zone := Aged(raw, w, CAP_60);
    assert Originates(PEAK, raw, zone, w, Cutoff(first), CAP_60, None);
    ZonesOriginate(w, Cutoff(first), CAP_60, None, zone);
  }

  lemma Builds()
    ensures BuildZones(Bars(61), Cutoff(0), CAP_60, None) == Build(0)
    ensures BuildZones(Bars(61), Cutoff(1), CAP_60, None) == Build(1)
  {
    hide ZonesFromHistory, H4History, Window, Bars, Cutoff;
    Histories();
  }

  lemma LaterIdsAreDistinct()
    requires Build(1).Ok?
    ensures LocationDedupe.DistinctIds(Build(1).value)
  {
    WindowIsOrdered(1, 60);
    hide Window, ZonesFromHistory, Ordered, Cutoff;
    BuiltZonesAreSound(Window(1, 60), Cutoff(1), CAP_60, None);
  }

  lemma PeakZoneIsRepainted(earlier: seq<Zone>, later: seq<Zone>, before: Zone, after: Zone, c1: int)
    requires before in earlier && after in later && LocationDedupe.DistinctIds(later)
    requires before.id == after.id && before.formationAtr != after.formationAtr
    ensures !NotRepainted(earlier, later, c1)
  {
    hide Survives;
    forall w | w in later
      ensures !Survives(before, w)
    {
      if w != after {
        OtherZoneOtherId(later, w, after);
      }
      NotTheSame(before, after, w);
    }
  }

  /** One bar over the cap is enough to repaint: both builds succeed, and the later one has resized the zone. */
  lemma CapCanRepaint()
    ensures |ClosedBars(Bars(61), H4, Cutoff(1))| == 61 && CAP_60.historyBars == 60
    ensures BuildZones(Bars(61), Cutoff(0), CAP_60, None).Ok? && BuildZones(Bars(61), Cutoff(1), CAP_60, None).Ok?
    ensures !NotRepainted(BuildZones(Bars(61), Cutoff(0), CAP_60, None).value,
                          BuildZones(Bars(61), Cutoff(1), CAP_60, None).value, Cutoff(0))
  {
    hide Bars, BuildZones, Build, ClosedBars, NotRepainted, H4History, Window, Cutoff;
    Histories();
    Builds();
    var before := PeakZone(0);
    var after := PeakZone(1);
    LaterIdsAreDistinct();
    PeakZoneIsRepainted(Build(0).value, Build(1).value, before, after, Cutoff(0));
  }

  lemma NotTheSame(before: Zone, after: Zone, w: Zone)
    requires before.id == after.id && before.formationAtr != after.formationAtr && (w == after || w.id != after.id)
    ensures !Survives(before, w)
  {
  }

  lemma OtherZoneOtherId(zones: seq<Zone>, a: Zone, b: Zone)
    requires LocationDedupe.DistinctIds(zones) && a in zones && b in zones && a != b
    ensures a.id != b.id
  {
  }
}

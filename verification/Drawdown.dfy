/**
 The recent-drawdown ratio: keep the readable closed trades of the window, sort them by close time, and
 track equity, peak and deepest fall in one pass.  The pass is exact: it finds the largest relative fall
 between any two points of the equity curve, or total loss.
 */
module Drawdown {
  import opened Common
  import Grid
  import Sorting

  /** A journal row: not an object, or one whose close time and R result may be unreadable. */
  datatype Row = NotAnObject | Trade(closedAt: Option<int>, resultR: Option<real>)

  datatype Journal = NotAList | Rows(rows: seq<Row>)

  datatype Point = Point(closedAt: int, resultR: real)

  const DAY := 86400

  predicate Readable(row: Row) {
    row.Trade? && row.closedAt.Some?
  }

  predicate Counts(row: Row, cutoff: int) {
    Readable(row) && row.closedAt.value >= cutoff && row.resultR.Some?
  }

  /** The points of the rows that count, in input order. */
  function Window(rows: seq<Row>, cutoff: int): seq<Point> {
    if rows == [] then []
    else
      var last := rows[|rows| - 1];
      Window(rows[..|rows| - 1], cutoff)
      + if Counts(last, cutoff) then [Point(last.closedAt.value, last.resultR.value)] else []
  }

  predicate NotLater(a: Point, b: Point) {
    a.closedAt <= b.closedAt
  }

  function Chronological(rows: seq<Row>, cutoff: int): seq<Point> {
    Sorting.Sort(NotLater, Window(rows, cutoff))
  }

  // ---------- the equity curve ----------

  function Compound(equity: real, p: Point, riskFraction: real): real {
    equity * (1.0 + riskFraction * p.resultR)
  }

  /** Equity after the first `k` trades, starting from 1. */
  function Equity(points: seq<Point>, riskFraction: real, k: nat): real
    requires k <= |points|
  {
    if k == 0 then 1.0 else Compound(Equity(points, riskFraction, k - 1), points[k - 1], riskFraction)
  }

  ghost predicate Ruined(points: seq<Point>, riskFraction: real, n: nat)
    requires n <= |points|
  {
    exists k :: 0 <= k <= n && Equity(points, riskFraction, k) <= 0.0
  }

  function RelativeFall(from: real, to: real): real
    requires from != 0.0
  {
    (from - to) / from
  }

  /** `d` is the deepest relative fall of a curve that stays positive up to `n`. */
  ghost predicate DeepestFall(points: seq<Point>, riskFraction: real, n: nat, d: real)
    requires n <= |points| && !Ruined(points, riskFraction, n)
  {
    && (exists i, j :: 0 <= i <= j <= n
          && d == RelativeFall(Equity(points, riskFraction, i), Equity(points, riskFraction, j)))
    && (forall i, j :: 0 <= i <= j <= n ==>
          RelativeFall(Equity(points, riskFraction, i), Equity(points, riskFraction, j)) <= d)
  }

  /** What the ratio means: total loss once equity is gone, else the deepest relative fall. */
  ghost predicate IsDrawdown(points: seq<Point>, riskFraction: real, n: nat, d: real)
    requires n <= |points|
  {
    if Ruined(points, riskFraction, n) then d == 1.0 else DeepestFall(points, riskFraction, n, d)
  }

  // ---------- the single pass ----------

  method TrackDrawdown(points: seq<Point>, riskFraction: real) returns (ratio: real)
    ensures IsDrawdown(points, riskFraction, |points|, ratio)
    ensures 0.0 <= ratio <= 1.0
    ensures ratio == 1.0 <==> Ruined(points, riskFraction, |points|)
  {
    var equity := 1.0;
    var peak := 1.0;
    var drawdown := 0.0;
    ghost var peakAt := 0;
    NoFallYet(points, riskFraction);
    hide RelativeFall, Compound, DeepestFall;
    for k := 0 to |points|
      invariant equity == Equity(points, riskFraction, k)
      invariant !Ruined(points, riskFraction, k)
      invariant 0 <= peakAt <= k && peak == Equity(points, riskFraction, peakAt)
      invariant forall i :: 0 <= i <= k ==> Equity(points, riskFraction, i) <= peak
      invariant DeepestFall(points, riskFraction, k, drawdown) && 0.0 <= drawdown < 1.0
    {
      equity := Compound(equity, points[k], riskFraction);
      assert equity == Equity(points, riskFraction, k + 1);
      if equity <= 0.0 {
        return 1.0;
      }
      if equity > peak {
        peak := equity;
        peakAt := k + 1;
      }
      ExtendDeepestFall(points, riskFraction, k, drawdown, peakAt);
      var current := RelativeFall(peak, equity);
      if current > drawdown {
        drawdown := current;
      }
    }
    ratio := if drawdown < 0.0 then 0.0 else if drawdown > 1.0 then 1.0 else drawdown;
  }

  lemma SmallerQuotient(to: real, low: real, high: real, a: real, b: real)
    requires 0.0 < low <= high && a * low == to && b * high == to && b > 0.0
    ensures b <= a
  {
    Grid.MulMonotone(low, high, b);
    Grid.MulStrict(a, b, low);
  }

  lemma NoFallYet(points: seq<Point>, riskFraction: real)
    ensures !Ruined(points, riskFraction, 0) && DeepestFall(points, riskFraction, 0, 0.0)
  {
    assert RelativeFall(Equity(points, riskFraction, 0), Equity(points, riskFraction, 0)) == 0.0;
  }

  /** The higher the starting level, the deeper the fall to the same place. */
  lemma FallFromHigher(low: real, high: real, to: real)
    requires 0.0 < low <= high && to > 0.0
    ensures RelativeFall(low, to) <= RelativeFall(high, to) < 1.0
  {
    FallIsComplement(low, to);
    FallIsComplement(high, to);
    Grid.DivMul(to, low);
    Grid.DivMul(to, high);
    SmallerQuotient(to, low, high, to / low, to / high);
  }

  lemma FallIsComplement(from: real, to: real)
    requires from > 0.0 && to > 0.0
    ensures RelativeFall(from, to) == 1.0 - to / from
    ensures to / from > 0.0
  {
    Grid.DivMul(from - to, from);
    Grid.DivMul(to, from);
    var f := RelativeFall(from, to);
    assert f * from == from - to;
    assert (1.0 - to / from) * from == from - to;
    Grid.MulEqual(f, 1.0 - to / from, from);
  }

  /** One more positive point: the new deepest fall is the old one or the fall from the peak. */
  lemma ExtendDeepestFall(points: seq<Point>, riskFraction: real, k: nat, d: real, peakAt: nat)
    requires k < |points| && !Ruined(points, riskFraction, k) && DeepestFall(points, riskFraction, k, d)
    requires 0.0 <= d < 1.0 && Equity(points, riskFraction, k + 1) > 0.0 && peakAt <= k + 1
    requires forall i :: 0 <= i <= k + 1 ==> Equity(points, riskFraction, i) <= Equity(points, riskFraction, peakAt)
    ensures !Ruined(points, riskFraction, k + 1)
    ensures Equity(points, riskFraction, peakAt) > 0.0
    ensures var current := RelativeFall(Equity(points, riskFraction, peakAt), Equity(points, riskFraction, k + 1));
            current < 1.0 && DeepestFall(points, riskFraction, k + 1, if current > d then current else d)
  {
    var to := Equity(points, riskFraction, k + 1);
    forall i | 0 <= i <= k + 1
      ensures Equity(points, riskFraction, i) > 0.0
    {
    }
    var peak := Equity(points, riskFraction, peakAt);
    var current := RelativeFall(peak, to);
    forall i | 0 <= i <= k + 1
      ensures RelativeFall(Equity(points, riskFraction, i), to) <= current < 1.0
    {
      FallFromHigher(Equity(points, riskFraction, i), peak, to);
    }
    FallFromHigher(peak, peak, to);
  }

  // ---------- the whole computation ----------

  method ComputeRecentDrawdownRatio(journal: Journal, now: int, riskPercent: real, windowDays: int)
    returns (ratio: Option<real>)
    ensures ratio.None? <==> journal.NotAList? || exists i :: 0 <= i < |journal.rows| && !Readable(journal.rows[i])
    ensures ratio.Some? ==>
              IsRatio(journal.rows, now - windowDays * 86400, riskPercent / 100.0, ratio.value)
    ensures ratio.Some? ==> 0.0 <= ratio.value <= 1.0
  {
    hide Window, IsDrawdown, Ruined, Sorting.Sort, NotLater;
    if journal.NotAList? {
      return None;
    }
    var cutoff := now - windowDays * DAY;
    var rows := journal.rows;
    var inWindow: seq<Point> := [];
    WindowOfNothing(cutoff);
    for k := 0 to |rows|
      invariant forall i :: 0 <= i < k ==> Readable(rows[i])
      invariant inWindow == Window(rows[..k], cutoff)
    {
      assert rows[..k + 1] == rows[..k] + [rows[k]];
      WindowGrows(rows[..k], rows[k], cutoff);
      if rows[k].NotAnObject? || rows[k].closedAt.None? {
        assert !Readable(rows[k]);
        return None;
      }
      if rows[k].closedAt.value >= cutoff && rows[k].resultR.Some? {
        inWindow := inWindow + [Point(rows[k].closedAt.value, rows[k].resultR.value)];
      }
    }
    assert rows[..|rows|] == rows;
    var riskFraction := riskPercent / 100.0;
    if inWindow == [] {
      EmptyWindowRatio(rows, cutoff, riskFraction);
      return Some(0.0);
    }
    inWindow := Sorting.Sort(NotLater, inWindow);
    var tracked := TrackDrawdown(inWindow, riskFraction);
    return Some(tracked);
  }

  /** The ratio of a readable journal. */
  ghost predicate IsRatio(rows: seq<Row>, cutoff: int, riskFraction: real, ratio: real) {
    var points := Chronological(rows, cutoff);
    IsDrawdown(points, riskFraction, |points|, ratio)
  }

  /** Each trade changes equity by the risked share of it, times the trade's result. */
  lemma EquityMeaning(points: seq<Point>, riskFraction: real, k: nat)
    requires k < |points|
    ensures Equity(points, riskFraction, 0) == 1.0
    ensures Equity(points, riskFraction, k + 1) - Equity(points, riskFraction, k)
         == riskFraction * points[k].resultR * Equity(points, riskFraction, k)
  {
    var equity := Equity(points, riskFraction, k);
    assert Equity(points, riskFraction, k + 1) == Compound(equity, points[k], riskFraction);
  }

  /** On the equity curve itself, the ratio is one iff equity is ever used up. */
  lemma TotalLossOnEquity(points: seq<Point>, riskFraction: real, ratio: real)
    requires IsDrawdown(points, riskFraction, |points|, ratio)
    ensures (exists k :: 0 <= k <= |points| && Equity(points, riskFraction, k) <= 0.0) ==> ratio == 1.0
    ensures (forall k :: 0 <= k <= |points| ==> Equity(points, riskFraction, k) > 0.0) ==> ratio < 1.0
  {
    if !Ruined(points, riskFraction, |points|) {
      var i, j :| 0 <= i <= j <= |points|
        && ratio == RelativeFall(Equity(points, riskFraction, i), Equity(points, riskFraction, j));
      FallOnPrices(Equity(points, riskFraction, i), Equity(points, riskFraction, j), ratio);
    }
  }

  /** Short of that, no equity is below the rest the ratio leaves of an earlier one. */
  lemma RatioBoundsEquity(points: seq<Point>, riskFraction: real, ratio: real, i: nat, j: nat)
    requires IsDrawdown(points, riskFraction, |points|, ratio) && ratio != 1.0
    requires i <= j <= |points|
    ensures Equity(points, riskFraction, j) >= (1.0 - ratio) * Equity(points, riskFraction, i)
  {
    hide Equity, RelativeFall;
    var from, to := Equity(points, riskFraction, i), Equity(points, riskFraction, j);
    assert from > 0.0 && to > 0.0;
    FallOnPrices(from, to, ratio);
  }

  /** And one equity is exactly that rest of an earlier one, so no smaller ratio would do. */
  lemma RatioIsReached(points: seq<Point>, riskFraction: real, ratio: real) returns (i: nat, j: nat)
    requires IsDrawdown(points, riskFraction, |points|, ratio) && ratio != 1.0
    ensures i <= j <= |points|
    ensures Equity(points, riskFraction, j) == (1.0 - ratio) * Equity(points, riskFraction, i)
  {
    hide Equity, RelativeFall;
    i, j :| 0 <= i <= j <= |points|
      && ratio == RelativeFall(Equity(points, riskFraction, i), Equity(points, riskFraction, j));
    FallOnPrices(Equity(points, riskFraction, i), Equity(points, riskFraction, j), ratio);
  }

  lemma FallOnPrices(from: real, to: real, ratio: real)
    requires from > 0.0 && to > 0.0
    ensures RelativeFall(from, to) < 1.0 && to == (1.0 - RelativeFall(from, to)) * from
    ensures RelativeFall(from, to) <= ratio ==> to >= (1.0 - ratio) * from
  {
    FallIsComplement(from, to);
    Grid.DivMul(to, from);
    if RelativeFall(from, to) <= ratio {
      Grid.MulMonotone(1.0 - ratio, to / from, from);
    }
  }

  lemma EmptyWindowRatio(rows: seq<Row>, cutoff: int, riskFraction: real)
    requires Window(rows, cutoff) == []
    ensures IsRatio(rows, cutoff, riskFraction, 0.0)
  {
    NoFallYet(Chronological(rows, cutoff), riskFraction);
  }

  /** The meaning fixes the number. */
  lemma DrawdownIsUnique(points: seq<Point>, riskFraction: real, n: nat, a: real, b: real)
    requires n <= |points| && IsDrawdown(points, riskFraction, n, a) && IsDrawdown(points, riskFraction, n, b)
    ensures a == b
  {
  }

  lemma {:induction false} EquityOfPrefix(points: seq<Point>, more: seq<Point>, riskFraction: real, k: nat)
    requires k <= |points|
    ensures Equity(points + more, riskFraction, k) == Equity(points, riskFraction, k)
  {
    if k > 0 {
      EquityOfPrefix(points, more, riskFraction, k - 1);
    }
  }

  /** A longer curve falls at least as deep. */
  lemma LongerFallsDeeper(points: seq<Point>, p: Point, riskFraction: real, a: real, b: real)
    requires IsDrawdown(points, riskFraction, |points|, a)
    requires IsDrawdown(points + [p], riskFraction, |points| + 1, b) && b <= 1.0
    ensures a <= 1.0 ==> a <= b
  {
    var longer := points + [p];
    forall k | 0 <= k <= |points|
      ensures Equity(longer, riskFraction, k) == Equity(points, riskFraction, k)
    {
      EquityOfPrefix(points, [p], riskFraction, k);
    }
    if !Ruined(longer, riskFraction, |longer|) {
      forall k | 0 <= k <= |points|
        ensures Equity(points, riskFraction, k) > 0.0
      {
        assert Equity(longer, riskFraction, k) > 0.0;
      }
      var i, j :| 0 <= i <= j <= |points|
        && a == RelativeFall(Equity(points, riskFraction, i), Equity(points, riskFraction, j));
      assert a == RelativeFall(Equity(longer, riskFraction, i), Equity(longer, riskFraction, j));
    }
  }

  /** With one more trade that is the latest, the curve gets one more point. */
  lemma LatestTradeComesLast(rows: seq<Row>, row: Row, cutoff: int)
    requires Counts(row, cutoff)
    requires forall i :: 0 <= i < |rows| && Counts(rows[i], cutoff) ==> rows[i].closedAt.value <= row.closedAt.value
    ensures Chronological(rows + [row], cutoff)
         == Chronological(rows, cutoff) + [Point(row.closedAt.value, row.resultR.value)]
  {
    hide Window, Sorting.Sort;
    WindowGrows(rows, row, cutoff);
    WindowComesFromRows(rows, cutoff);
    var points := Window(rows, cutoff);
    forall i | 0 <= i < |points|
      ensures points[i].closedAt <= row.closedAt.value
    {
      var j :| 0 <= j < |rows| && rows[j] == Trade(Some(points[i].closedAt), Some(points[i].resultR));
      assert Counts(rows[j], cutoff);
    }
    Sorting.SortAppendsGreatest(NotLater, points, Point(row.closedAt.value, row.resultR.value));
  }

  lemma UncountedTradeChangesNothing(rows: seq<Row>, row: Row, cutoff: int)
    requires !Counts(row, cutoff)
    ensures Chronological(rows + [row], cutoff) == Chronological(rows, cutoff)
  {
    hide Window, Sorting.Sort;
    WindowGrows(rows, row, cutoff);
    assert Window(rows + [row], cutoff) == Window(rows, cutoff);
  }

  /** Closing one more trade, no earlier than those in the window, never lowers the ratio. */
  lemma LaterTradeNeverLowers(rows: seq<Row>, row: Row, cutoff: int, riskFraction: real, before: real, after: real)
    requires Readable(row)
    requires forall i :: 0 <= i < |rows| && Counts(rows[i], cutoff) ==> rows[i].closedAt.value <= row.closedAt.value
    requires IsRatio(rows, cutoff, riskFraction, before) && 0.0 <= before <= 1.0
    requires IsRatio(rows + [row], cutoff, riskFraction, after) && 0.0 <= after <= 1.0
    ensures before <= after
  {
    hide Chronological, IsDrawdown;
    var points := Chronological(rows, cutoff);
    if Counts(row, cutoff) {
      LatestTradeComesLast(rows, row, cutoff);
      LongerFallsDeeper(points, Point(row.closedAt.value, row.resultR.value), riskFraction, before, after);
    } else {
      UncountedTradeChangesNothing(rows, row, cutoff);
      DrawdownIsUnique(points, riskFraction, |points|, before, after);
    }
  }

  lemma {:induction false} WindowComesFromRows(rows: seq<Row>, cutoff: int)
    ensures forall i :: 0 <= i < |Window(rows, cutoff)| ==>
              var p := Window(rows, cutoff)[i];
              p.closedAt >= cutoff && Trade(Some(p.closedAt), Some(p.resultR)) in rows
    decreases |rows|
  {
    if rows != [] {
      WindowComesFromRows(rows[..|rows| - 1], cutoff);
      assert rows == rows[..|rows| - 1] + [rows[|rows| - 1]];
    }
  }

  function RowOf(p: Point): Row {
    Trade(Some(p.closedAt), Some(p.resultR))
  }

  lemma {:induction false} WindowCounts(rows: seq<Row>, cutoff: int, p: Point)
    ensures multiset(Window(rows, cutoff))[p] == if p.closedAt >= cutoff then multiset(rows)[RowOf(p)] else 0
    decreases |rows|
  {
    if rows != [] {
      var last := rows[|rows| - 1];
      WindowCounts(rows[..|rows| - 1], cutoff, p);
      assert rows == rows[..|rows| - 1] + [last];
      assert Counts(last, cutoff) && Point(last.closedAt.value, last.resultR.value) == p
          <==> p.closedAt >= cutoff && last == RowOf(p);
    }
  }

  /** With distinct close times in the window, the order of the journal does not matter. */
  lemma RatioIgnoresInputOrder(a: seq<Row>, b: seq<Row>, cutoff: int, riskFraction: real, ratio: real)
    requires multiset(a) == multiset(b) && Sorting.DistinctBy(NotLater, Window(a, cutoff))
    ensures IsRatio(a, cutoff, riskFraction, ratio) <==> IsRatio(b, cutoff, riskFraction, ratio)
  {
    forall p
      ensures multiset(Window(a, cutoff))[p] == multiset(Window(b, cutoff))[p]
    {
      WindowCounts(a, cutoff, p);
      WindowCounts(b, cutoff, p);
    }
    assert multiset(Window(a, cutoff)) == multiset(Window(b, cutoff));
    Sorting.SortIgnoresOrder(NotLater, Window(a, cutoff), Window(b, cutoff));
  }

  function ThreeTrades(first: real, second: real): seq<Row> {
    [Trade(Some(0), Some(-1.0)), Trade(Some(1), Some(first)), Trade(Some(1), Some(second))]
  }

  function ThreePoints(first: real, second: real): seq<Point> {
    [Point(0, -1.0), Point(1, first), Point(1, second)]
  }

  lemma WindowOfNothing(cutoff: int)
    ensures Window([], cutoff) == []
  {
  }

  lemma ThreeTradesWindow(first: real, second: real)
    ensures Window(ThreeTrades(first, second), 0) == ThreePoints(first, second)
  {
    hide Window;
    var rows := ThreeTrades(first, second);
    WindowOfNothing(0);
    WindowGrows([], rows[0], 0);
    WindowGrows([] + [rows[0]], rows[1], 0);
    WindowGrows([] + [rows[0]] + [rows[1]], rows[2], 0);
    assert [] + [rows[0]] + [rows[1]] + [rows[2]] == rows;
  }

  lemma ThreeTradesCurve(first: real, second: real)
    ensures Chronological(ThreeTrades(first, second), 0) == ThreePoints(first, second)
  {
    hide Window;
    ThreeTradesWindow(first, second);
    assert Sorting.SortedBy(NotLater, ThreePoints(first, second));
    Sorting.SortFixesSorted(NotLater, ThreePoints(first, second));
  }

  lemma WindowGrows(rows: seq<Row>, row: Row, cutoff: int)
    ensures Window(rows + [row], cutoff)
         == Window(rows, cutoff) + if Counts(row, cutoff) then [Point(row.closedAt.value, row.resultR.value)] else []
  {
    assert (rows + [row])[..|rows|] == rows;
  }

  lemma ThreePointsEquity(first: real, second: real)
    ensures var points := ThreePoints(first, second);
            && Equity(points, 0.5, 0) == 1.0 && Equity(points, 0.5, 1) == 0.5
            && Equity(points, 0.5, 2) == 0.5 * (1.0 + 0.5 * first)
            && Equity(points, 0.5, 3) == 0.5 * (1.0 + 0.5 * first) * (1.0 + 0.5 * second)
  {
    var points := ThreePoints(first, second);
    assert Equity(points, 0.5, 1) == Compound(Equity(points, 0.5, 0), points[0], 0.5);
    assert Equity(points, 0.5, 2) == Compound(Equity(points, 0.5, 1), points[1], 0.5);
    assert Equity(points, 0.5, 3) == Compound(Equity(points, 0.5, 2), points[2], 0.5);
  }

  lemma ThreeTradesRatio(first: real, second: real, lowest: nat)
    requires lowest <= 3
    requires forall k :: 0 <= k <= 3 ==>
      0.0 < Equity(ThreePoints(first, second), 0.5, lowest) <= Equity(ThreePoints(first, second), 0.5, k) <= 1.0
    ensures IsRatio(ThreeTrades(first, second), 0, 0.5, 1.0 - Equity(ThreePoints(first, second), 0.5, lowest))
  {
    hide Chronological, Equity, IsDrawdown, ThreeTrades;
    ThreeTradesCurve(first, second);
    DeepestOfThree(ThreePoints(first, second), lowest);
  }

  lemma WinThenLoss()
    ensures IsRatio(ThreeTrades(1.0, -1.0), 0, 0.5, 0.625)
  {
    hide Equity, IsRatio, ThreePoints, ThreeTrades;
    ThreePointsEquity(1.0, -1.0);
    ThreeTradesRatio(1.0, -1.0, 3);
  }

  lemma LossThenWin()
    ensures IsRatio(ThreeTrades(-1.0, 1.0), 0, 0.5, 0.75)
  {
    hide Equity, IsRatio, ThreePoints, ThreeTrades;
    ThreePointsEquity(-1.0, 1.0);
    ThreeTradesRatio(-1.0, 1.0, 2);
  }

  /** Distinct times are needed: after a loss, the order of a tied win and loss changes the ratio. */
  lemma TiesFollowInputOrder()
    ensures multiset(ThreeTrades(1.0, -1.0)) == multiset(ThreeTrades(-1.0, 1.0))
    ensures IsRatio(ThreeTrades(1.0, -1.0), 0, 0.5, 0.625)
    ensures IsRatio(ThreeTrades(-1.0, 1.0), 0, 0.5, 0.75)
  {
    hide IsRatio;
    WinThenLoss();
    LossThenWin();
  }

  /** A curve that starts at its peak falls deepest where it is lowest. */
  lemma DeepestOfThree(points: seq<Point>, lowest: nat)
    requires |points| == 3 && lowest <= 3
    requires forall k :: 0 <= k <= 3 ==> 0.0 < Equity(points, 0.5, lowest) <= Equity(points, 0.5, k) <= 1.0
    ensures IsDrawdown(points, 0.5, 3, 1.0 - Equity(points, 0.5, lowest))
  {
    var low := Equity(points, 0.5, lowest);
    FallsFromOneOrLess(points, low);
    assert RelativeFall(Equity(points, 0.5, 0), Equity(points, 0.5, lowest)) == 1.0 - low;
  }

  lemma FallsFromOneOrLess(points: seq<Point>, low: real)
    requires |points| == 3 && low > 0.0
    requires forall k :: 0 <= k <= 3 ==> low <= Equity(points, 0.5, k) <= 1.0
    ensures forall i, j :: 0 <= i <= j <= 3 ==>
              Equity(points, 0.5, i) != 0.0
              && RelativeFall(Equity(points, 0.5, i), Equity(points, 0.5, j)) <= 1.0 - low
  {
    forall i, j | 0 <= i <= j <= 3
      ensures RelativeFall(Equity(points, 0.5, i), Equity(points, 0.5, j)) <= 1.0 - low
    {
      FallFromHigher(Equity(points, 0.5, i), 1.0, Equity(points, 0.5, j));
    }
  }
}

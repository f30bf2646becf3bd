/**
 Price grids.  A grid of step `s` is the set of all integer multiples of `s`; a price is moved onto a
 grid by rounding the number of steps it contains down or up, as Decimal's ROUND_FLOOR and
 ROUND_CEILING do.
 */
module Grid {

  type GridStep = s: real | s > 0.0 witness 1.0

  function Multiple(k: int, step: real): real {
    k as real * step
  }

  ghost predicate OnGrid(x: real, step: real) {
    exists k: int :: x == Multiple(k, step)
  }

  /** `fine` divides `coarse`: every point of the coarse grid is a point of the fine one. */
  ghost predicate Divides(fine: real, coarse: real) {
    OnGrid(coarse, fine)
  }

  function Ceiling(u: real): int {
    -((-u).Floor)
  }

  function FloorTo(x: real, step: GridStep): real {
    Multiple((x / step).Floor, step)
  }

  function CeilTo(x: real, step: GridStep): real {
    Multiple(Ceiling(x / step), step)
  }

  /** Decimal's ROUND_HALF_UP moves ties away from zero. */
  function RoundHalfUp(u: real): int {
    if u >= 0.0 then (u + 0.5).Floor else -((0.5 - u).Floor)
  }

  function NearestTo(x: real, step: GridStep): real {
    Multiple(RoundHalfUp(x / step), step)
  }

  lemma DivMul(x: real, step: GridStep)
    ensures x / step * step == x
  {
  }

  lemma MulMonotone(a: real, b: real, step: GridStep)
    requires a <= b
    ensures a * step <= b * step
  {
  }

  lemma MulStrict(a: real, b: real, step: GridStep)
    ensures a < b <==> a * step < b * step
  {
  }

  lemma MulEqual(a: real, b: real, step: GridStep)
    requires a * step == b * step
    ensures a == b
  {
  }

  lemma MultipleOrder(a: int, b: int, step: GridStep)
    ensures a < b <==> Multiple(a, step) < Multiple(b, step)
    ensures Multiple(a + 1, step) == Multiple(a, step) + step
    ensures Multiple(-a, step) == -Multiple(a, step)
  {
    MultipleStrict(a, b, step);
    Distributes(a as real, step);
  }

  lemma MultipleStrict(a: int, b: int, step: GridStep)
    ensures a < b <==> Multiple(a, step) < Multiple(b, step)
  {
    var x, y := a as real, b as real;
    assert a < b <==> x < y;
    MulStrict(x, y, step);
  }

  lemma Distributes(a: real, step: real)
    ensures (a + 1.0) * step == a * step + step
    ensures (-a) * step == -(a * step)
  {
  }

  lemma FloorToBrackets(x: real, step: GridStep)
    ensures FloorTo(x, step) <= x < FloorTo(x, step) + step
  {
    var u := x / step;
    var n := u.Floor as real;
    DivMul(x, step);
    MulStrict(u, n, step);
    MulStrict(u, n + 1.0, step);
    assert u * step == x && n <= u < n + 1.0;
    assert x < (n + 1.0) * step;
  }

  /** The rounded price is the greatest point of the grid that does not exceed `x`. */
  lemma FloorToIsGreatest(x: real, step: GridStep)
    ensures OnGrid(FloorTo(x, step), step)
    ensures FloorTo(x, step) <= x < FloorTo(x, step) + step
    ensures forall k: int :: Multiple(k, step) <= x ==> Multiple(k, step) <= FloorTo(x, step)
  {
    FloorToBrackets(x, step);
    var n := (x / step).Floor;
    assert FloorTo(x, step) == Multiple(n, step);
    forall k: int | Multiple(k, step) <= x
      ensures Multiple(k, step) <= FloorTo(x, step)
    {
      MultipleOrder(n, k, step);
      MultipleOrder(n + 1, k, step);
    }
  }

  /** Rounding up mirrors rounding down. */
  lemma CeilToMirrorsFloorTo(x: real, step: GridStep)
    ensures CeilTo(x, step) == -FloorTo(-x, step)
  {
    DivMul(x, step);
    DivMul(-x, step);
    MulEqual(-(x / step), -x / step, step);
  }

  lemma OnGridNegates(x: real, step: GridStep)
    ensures OnGrid(x, step) <==> OnGrid(-x, step)
  {
    if OnGrid(x, step) {
      var k: int :| x == Multiple(k, step);
      assert -x == Multiple(-k, step);
    }
    if OnGrid(-x, step) {
      var k: int :| -x == Multiple(k, step);
      MultipleOrder(k, k, step);
      assert x == Multiple(-k, step);
    }
  }

  /** The rounded-up price is within one step above. */
  lemma CeilToIsLeast(x: real, step: GridStep)
    ensures OnGrid(CeilTo(x, step), step)
    ensures CeilTo(x, step) - step < x <= CeilTo(x, step)
  {
    hide FloorTo, CeilTo;
    CeilToMirrorsFloorTo(x, step);
    FloorToIsGreatest(-x, step);
    OnGridNegates(CeilTo(x, step), step);
  }

  lemma FloorToMonotone(x: real, y: real, step: GridStep)
    requires x <= y
    ensures FloorTo(x, step) <= FloorTo(y, step)
  {
    FloorToIsGreatest(x, step);
    FloorToIsGreatest(y, step);
  }

  /** Points of the grid are exactly the fixed points of rounding. */
  lemma FloorToFixesGrid(x: real, step: GridStep)
    ensures OnGrid(x, step) <==> FloorTo(x, step) == x
  {
    FloorToIsGreatest(x, step);
  }

  lemma OnGridTransitive(x: real, coarse: GridStep, fine: GridStep)
    requires OnGrid(x, coarse) && Divides(fine, coarse)
    ensures OnGrid(x, fine)
  {
    var k: int :| x == Multiple(k, coarse);
    var m: int :| coarse == Multiple(m, fine);
    assert x == Multiple(k * m, fine) by {
      assert (k * m) as real == k as real * m as real;
    }
  }

  lemma OnGridDifference(x: real, y: real, step: GridStep)
    requires OnGrid(x, step) && OnGrid(y, step)
    ensures OnGrid(x - y, step)
  {
    var a: int :| x == Multiple(a, step);
    var b: int :| y == Multiple(b, step);
    assert x - y == Multiple(a - b, step);
  }

  /** A grid point strictly between zero and one step does not exist. */
  lemma NoGridPointBelowStep(x: real, step: GridStep)
    requires 0.0 <= x < step && OnGrid(x, step)
    ensures x == 0.0
  {
    var k: int :| x == Multiple(k, step);
    MultipleOrder(k, 0, step);
    MultipleOrder(0, k, step);
    MultipleOrder(k, 1, step);
    assert Multiple(1, step) == step && Multiple(0, step) == 0.0;
  }

  // ---------- the nearest grid point ----------

  lemma RoundHalfUpMeaning(u: real, v: real)
    ensures u <= v ==> RoundHalfUp(u) <= RoundHalfUp(v)
    ensures u - 0.5 <= RoundHalfUp(u) as real <= u + 0.5
  {
  }

  lemma RoundHalfUpFixesWholes(k: int)
    ensures RoundHalfUp(k as real) == k
  {
  }

  lemma QuotientOrder(x: real, y: real, step: GridStep)
    ensures x <= y <==> x / step <= y / step
  {
    DivMul(x, step);
    DivMul(y, step);
    MulStrict(y / step, x / step, step);
  }

  lemma NearestToMonotone(x: real, y: real, step: GridStep)
    requires x <= y
    ensures NearestTo(x, step) <= NearestTo(y, step)
  {
    QuotientOrder(x, y, step);
    RoundHalfUpMeaning(x / step, y / step);
    MultipleOrder(RoundHalfUp(y / step), RoundHalfUp(x / step), step);
  }

  lemma NearestToFixesMultiples(k: int, step: GridStep)
    ensures NearestTo(Multiple(k, step), step) == Multiple(k, step)
  {
    DivMul(Multiple(k, step), step);
    MulEqual(Multiple(k, step) / step, k as real, step);
    RoundHalfUpFixesWholes(k);
  }

  /** Points of the grid are exactly the fixed points of rounding to the nearest. */
  lemma NearestToFixesGrid(x: real, step: GridStep)
    ensures OnGrid(NearestTo(x, step), step)
    ensures OnGrid(x, step) <==> NearestTo(x, step) == x
  {
    if OnGrid(x, step) {
      var k: int :| x == Multiple(k, step);
      NearestToFixesMultiples(k, step);
    }
  }

  /** A price of at least half a step is rounded to at least one. */
  lemma NearestToKeepsStep(x: real, step: GridStep)
    requires x >= step / 2.0
    ensures NearestTo(x, step) >= step
  {
    DivMul(x, step);
    MulStrict(x / step, 0.5, step);
    var k := RoundHalfUp(x / step);
    assert k >= 1;
    MultipleOrder(k, 1, step);
    assert Multiple(1, step) == step;
  }

  lemma NearestToIsNear(x: real, step: GridStep)
    ensures x - step / 2.0 <= NearestTo(x, step) <= x + step / 2.0
  {
    var u := x / step;
    RoundHalfUpMeaning(u, u);
    hide RoundHalfUp;
    DivMul(x, step);
    StaysNear(u, RoundHalfUp(u), x, step);
  }

  lemma StaysNear(u: real, k: int, x: real, step: GridStep)
    requires u - 0.5 <= k as real <= u + 0.5 && u * step == x
    ensures x - step / 2.0 <= Multiple(k, step) <= x + step / 2.0
  {
    var low, high := (u - 0.5) * step, (u + 0.5) * step;
    MulMonotone(u - 0.5, k as real, step);
    MulMonotone(k as real, u + 0.5, step);
    Halves(u, step);
    assert low == x - step / 2.0 && high == x + step / 2.0;
  }

  lemma Halves(u: real, step: real)
    ensures (u - 0.5) * step == u * step - step / 2.0
    ensures (u + 0.5) * step == u * step + step / 2.0
  {
  }

  /** Two different points of a grid are at least one step apart. */
  lemma GridPointsAreApart(x: real, y: real, step: GridStep)
    requires OnGrid(x, step) && OnGrid(y, step) && x < y
    ensures x + step <= y
  {
    OnGridDifference(y, x, step);
    if y - x < step {
      NoGridPointBelowStep(y - x, step);
    }
  }
}

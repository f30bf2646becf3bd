/**
 Arithmetic of stop normalization: a stop is only ever moved away from the price, by less than one tick
 plus one digit quantum, and it lands on both the tick and the digit grid for every price exactly when
 one of the two steps divides the other.
 */
module StopNormalization {
  import opened Common
  import opened Grid
  import opened OrderManagement

  /** SELL normalization is BUY normalization seen in a mirror. */
  lemma RoundStopMirrors(price: real, tick: GridStep, quantum: GridStep)
    ensures RoundStop(price, Sell, tick, quantum) == -RoundStop(-price, Buy, tick, quantum)
  {
    CeilToMirrorsFloorTo(price, tick);
    CeilToMirrorsFloorTo(CeilTo(price, tick), quantum);
  }

  lemma RoundDownBrackets(price: real, tick: GridStep, quantum: GridStep)
    ensures RoundStop(price, Buy, tick, quantum) <= price < RoundStop(price, Buy, tick, quantum) + tick + quantum
  {
    FloorToIsGreatest(price, tick);
    FloorToIsGreatest(FloorTo(price, tick), quantum);
  }

  /** The stop never comes closer to the price and gives up less than one tick plus one quantum. */
  lemma RoundStopBrackets(price: real, side: Side, tick: GridStep, quantum: GridStep)
    ensures side == Buy ==>
      RoundStop(price, side, tick, quantum) <= price < RoundStop(price, side, tick, quantum) + tick + quantum
    ensures side == Sell ==>
      RoundStop(price, side, tick, quantum) - tick - quantum < price <= RoundStop(price, side, tick, quantum)
  {
    if side == Buy {
      RoundDownBrackets(price, tick, quantum);
    } else {
      RoundStopMirrors(price, tick, quantum);
      RoundDownBrackets(-price, tick, quantum);
    }
  }

  /** How far a normalized stop is from the clamped target, and that it respects the broker distance. */
  lemma NormalizedStopIsConservative(rawTarget: real, side: Side, closePrice: real, c: SymbolConstraints)
    requires NormalizeStopTarget(rawTarget, side, closePrice, c).Ok?
    ensures var stop := NormalizeStopTarget(rawTarget, side, closePrice, c).value;
            var slack := c.tickSize + DigitQuantum(c);
            && (side == Buy ==>
                  && stop <= rawTarget && stop <= closePrice - c.MinimumStopDistance()
                  && (rawTarget - slack < stop || closePrice - c.MinimumStopDistance() - slack < stop))
            && (side == Sell ==>
                  && stop >= rawTarget && stop >= closePrice + c.MinimumStopDistance()
                  && (stop < rawTarget + slack || stop < closePrice + c.MinimumStopDistance() + slack))
  {
    RoundStopBrackets(ClampedTarget(rawTarget, side, closePrice, c), side, c.tickSize, DigitQuantum(c));
  }

  lemma RoundDownOnBothGrids(price: real, tick: GridStep, quantum: GridStep)
    requires Divides(tick, quantum) || Divides(quantum, tick)
    ensures OnGrid(RoundStop(price, Buy, tick, quantum), tick)
    ensures OnGrid(RoundStop(price, Buy, tick, quantum), quantum)
  {
    var ticked := FloorTo(price, tick);
    FloorToIsGreatest(price, tick);
    FloorToIsGreatest(ticked, quantum);
    if Divides(tick, quantum) {
      OnGridTransitive(FloorTo(ticked, quantum), quantum, tick);
    } else {
      OnGridTransitive(ticked, tick, quantum);
      FloorToFixesGrid(ticked, quantum);
    }
  }

  lemma RoundStopOnBothGrids(price: real, side: Side, tick: GridStep, quantum: GridStep)
    requires Divides(tick, quantum) || Divides(quantum, tick)
    ensures OnGrid(RoundStop(price, side, tick, quantum), tick)
    ensures OnGrid(RoundStop(price, side, tick, quantum), quantum)
  {
    if side == Buy {
      RoundDownOnBothGrids(price, tick, quantum);
    } else {
      RoundStopMirrors(price, tick, quantum);
      RoundDownOnBothGrids(-price, tick, quantum);
      OnGridNegates(RoundStop(price, side, tick, quantum), tick);
      OnGridNegates(RoundStop(price, side, tick, quantum), quantum);
    }
  }

  /** Rounding keeps exactly the prices that already lie on both grids. */
  lemma RoundStopFixesGridPoints(price: real, side: Side, tick: GridStep, quantum: GridStep)
    requires OnGrid(price, tick) && OnGrid(price, quantum)
    ensures RoundStop(price, side, tick, quantum) == price
  {
    OnGridNegates(price, tick);
    OnGridNegates(price, quantum);
    FloorToFixesGrid(price, tick);
    FloorToFixesGrid(price, quantum);
    FloorToFixesGrid(-price, tick);
    FloorToFixesGrid(-price, quantum);
    RoundStopMirrors(price, tick, quantum);
  }

  /** Normalizing a normalized stop again at the same price changes nothing. */
  lemma NormalizeIsIdempotent(rawTarget: real, side: Side, closePrice: real, c: SymbolConstraints)
    requires Divides(c.tickSize, DigitQuantum(c)) || Divides(DigitQuantum(c), c.tickSize)
    requires NormalizeStopTarget(rawTarget, side, closePrice, c).Ok?
    requires NormalizeStopTarget(rawTarget, side, closePrice, c).value > 0.0
    ensures var stop := NormalizeStopTarget(rawTarget, side, closePrice, c).value;
            NormalizeStopTarget(stop, side, closePrice, c) == Ok(stop)
  {
    var stop := NormalizeStopTarget(rawTarget, side, closePrice, c).value;
    NormalizedStopIsConservative(rawTarget, side, closePrice, c);
    RoundStopOnBothGrids(ClampedTarget(rawTarget, side, closePrice, c), side, c.tickSize, DigitQuantum(c));
    assert ClampedTarget(stop, side, closePrice, c) == stop;
    RoundStopFixesGridPoints(stop, side, c.tickSize, DigitQuantum(c));
  }

  /** A digit quantum below the tick that does not divide it rounds the first tick off its own grid. */
  lemma SmallQuantumMisses(tick: GridStep, quantum: GridStep)
    requires quantum < tick && !Divides(quantum, tick)
    ensures OnGrid(tick, tick) && !OnGrid(RoundStop(tick, Buy, tick, quantum), tick)
  {
    assert tick == Multiple(1, tick);
    FloorToFixesGrid(tick, tick);
    var stop := FloorTo(tick, quantum);
    FloorToIsGreatest(tick, quantum);
    if OnGrid(stop, tick) {
      OnGridDifference(tick, stop, tick);
      NoGridPointBelowStep(tick - stop, tick);
    }
  }

  /** A quantum above the tick that is no multiple of it catches the first tick beyond one quantum. */
  lemma LargeQuantumMisses(tick: GridStep, quantum: GridStep) returns (price: real)
    requires tick <= quantum && !Divides(tick, quantum)
    ensures price > 0.0 && OnGrid(price, tick)
    ensures !OnGrid(RoundStop(price, Buy, tick, quantum), tick)
  {
    var below := FloorTo(quantum, tick);
    FloorToIsGreatest(quantum, tick);
    var k: int :| below == Multiple(k, tick);
    MultipleOrder(k, k, tick);
    price := Multiple(k + 1, tick);
    assert quantum < price < quantum + tick;
    FloorToFixesGrid(price, tick);
    FloorToIsGreatest(price, quantum);
    var stop := FloorTo(price, quantum);
    assert Multiple(1, quantum) == quantum;
    if OnGrid(stop, tick) {
      OnGridDifference(price, stop, tick);
      NoGridPointBelowStep(price - stop, tick);
      OnGridDifference(price, quantum, quantum);
      NoGridPointBelowStep(price - quantum, quantum);
    }
  }

  /** Normalized stops stay on both grids for every positive price exactly when one step divides the other. */
  lemma BothGridsIffOneStepDivides(tick: GridStep, quantum: GridStep)
    ensures (forall price: real, side: Side :: price > 0.0 ==>
               OnGrid(RoundStop(price, side, tick, quantum), tick)
               && OnGrid(RoundStop(price, side, tick, quantum), quantum))
       <==> Divides(tick, quantum) || Divides(quantum, tick)
  {
    if Divides(tick, quantum) || Divides(quantum, tick) {
      forall price: real, side: Side
        ensures OnGrid(RoundStop(price, side, tick, quantum), tick)
        ensures OnGrid(RoundStop(price, side, tick, quantum), quantum)
      {
        RoundStopOnBothGrids(price, side, tick, quantum);
      }
    } else if quantum < tick {
      SmallQuantumMisses(tick, quantum);
    } else {
      var price := LargeQuantumMisses(tick, quantum);
      assert !OnGrid(RoundStop(price, Buy, tick, quantum), tick);
    }
  }
}

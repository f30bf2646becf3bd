/**
 The last check before a stop request leaves for the broker.  The request is rounded half-up onto the price
 grids; it is refused when the stop or take-profit is no longer, within half a step, the one the machine saw,
 and not sent when nothing would change by more than half a step.
 */
module OrderGateway {
  import opened Common
  import opened Grid
  import opened OrderManagement

  function PriceOrZero(price: Option<real>): real {
    if price.Some? then price.value else 0.0
  }

  /** Nearest tick, then nearest digit quantum. */
  function NormalizePrice(price: real, c: SymbolConstraints): real {
    NearestTo(NearestTo(price, c.tickSize), DigitQuantum(c))
  }

  /** Half of the larger step, and never less than 1e-12. */
  function MatchTolerance(c: SymbolConstraints): (t: real)
    ensures t >= c.tickSize / 2.0 && t >= DigitQuantum(c) / 2.0 && t >= 0.000000000001
  {
    var half := (if c.tickSize > DigitQuantum(c) then c.tickSize else DigitQuantum(c)) / 2.0;
    if half > 0.000000000001 then half else 0.000000000001
  }

  predicate PricesMatch(a: real, b: real, c: SymbolConstraints) {
    Abs(a - b) <= MatchTolerance(c)
  }

  datatype Ruling = Refused | NothingToChange | Send(sl: real, tp: real)

  function RequestedTp(action: DesiredAction, currentTp: Option<real>, c: SymbolConstraints): real {
    if action.preserveTp.None? then PriceOrZero(currentTp) else NormalizePrice(action.preserveTp.value, c)
  }

  /** Whether the position still shows what the machine saw when it proposed the action. */
  predicate StillAsSeen(action: DesiredAction, currentSl: Option<real>, currentTp: Option<real>, c: SymbolConstraints) {
    && PricesMatch(NormalizePrice(PriceOrZero(action.expectedBrokerSl), c), PriceOrZero(currentSl), c)
    && PricesMatch(NormalizePrice(PriceOrZero(action.preserveTp), c), PriceOrZero(currentTp), c)
  }

  /** What becomes of a request, given the broker's stop and take-profit when it is checked. */
  function Rule(action: DesiredAction, currentSl: Option<real>, currentTp: Option<real>, c: SymbolConstraints,
                guarded: bool): Ruling
  {
    var sl := NormalizePrice(action.targetSl, c);
    var tp := RequestedTp(action, currentTp, c);
    if guarded && !StillAsSeen(action, currentSl, currentTp, c) then Refused
    else if PricesMatch(sl, PriceOrZero(currentSl), c)
            && (action.preserveTp.None? || PricesMatch(tp, PriceOrZero(currentTp), c))
    then NothingToChange
    else Send(sl, tp)
  }

  // ---------- rounding half-up ----------

  lemma NormalizeIsMonotone(a: real, b: real, c: SymbolConstraints)
    requires a <= b
    ensures NormalizePrice(a, c) <= NormalizePrice(b, c)
  {
    NearestToMonotone(a, b, c.tickSize);
    NearestToMonotone(NearestTo(a, c.tickSize), NearestTo(b, c.tickSize), DigitQuantum(c));
  }

  lemma NormalizeFixesGridPoints(price: real, c: SymbolConstraints)
    requires OnGrid(price, c.tickSize) && OnGrid(price, DigitQuantum(c))
    ensures NormalizePrice(price, c) == price
  {
    NearestToFixesGrid(price, c.tickSize);
    NearestToFixesGrid(price, DigitQuantum(c));
  }

  lemma NormalizeLandsOnQuantum(price: real, c: SymbolConstraints)
    ensures OnGrid(NormalizePrice(price, c), DigitQuantum(c))
  {
    NearestToFixesGrid(NearestTo(price, c.tickSize), DigitQuantum(c));
  }

  lemma NormalizeKeepsZero(c: SymbolConstraints)
    ensures NormalizePrice(0.0, c) == 0.0
  {
    assert Multiple(0, c.tickSize) == 0.0 && Multiple(0, DigitQuantum(c)) == 0.0;
    NormalizeFixesGridPoints(0.0, c);
  }

  // ---------- what the check is worth ----------

  /** The action improves on the stop it was computed from; an absent stop is improved by anything. */
  predicate Improves(action: DesiredAction) {
    IsPositive(action.expectedBrokerSl) ==>
      if action.side == Buy then action.targetSl >= action.expectedBrokerSl.value
      else action.targetSl <= action.expectedBrokerSl.value
  }

  predicate Looser(side: Side, stop: real, than: Option<real>) {
    IsPositive(than) && if side == Buy then stop < than.value else stop > than.value
  }

  /** A SELL stop within half a step of price zero, which the machine had not seen: the one stop the check overlooks. */
  predicate OverlooksStop(action: DesiredAction, currentSl: Option<real>, c: SymbolConstraints) {
    action.side == Sell && !IsPositive(action.expectedBrokerSl) && IsPositive(currentSl)
    && currentSl.value <= MatchTolerance(c)
  }

  /** With the check on, only a changed stop is a reason to send. */
  lemma SentMeansStopChanges(action: DesiredAction, currentSl: Option<real>, currentTp: Option<real>, c: SymbolConstraints)
    requires Rule(action, currentSl, currentTp, c, true).Send?
    ensures !PricesMatch(NormalizePrice(action.targetSl, c), PriceOrZero(currentSl), c)
  {
  }

  lemma SentAgainstSeenStop(action: DesiredAction, currentSl: Option<real>, currentTp: Option<real>, c: SymbolConstraints)
    requires Improves(action) && IsPositive(action.expectedBrokerSl) && IsPositive(currentSl)
    requires Rule(action, currentSl, currentTp, c, true).Send?
    ensures var sl := NormalizePrice(action.targetSl, c);
            if action.side == Buy then sl > currentSl.value + MatchTolerance(c) else sl < currentSl.value - MatchTolerance(c)
  {
    SentMeansStopChanges(action, currentSl, currentTp, c);
    if action.side == Buy {
      NormalizeIsMonotone(action.expectedBrokerSl.value, action.targetSl, c);
    } else {
      NormalizeIsMonotone(action.targetSl, action.expectedBrokerSl.value, c);
    }
    hide NormalizePrice, MatchTolerance;
  }

  lemma SentAgainstUnseenStop(action: DesiredAction, currentSl: Option<real>, currentTp: Option<real>, c: SymbolConstraints)
    requires action.targetSl > 0.0 && !IsPositive(action.expectedBrokerSl) && IsPositive(currentSl)
    requires Rule(action, currentSl, currentTp, c, true).Send?
    ensures currentSl.value <= MatchTolerance(c)
    ensures NormalizePrice(action.targetSl, c) > currentSl.value + MatchTolerance(c)
  {
    SentMeansStopChanges(action, currentSl, currentTp, c);
    NormalizeKeepsZero(c);
    NormalizeIsMonotone(0.0, action.targetSl, c);
    NormalizeIsMonotone(PriceOrZero(action.expectedBrokerSl), 0.0, c);
    hide NormalizePrice, MatchTolerance;
  }

  /**
   A checked request that is sent and carried out to within `slack` loosens the position's stop in exactly one
   case, the overlooked SELL stop next to price zero; no grid condition is needed, and whatever the user did to
   the stop since the machine looked.
   */
  lemma SentRequestLoosensIff(action: DesiredAction, currentSl: Option<real>, currentTp: Option<real>, c: SymbolConstraints,
                              stop: real, slack: real)
    requires action.targetSl > 0.0 && Improves(action)
    requires Rule(action, currentSl, currentTp, c, true).Send?
    requires Abs(stop - NormalizePrice(action.targetSl, c)) <= slack <= MatchTolerance(c)
    ensures Looser(action.side, stop, currentSl) <==> OverlooksStop(action, currentSl, c)
  {
    hide NormalizePrice, MatchTolerance, Rule;
    if IsPositive(currentSl) {
      if IsPositive(action.expectedBrokerSl) {
        SentAgainstSeenStop(action, currentSl, currentTp, c);
      } else {
        SentAgainstUnseenStop(action, currentSl, currentTp, c);
      }
    }
  }

  // ---------- the ruling on prices ----------

  /** Prices match within half a tick, half a digit quantum or 1e-12, whichever is largest. */
  lemma MatchToleranceMeaning(c: SymbolConstraints)
    ensures var t := MatchTolerance(c);
            && 2.0 * t >= c.tickSize && 2.0 * t >= DigitQuantum(c) && t >= 0.000000000001
            && (2.0 * t == c.tickSize || 2.0 * t == DigitQuantum(c) || t == 0.000000000001)
    ensures forall a, b :: PricesMatch(a, b, c) <==> a - b <= MatchTolerance(c) && b - a <= MatchTolerance(c)
  {
  }

  /** Rounding half-up moves a price by at most half a tick and half a quantum. */
  lemma NormalizeStaysNear(price: real, c: SymbolConstraints)
    ensures var reach := c.tickSize / 2.0 + DigitQuantum(c) / 2.0;
            price - reach <= NormalizePrice(price, c) <= price + reach
  {
    hide NearestTo, DigitQuantum;
    NearestToIsNear(price, c.tickSize);
    NearestToIsNear(NearestTo(price, c.tickSize), DigitQuantum(c));
  }

  /** A price is there and not zero; a missing one counts as zero. */
  function Shown(price: Option<real>): real {
    if price.None? then 0.0 else price.value
  }

  /**
   A compared request is refused exactly if stop or take-profit is no longer the one seen; otherwise it is sent
   exactly if the stop changes, with the rounded stop and the rounded or untouched take-profit.
   */
  lemma RuleMeaning(action: DesiredAction, currentSl: Option<real>, currentTp: Option<real>, c: SymbolConstraints)
    ensures var ruling := Rule(action, currentSl, currentTp, c, true);
            var seen := PricesMatch(NormalizePrice(Shown(action.expectedBrokerSl), c), Shown(currentSl), c)
                        && PricesMatch(NormalizePrice(Shown(action.preserveTp), c), Shown(currentTp), c);
            var changes := !PricesMatch(NormalizePrice(action.targetSl, c), Shown(currentSl), c);
            && (ruling.Refused? <==> !seen)
            && (ruling.Send? <==> seen && changes)
            && (ruling.Send? ==> ruling.sl == NormalizePrice(action.targetSl, c)
                                 && ruling.tp == if action.preserveTp.None? then Shown(currentTp)
                                                 else NormalizePrice(action.preserveTp.value, c))
  {
    hide NormalizePrice, MatchTolerance;
  }

  /** Without the comparison nothing is refused, and a request goes out iff it changes either price. */
  lemma UnguardedRuleMeaning(action: DesiredAction, currentSl: Option<real>, currentTp: Option<real>,
                             c: SymbolConstraints)
    ensures var ruling := Rule(action, currentSl, currentTp, c, false);
            var stopChanges := Abs(NormalizePrice(action.targetSl, c) - Shown(currentSl)) > MatchTolerance(c);
            var profitChanges :=
              action.preserveTp.Some?
              && Abs(NormalizePrice(action.preserveTp.value, c) - Shown(currentTp)) > MatchTolerance(c);
            && !ruling.Refused?
            && (ruling.Send? <==> stopChanges || profitChanges)
            && (ruling.Send? ==> ruling.sl == NormalizePrice(action.targetSl, c)
                                 && ruling.tp == if action.preserveTp.None? then Shown(currentTp)
                                                 else NormalizePrice(action.preserveTp.value, c))
  {
    hide NormalizePrice, MatchTolerance;
  }

  /** A take-profit moved by hand by more than half a step is never overwritten. */
  lemma SentRequestKeepsTakeProfit(action: DesiredAction, currentSl: Option<real>, currentTp: Option<real>,
                                   c: SymbolConstraints)
    requires Rule(action, currentSl, currentTp, c, true).Send?
    ensures PricesMatch(Rule(action, currentSl, currentTp, c, true).tp, Shown(currentTp), c)
  {
    hide NormalizePrice;
  }
}

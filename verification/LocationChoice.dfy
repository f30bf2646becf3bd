/**
 Which zones a side leans on and runs into, said in the fields of the zones: who qualifies, and against every
 other qualifying zone why the chosen one comes first.
 */
module LocationChoice {
  import opened Common
  import opened LocationModel
  import opened LocationScoring
  import opened LocationSelection

  /** A zone to lean on: active, confirmed, of the side's own role, and not on the wrong side of the price. */
  predicate LeansOn(side: Side, price: real, cutoff: int, z: Zone) {
    && z.status == Active && z.confirmedAt <= cutoff
    && if side == Buy then z.role == Support && z.low <= price else z.role == Resistance && price <= z.high
  }

  /** A live, confirmed zone of the other role. */
  predicate Opposes(side: Side, cutoff: int, z: Zone) {
    && (z.status == Active || z.status == Suspect) && z.confirmedAt <= cutoff
    && z.role == if side == Buy then Resistance else Support
  }

  predicate StandsInside(side: Side, price: real, cutoff: int, z: Zone) {
    Opposes(side, cutoff, z) && z.low <= price && price <= z.high
  }

  predicate LiesAhead(side: Side, price: real, cutoff: int, z: Zone) {
    Opposes(side, cutoff, z) && if side == Buy then z.low > price else z.high < price
  }

  lemma PicksMeaning(side: Side, price: real, cutoff: int, z: Zone)
    ensures Picks(Anchoring, side, price, cutoff, z) <==> LeansOn(side, price, cutoff, z)
    ensures Picks(Containing, side, price, cutoff, z) <==> StandsInside(side, price, cutoff, z)
    ensures Picks(Ahead, side, price, cutoff, z) <==> LiesAhead(side, price, cutoff, z)
  {
  }

  /** How far the price is from the zone: from its near edge, or not at all. */
  function Gap(price: real, z: Zone): real {
    if price < z.low then z.low - price else if z.high < price then price - z.high else 0.0
  }

  /** The price of the zone that is nearest. */
  function NearestPrice(price: real, z: Zone): real {
    if price < z.low then z.low else if z.high < price then z.high else price
  }

  /** The gap is the distance to the nearest price of the zone, and to no other price of it is it smaller. */
  lemma GapIsLeast(price: real, z: Zone, x: real)
    requires z.low <= x <= z.high
    ensures Distance(price, z.low, z.high) == Gap(price, z) == Abs(price - NearestPrice(price, z))
    ensures z.low <= NearestPrice(price, z) <= z.high && Abs(price - NearestPrice(price, z)) <= Abs(price - x)
  {
  }

  /** The order of ids as texts: "resistance:..." before "support:...", then by time. */
  predicate IdTextLeq(a: ZoneId, b: ZoneId) {
    (a.role == Resistance && b.role == Support) || (a.role == b.role && a.formedAt <= b.formedAt)
  }

  /** Strictly nearer; or as near and strictly narrower; or equal in both and confirmed later; or then least by id. */
  predicate ComesFirst(a: Zone, z: Zone, price: real) {
    var aWidth, zWidth := a.high - a.low, z.high - z.low;
    || Gap(price, a) < Gap(price, z)
    || (Gap(price, a) == Gap(price, z)
        && (|| aWidth < zWidth
            || (aWidth == zWidth
                && (a.confirmedAt > z.confirmedAt || (a.confirmedAt == z.confirmedAt && IdTextLeq(a.id, z.id))))))
  }

  lemma NotBeforeMeaning(a: Zone, z: Zone, price: real)
    ensures !Before(CandidateFor(price, z).key, CandidateFor(price, a).key) <==> ComesFirst(a, z, price)
  {
  }

  /** The anchor: a zone to lean on that comes before every other; none exactly if there is no zone to lean on. */
  lemma AnchorOnPrices(side: Side, context: Context)
    ensures var price, cutoff := context.referencePrice, context.cutoff;
            match AnchorOf(side, context)
            case None => forall z :: z in context.zones ==> !LeansOn(side, price, cutoff, z)
            case Some(a) =>
              && a in context.zones && LeansOn(side, price, cutoff, a)
              && forall z :: z in context.zones && LeansOn(side, price, cutoff, z) ==> ComesFirst(a, z, price)
  {
    hide AnchorOf, Picks, LeansOn, Before, CandidateFor, ComesFirst;
    AnchorMeaning(side, context);
    var price, cutoff := context.referencePrice, context.cutoff;
    forall z
      ensures Picks(Anchoring, side, price, cutoff, z) <==> LeansOn(side, price, cutoff, z)
    {
      PicksMeaning(side, price, cutoff, z);
    }
    if AnchorOf(side, context).Some? {
      forall z
        ensures !Before(CandidateFor(price, z).key, CandidateFor(price, AnchorOf(side, context).value).key)
           <==> ComesFirst(AnchorOf(side, context).value, z, price)
      {
        NotBeforeMeaning(AnchorOf(side, context).value, z, price);
      }
    }
  }

  /**
   The obstacle: with the price inside opposing zones the narrowest of those, and a conflict; otherwise the first of
   those ahead, and how far it is; none exactly if there is neither.
   */
  lemma ObstacleOnPrices(side: Side, context: Context)
    requires context.Valid()
    ensures var price, cutoff := context.referencePrice, context.cutoff;
            var selection := ObstacleOf(side, context);
            && (selection.conflict <==> exists z :: z in context.zones && StandsInside(side, price, cutoff, z))
            && (selection.obstacle.None? <==>
                  forall z :: z in context.zones ==>
                    !StandsInside(side, price, cutoff, z) && !LiesAhead(side, price, cutoff, z))
            && (selection.obstacle.None? ==> selection.clearance.None?)
            && (selection.obstacle.Some? ==>
                  var o := selection.obstacle.value;
                  && o in context.zones
                  && (if selection.conflict then StandsInside(side, price, cutoff, o) else LiesAhead(side, price, cutoff, o))
                  && selection.clearance
                     == Some(if selection.conflict then 0.0 else if side == Buy then o.low - price else price - o.high)
                  && forall z :: z in context.zones
                                 && (if selection.conflict then StandsInside(side, price, cutoff, z)
                                     else LiesAhead(side, price, cutoff, z))
                                 ==> ComesFirst(o, z, price))
  {
    hide Selected, Picks, StandsInside, LiesAhead, Before, CandidateFor, ComesFirst;
    ObstacleMeaning(side, context);
    var price, cutoff, selection := context.referencePrice, context.cutoff, ObstacleOf(side, context);
    forall z
      ensures Picks(Containing, side, price, cutoff, z) <==> StandsInside(side, price, cutoff, z)
      ensures Picks(Ahead, side, price, cutoff, z) <==> LiesAhead(side, price, cutoff, z)
    {
      PicksMeaning(side, price, cutoff, z);
    }
    if selection.obstacle.Some? {
      forall z
        ensures !Before(CandidateFor(price, z).key, CandidateFor(price, selection.obstacle.value).key)
           <==> ComesFirst(selection.obstacle.value, z, price)
      {
        NotBeforeMeaning(selection.obstacle.value, z, price);
      }
    }
  }
}

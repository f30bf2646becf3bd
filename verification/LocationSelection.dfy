/**
 What is selected: among the zones that qualify, the lexicographically least by distance, width, recency and
 id.  On zones whose ids are not reused, neither the selection nor the score depends on the order of zones.
 */
module LocationSelection {
  import opened Common
  import opened LocationModel
  import opened LocationScoring
  import LocationDedupe

  /** The key order is a strict total order. */
  lemma KeysAreTotallyOrdered(a: Key, b: Key, c: Key)
    ensures !(Before(a, b) && Before(b, a))
    ensures Before(a, b) || Before(b, a) || a == b
    ensures Before(a, b) && Before(b, c) ==> Before(a, c)
  {
  }

  lemma {:induction false} BestMeaning(candidates: seq<Candidate>)
    requires candidates != []
    ensures Best(candidates) in candidates
    ensures forall k :: 0 <= k < |candidates| ==> !Before(candidates[k].key, Best(candidates).key)
    decreases |candidates|
  {
    hide Before;
    var n := |candidates| - 1;
    var best := Best(candidates);
    if n == 0 {
      KeysAreTotallyOrdered(best.key, best.key, best.key);
    } else {
      var earlier := Best(candidates[..n]);
      BestMeaning(candidates[..n]);
      forall k | 0 <= k < |candidates|
        ensures !Before(candidates[k].key, best.key)
      {
        assert k < n ==> candidates[..n][k] == candidates[k];
        KeysAreTotallyOrdered(candidates[k].key, best.key, earlier.key);
        KeysAreTotallyOrdered(best.key, candidates[k].key, earlier.key);
      }
    }
  }

  /** Of candidates that no other precedes, the first is taken. */
  lemma {:induction false} BestIsFirst(candidates: seq<Candidate>) returns (first: nat)
    requires candidates != []
    ensures first < |candidates| && Best(candidates) == candidates[first]
    ensures forall k :: 0 <= k < first ==> Before(Best(candidates).key, candidates[k].key)
    decreases |candidates|
  {
    hide Before;
    var n := |candidates| - 1;
    if n == 0 {
      first := 0;
    } else {
      var earlier := Best(candidates[..n]);
      first := BestIsFirst(candidates[..n]);
      if Before(candidates[n].key, earlier.key) {
        BestMeaning(candidates[..n]);
        forall k | 0 <= k < n
          ensures Before(candidates[n].key, candidates[k].key)
        {
          assert candidates[..n][k] == candidates[k];
          KeysAreTotallyOrdered(candidates[n].key, earlier.key, candidates[k].key);
          KeysAreTotallyOrdered(earlier.key, candidates[k].key, earlier.key);
        }
        first := n;
      }
    }
  }

  ghost predicate CandidateAmong(c: Candidate, purpose: Purpose, side: Side, price: real, cutoff: int, zones: seq<Zone>) {
    c.zone in zones && Picks(purpose, side, price, cutoff, c.zone) && c == CandidateFor(price, c.zone)
  }

  lemma {:induction false} CandidatesMeaning(purpose: Purpose, side: Side, price: real, cutoff: int, zones: seq<Zone>,
                                             c: Candidate)
    ensures c in Candidates(purpose, side, price, cutoff, zones) <==> CandidateAmong(c, purpose, side, price, cutoff, zones)
    decreases |zones|
  {
    hide Picks, CandidateFor;
    CandidateKeepsZone(price, c.zone);
    if zones != [] {
      var n := |zones| - 1;
      CandidateKeepsZone(price, zones[n]);
      CandidatesMeaning(purpose, side, price, cutoff, zones[..n], c);
      assert zones == zones[..n] + [zones[n]];
    }
  }

  lemma CandidateKeepsZone(price: real, zone: Zone)
    ensures CandidateFor(price, zone).zone == zone
  {
  }

  /** A selection is a qualifying zone that no qualifying zone precedes; nothing is selected only if nothing qualifies. */
  ghost predicate Selects(c: Option<Candidate>, purpose: Purpose, side: Side, price: real, cutoff: int, zones: seq<Zone>) {
    if c.None? then forall z :: z in zones ==> !Picks(purpose, side, price, cutoff, z)
    else
      && CandidateAmong(c.value, purpose, side, price, cutoff, zones)
      && forall z :: z in zones && Picks(purpose, side, price, cutoff, z) ==>
           !Before(CandidateFor(price, z).key, c.value.key)
  }

  lemma SelectedMeaning(purpose: Purpose, side: Side, context: Context)
    ensures Selects(Selected(purpose, side, context), purpose, side, context.referencePrice, context.cutoff, context.zones)
  {
    hide Picks, CandidateFor, Before, Best, Candidates;
    var price, cutoff, zones := context.referencePrice, context.cutoff, context.zones;
    var candidates := Candidates(purpose, side, price, cutoff, zones);
    if candidates != [] {
      BestMeaning(candidates);
      CandidatesMeaning(purpose, side, price, cutoff, zones, Best(candidates));
    }
    forall z | z in zones && Picks(purpose, side, price, cutoff, z)
      ensures candidates != [] && !Before(CandidateFor(price, z).key, Best(candidates).key)
    {
      CandidateKeepsZone(price, z);
      CandidatesMeaning(purpose, side, price, cutoff, zones, CandidateFor(price, z));
    }
  }

  /** The anchor is the nearest zone to lean on, and there is none only if no zone qualifies. */
  lemma AnchorMeaning(side: Side, context: Context)
    ensures var price, cutoff := context.referencePrice, context.cutoff;
            match AnchorOf(side, context)
            case None => forall z :: z in context.zones ==> !Picks(Anchoring, side, price, cutoff, z)
            case Some(a) =>
              && a in context.zones && Picks(Anchoring, side, price, cutoff, a)
              && forall z :: z in context.zones && Picks(Anchoring, side, price, cutoff, z) ==>
                   !Before(CandidateFor(price, z).key, CandidateFor(price, a).key)
  {
    hide Picks, CandidateFor, Before, Selected;
    SelectedMeaning(Anchoring, side, context);
  }

  /** A conflict means exactly that the price is inside a live opposing zone; otherwise the nearest zone ahead counts. */
  lemma ObstacleMeaning(side: Side, context: Context)
    requires context.Valid()
    ensures var price, cutoff := context.referencePrice, context.cutoff;
            var selection := ObstacleOf(side, context);
            && (selection.conflict <==> exists z :: z in context.zones && Picks(Containing, side, price, cutoff, z))
            && (selection.obstacle.None? <==>
                  forall z :: z in context.zones ==>
                    !Picks(Containing, side, price, cutoff, z) && !Picks(Ahead, side, price, cutoff, z))
            && (selection.obstacle.Some? ==>
                  var o := selection.obstacle.value;
                  var purpose := if selection.conflict then Containing else Ahead;
                  && o in context.zones && Picks(purpose, side, price, cutoff, o)
                  && selection.clearance == Some(if selection.conflict then 0.0 else ForwardClearance(side, price, o))
                  && forall z :: z in context.zones && Picks(purpose, side, price, cutoff, z) ==>
                       !Before(CandidateFor(price, z).key, CandidateFor(price, o).key))
  {
    SelectedMeaning(Containing, side, context);
    SelectedMeaning(Ahead, side, context);
    var ahead := Selected(Ahead, side, context);
    if ahead.Some? {
      AheadDistance(side, context.referencePrice, context.cutoff, ahead.value.zone);
    }
    hide Picks, CandidateFor, Before, Selected, ForwardClearance;
  }

  lemma AheadDistance(side: Side, price: real, cutoff: int, zone: Zone)
    requires zone.low <= zone.high && Picks(Ahead, side, price, cutoff, zone)
    ensures Distance(price, zone.low, zone.high) == ForwardClearance(side, price, zone)
  {
  }

  // ---------- order does not matter ----------

  lemma SelectionIsUnique(a: Option<Candidate>, b: Option<Candidate>, purpose: Purpose, side: Side, price: real,
                          cutoff: int, xs: seq<Zone>, ys: seq<Zone>)
    requires LocationDedupe.SameRecords(xs, ys) && !Conflicting(xs)
    requires Selects(a, purpose, side, price, cutoff, xs) && Selects(b, purpose, side, price, cutoff, ys)
    ensures a == b
  {
    hide Picks, Before;
    if a.Some? && b.Some? {
      KeysAreTotallyOrdered(a.value.key, b.value.key, a.value.key);
      assert a.value.zone in ys && b.value.zone in xs;
      LocationDedupe.ConflictMeaning(xs);
    }
  }

  lemma SelectionIgnoresOrder(purpose: Purpose, side: Side, context: Context, zones: seq<Zone>)
    requires LocationDedupe.SameRecords(context.zones, zones) && !Conflicting(context.zones)
    ensures Selected(purpose, side, context.(zones := zones)) == Selected(purpose, side, context)
  {
    hide Selected, Selects, Conflicting;
    var other := context.(zones := zones);
    SelectedMeaning(purpose, side, context);
    SelectedMeaning(purpose, side, other);
    SelectionIsUnique(Selected(purpose, side, context), Selected(purpose, side, other), purpose, side,
                      context.referencePrice, context.cutoff, context.zones, zones);
  }

  /** Anchor, obstacle and score depend only on which zones a context holds. */
  lemma ScoreIgnoresZoneOrder(side: Side, context: Context, zones: seq<Zone>)
    requires context.Valid() && LocationDedupe.SameRecords(context.zones, zones) && !Conflicting(context.zones)
    ensures var other := context.(zones := zones);
            && other.Valid()
            && AnchorOf(side, other) == AnchorOf(side, context)
            && ObstacleOf(side, other) == ObstacleOf(side, context)
            && ScoreOf(side, other) == ScoreOf(side, context)
  {
    hide Selected, Conflicting;
    SelectionIgnoresOrder(Anchoring, side, context, zones);
    SelectionIgnoresOrder(Containing, side, context, zones);
    SelectionIgnoresOrder(Ahead, side, context, zones);
    forall k | 0 <= k < |zones|
      ensures zones[k].Valid()
    {
      assert zones[k] in context.zones;
    }
  }
}

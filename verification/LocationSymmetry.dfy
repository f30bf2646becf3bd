/**
 Mirror symmetry.  Reflecting the price and every zone about a constant, with supports and resistances
 exchanged, turns the BUY score into the SELL score and back.
 */
module LocationSymmetry {
  import opened Common
  import opened LocationModel
  import opened LocationScoring
  import LocationSelection

  function Opposite(side: Side): Side {
    if side == Buy then Sell else Buy
  }

  /** The zone seen in the mirror that exchanges prices `x` and `total - x`. */
  function MirrorZone(zone: Zone, total: real): Zone {
    zone.(role := if zone.role == Support then Resistance else Support, low := total - zone.high, high := total - zone.low)
  }

  function MirrorZones(zones: seq<Zone>, total: real): (r: seq<Zone>)
    ensures |r| == |zones|
  {
    seq(|zones|, i requires 0 <= i < |zones| => MirrorZone(zones[i], total))
  }

  function MirrorContext(context: Context, total: real): Context {
    context.(referencePrice := total - context.referencePrice, zones := MirrorZones(context.zones, total))
  }

  function MirrorCandidate(c: Candidate, total: real): Candidate {
    c.(zone := MirrorZone(c.zone, total))
  }

  function MirrorCandidates(candidates: seq<Candidate>, total: real): (r: seq<Candidate>)
    ensures |r| == |candidates|
  {
    seq(|candidates|, i requires 0 <= i < |candidates| => MirrorCandidate(candidates[i], total))
  }

  function MirrorOption(zone: Option<Zone>, total: real): Option<Zone> {
    if zone.None? then None else Some(MirrorZone(zone.value, total))
  }

  function MirrorScore(score: Score, total: real): Score {
    score.(side := Opposite(score.side), referencePrice := total - score.referencePrice,
           anchor := MirrorOption(score.anchor, total), obstacle := MirrorOption(score.obstacle, total))
  }

  lemma PicksMirrors(purpose: Purpose, side: Side, price: real, cutoff: int, zone: Zone, total: real)
    ensures Picks(purpose, Opposite(side), total - price, cutoff, MirrorZone(zone, total))
         == Picks(purpose, side, price, cutoff, zone)
    ensures zone.low <= zone.high ==>
              CandidateFor(total - price, MirrorZone(zone, total)) == MirrorCandidate(CandidateFor(price, zone), total)
  {
  }

  lemma {:induction false} CandidatesMirror(purpose: Purpose, side: Side, price: real, cutoff: int, zones: seq<Zone>,
                                            total: real)
    requires forall k :: 0 <= k < |zones| ==> zones[k].low <= zones[k].high
    ensures Candidates(purpose, Opposite(side), total - price, cutoff, MirrorZones(zones, total))
         == MirrorCandidates(Candidates(purpose, side, price, cutoff, zones), total)
    decreases |zones|
  {
    hide Picks, CandidateFor, MirrorZone, MirrorCandidate, Opposite;
    if zones != [] {
      var n := |zones| - 1;
      assert MirrorZones(zones, total)[..n] == MirrorZones(zones[..n], total);
      CandidatesMirror(purpose, side, price, cutoff, zones[..n], total);
      PicksMirrors(purpose, side, price, cutoff, zones[n], total);
    }
  }

  lemma {:induction false} BestMirrors(candidates: seq<Candidate>, total: real)
    requires candidates != []
    ensures Best(MirrorCandidates(candidates, total)) == MirrorCandidate(Best(candidates), total)
    decreases |candidates|
  {
    hide Before;
    var n := |candidates| - 1;
    if n > 0 {
      assert MirrorCandidates(candidates, total)[..n] == MirrorCandidates(candidates[..n], total);
      BestMirrors(candidates[..n], total);
    }
  }

  lemma SelectionMirrors(purpose: Purpose, side: Side, context: Context, total: real)
    requires context.Valid()
    ensures Selected(purpose, Opposite(side), MirrorContext(context, total))
         == match Selected(purpose, side, context)
            case None => None
            case Some(c) => Some(MirrorCandidate(c, total))
  {
    hide Candidates, Best, MirrorCandidate;
    var price, cutoff := context.referencePrice, context.cutoff;
    CandidatesMirror(purpose, side, price, cutoff, context.zones, total);
    var candidates := Candidates(purpose, side, price, cutoff, context.zones);
    if candidates != [] {
      BestMirrors(candidates, total);
    }
  }

  lemma AnchorMirrors(side: Side, context: Context, total: real)
    requires context.Valid()
    ensures AnchorOf(Opposite(side), MirrorContext(context, total)) == MirrorOption(AnchorOf(side, context), total)
  {
    hide Selected;
    SelectionMirrors(Anchoring, side, context, total);
  }

  lemma ObstacleMirrors(side: Side, context: Context, total: real)
    requires context.Valid()
    ensures ObstacleOf(Opposite(side), MirrorContext(context, total))
         == ObstacleOf(side, context).(obstacle := MirrorOption(ObstacleOf(side, context).obstacle, total))
  {
    hide Selected;
    SelectionMirrors(Containing, side, context, total);
    SelectionMirrors(Ahead, side, context, total);
  }

  lemma DistancesMirror(side: Side, context: Context, zone: Zone, total: real, atr: real)
    requires zone.low <= zone.high && atr > 0.0
    ensures DistanceAtr(MirrorContext(context, total), MirrorZone(zone, total), atr) == DistanceAtr(context, zone, atr)
    ensures ForwardClearance(Opposite(side), total - context.referencePrice, MirrorZone(zone, total))
         == ForwardClearance(side, context.referencePrice, zone)
  {
    hide InAtrs;
  }

  lemma ClearanceMirrors(side: Side, context: Context, total: real, atr: real)
    requires context.Valid() && atr > 0.0
    ensures ClearanceAtr(Opposite(side), MirrorContext(context, total), atr) == ClearanceAtr(side, context, atr)
  {
    hide ObstacleOf, InAtrs;
    ObstacleMirrors(side, context, total);
    var obstacle := ObstacleOf(side, context).obstacle;
    if obstacle.Some? {
      LocationSelection.ObstacleMeaning(side, context);
      DistancesMirror(side, context, obstacle.value, total, atr);
    }
  }

  lemma AnchorDistanceMirrors(side: Side, context: Context, total: real, atr: real)
    requires context.Valid() && atr > 0.0 && AnchorOf(side, context).Some?
    ensures DistanceAtr(MirrorContext(context, total), MirrorZone(AnchorOf(side, context).value, total), atr)
         == DistanceAtr(context, AnchorOf(side, context).value, atr)
  {
    hide AnchorOf;
    LocationSelection.AnchorMeaning(side, context);
    DistancesMirror(side, context, AnchorOf(side, context).value, total, atr);
  }

  /** The mirrored context's other side scores the same: raw, status, reasons, distances, factors and zone ids. */
  lemma ScoreMirrors(side: Side, context: Context, total: real)
    requires context.Valid() && MirrorContext(context, total).Valid()
    ensures ScoreOf(Opposite(side), MirrorContext(context, total))
         == match ScoreOf(side, context)
            case Err(error) => Err(error)
            case Ok(score) => Ok(MirrorScore(score, total))
  {
    hide AnchorOf, ObstacleOf, ClearanceAtr, DistanceAtr, ProximityFactor, ClearanceFactor, RawExact, RawOf, MirrorZone,
      MirrorZones;
    AnchorMirrors(side, context, total);
    ObstacleMirrors(side, context, total);
    if context.currentAtr.Some? {
      var atr := context.currentAtr.value;
      ClearanceMirrors(side, context, total, atr);
      if AnchorOf(side, context).Some? {
        AnchorDistanceMirrors(side, context, total, atr);
      }
    }
  }
}

/**
 Selecting a side's anchor and obstacle from a Location context, and the score built on them.  The two
 selection loops are proved to compute the lexicographic minima that `AnchorOf` and `ObstacleOf` name.
 */
module LocationScoring {
  import opened Common
  import opened LocationModel
  import Grid

  const RAW_MAX := 25

  function AnchorRole(side: Side): Role {
    if side == Buy then Support else Resistance
  }

  function ObstacleRole(side: Side): Role {
    if side == Buy then Resistance else Support
  }

  // ---------- candidates and their order ----------

  function Distance(price: real, low: real, high: real): real {
    if price < low then low - price else if price > high then price - high else 0.0
  }

  datatype Key = Key(distance: real, width: real, confirmedAt: int, id: ZoneId)

  /** Nearer first, then narrower, then confirmed later, then by id. */
  predicate Before(a: Key, b: Key) {
    if a.distance != b.distance then a.distance < b.distance
    else if a.width != b.width then a.width < b.width
    else if a.confirmedAt != b.confirmedAt then a.confirmedAt > b.confirmedAt
    else a.id != b.id && IdLeq(a.id, b.id)
  }

  datatype Candidate = Candidate(key: Key, zone: Zone)

  function CandidateFor(price: real, zone: Zone): Candidate {
    Candidate(Key(Distance(price, zone.low, zone.high), zone.high - zone.low, zone.confirmedAt, zone.id), zone)
  }

  /** What a zone is looked at for: to lean on, because the price is inside it, or because it lies ahead. */
  datatype Purpose = Anchoring | Containing | Ahead

  predicate Picks(purpose: Purpose, side: Side, price: real, cutoff: int, zone: Zone) {
    && zone.confirmedAt <= cutoff
    && match purpose
       case Anchoring =>
         && zone.role == AnchorRole(side) && zone.status == Active
         && (if side == Buy then price >= zone.low else price <= zone.high)
       case Containing =>
         && zone.role == ObstacleRole(side) && !Dead(zone.status)
         && zone.low <= price <= zone.high
       case Ahead =>
         && zone.role == ObstacleRole(side) && !Dead(zone.status)
         && (if side == Buy then price < zone.low else price > zone.high)
  }

  function Candidates(purpose: Purpose, side: Side, price: real, cutoff: int, zones: seq<Zone>): seq<Candidate> {
    if zones == [] then []
    else
      var last := zones[|zones| - 1];
      Candidates(purpose, side, price, cutoff, zones[..|zones| - 1])
      + if Picks(purpose, side, price, cutoff, last) then [CandidateFor(price, last)] else []
  }

  /** The first candidate that no other precedes. */
  function Best(candidates: seq<Candidate>): Candidate
    requires candidates != []
  {
    var n := |candidates| - 1;
    if n == 0 then candidates[0]
    else
      var earlier := Best(candidates[..n]);
      if Before(candidates[n].key, earlier.key) then candidates[n] else earlier
  }

  function Selected(purpose: Purpose, side: Side, context: Context): Option<Candidate> {
    var candidates := Candidates(purpose, side, context.referencePrice, context.cutoff, context.zones);
    if candidates == [] then None else Some(Best(candidates))
  }

  function ZoneIn(candidate: Option<Candidate>): Option<Zone> {
    if candidate.None? then None else Some(candidate.value.zone)
  }

  datatype ObstacleSelection = ObstacleSelection(obstacle: Option<Zone>, conflict: bool, clearance: Option<real>)

  function AnchorOf(side: Side, context: Context): Option<Zone> {
    ZoneIn(Selected(Anchoring, side, context))
  }

  function ObstacleOf(side: Side, context: Context): ObstacleSelection {
    var inside := Selected(Containing, side, context);
    var ahead := Selected(Ahead, side, context);
    if inside.Some? then ObstacleSelection(ZoneIn(inside), true, Some(0.0))
    else if ahead.Some? then ObstacleSelection(ZoneIn(ahead), false, Some(ahead.value.key.distance))
    else ObstacleSelection(None, false, None)
  }

  method SelectAnchor(side: Side, context: Context) returns (anchor: Option<Zone>)
    ensures anchor == AnchorOf(side, context)
  {
    hide Before, Best;
    var price, zones := context.referencePrice, context.zones;
    var candidates: seq<Candidate> := [];
    for k := 0 to |zones|
      invariant candidates == Candidates(Anchoring, side, price, context.cutoff, zones[..k])
    {
      var zone := zones[k];
      assert zones[..k + 1][..k] == zones[..k];
      if zone.role != AnchorRole(side) || zone.status != Active {
        continue;
      }
      if zone.confirmedAt > context.cutoff {
        continue;
      }
      if side == Buy && price < zone.low {
        continue;
      }
      if side == Sell && price > zone.high {
        continue;
      }
      var distance, width := Distance(price, zone.low, zone.high), zone.high - zone.low;
      candidates := candidates + [Candidate(Key(distance, width, zone.confirmedAt, zone.id), zone)];
    }
    assert zones[..|zones|] == zones;
    anchor := if candidates == [] then None else Some(Best(candidates).zone);
  }

  method SelectObstacle(side: Side, context: Context) returns (selection: ObstacleSelection)
    requires context.Valid()
    ensures selection == ObstacleOf(side, context)
  {
    hide Before, Best;
    var price, zones := context.referencePrice, context.zones;
    var inside: seq<Candidate> := [];
    var ahead: seq<Candidate> := [];
    for k := 0 to |zones|
      invariant inside == Candidates(Containing, side, price, context.cutoff, zones[..k])
      invariant ahead == Candidates(Ahead, side, price, context.cutoff, zones[..k])
    {
      var zone := zones[k];
      assert zones[..k + 1][..k] == zones[..k] && zone.Valid();
      if zone.role != ObstacleRole(side) {
        continue;
      }
      if zone.status != Active && zone.status != Suspect {
        continue;
      }
      if zone.confirmedAt > context.cutoff {
        continue;
      }
      if zone.low <= price <= zone.high {
        inside := inside + [Candidate(Key(0.0, zone.high - zone.low, zone.confirmedAt, zone.id), zone)];
        continue;
      }
      var clearance: real;
      if side == Buy && zone.low > price {
        clearance := zone.low - price;
      } else if side == Sell && zone.high < price {
        clearance := price - zone.high;
      } else {
        continue;
      }
      ahead := ahead + [Candidate(Key(clearance, zone.high - zone.low, zone.confirmedAt, zone.id), zone)];
    }
    assert zones[..|zones|] == zones;
    if inside != [] {
      selection := ObstacleSelection(Some(Best(inside).zone), true, Some(0.0));
    } else if ahead == [] {
      selection := ObstacleSelection(None, false, None);
    } else {
      var best := Best(ahead);
      selection := ObstacleSelection(Some(best.zone), false, Some(best.key.distance));
    }
  }

  // ---------- the score ----------

  function ForwardClearance(side: Side, price: real, obstacle: Zone): real {
    if side == Buy then obstacle.low - price else price - obstacle.high
  }

  function Clamp(x: real): real {
    if x < 0.0 then 0.0 else if x > 1.0 then 1.0 else x
  }

  function InAtrs(distance: real, atr: real): real
    requires atr > 0.0
  {
    distance / atr
  }

  function ProximityFactor(distanceAtr: real, config: Config): real
    requires config.Valid()
  {
    Clamp(1.0 - distanceAtr / config.proximityZeroAt)
  }

  function ClearanceFactor(clearanceAtr: Option<real>, config: Config): real
    requires config.Valid()
  {
    if clearanceAtr.None? then config.unknownClearance else Clamp(clearanceAtr.value / config.clearanceFullAt)
  }

  function RawExact(proximity: real, clearance: real): real {
    25.0 * Times(proximity, clearance)
  }

  function RawOf(x: real): int {
    var rounded := Grid.RoundHalfUp(x);
    if rounded < 0 then 0 else if rounded > RAW_MAX then RAW_MAX else rounded
  }

  datatype ResultStatus = Evaluated | LimitedContext | Conflict | NoValidAnchor | Unavailable

  datatype Reason = ConflictReason | NoAnchorReason | AnchorTooFar | LimitedContextReason | InvalidConfigReason | InvalidData

  datatype Score = Score(
    side: Side, raw: Option<int>, status: ResultStatus, reasons: seq<Reason>, referencePrice: real,
    referenceClosedAt: Option<int>, anchor: Option<Zone>, obstacle: Option<Zone>, distanceAtr: Option<real>,
    clearanceAtr: Option<real>, proximity: Option<real>, clearance: Option<real>, config: Config,
    rawExact: Option<real>, cutoff: int, barsConsidered: nat)
  {
    /** What construction checks. */
    predicate Valid() {
      && config.Valid() && referencePrice > 0.0 && barsConsidered > 0
      && (if status == Unavailable
          then raw.None? && distanceAtr.None? && clearanceAtr.None? && proximity.None? && clearance.None?
          else raw.Some? && 0 <= raw.value <= RAW_MAX)
      && (status == Conflict || status == NoValidAnchor ==> raw == Some(0))
      && NotNegative(distanceAtr) && NotNegative(clearanceAtr) && NotNegative(rawExact)
      && IsFactor(proximity) && IsFactor(clearance)
    }
  }

  predicate NotNegative(x: Option<real>) {
    x.Some? ==> x.value >= 0.0
  }

  predicate IsFactor(x: Option<real>) {
    x.Some? ==> 0.0 <= x.value <= 1.0
  }

  function ClearanceAtr(side: Side, context: Context, atr: real): Option<real>
    requires atr > 0.0
  {
    var obstacle := ObstacleOf(side, context).obstacle;
    if obstacle.None? then None
    else Some(InAtrs(ForwardClearance(side, context.referencePrice, obstacle.value), atr))
  }

  function DistanceAtr(context: Context, anchor: Zone, atr: real): real
    requires atr > 0.0
  {
    InAtrs(Distance(context.referencePrice, anchor.low, anchor.high), atr)
  }

  /** One side's score; an error where the source raises. */
  function ScoreOf(side: Side, context: Context): Result<Score, LocationError>
    requires context.Valid()
  {
    if context.currentAtr.None? then Err(AtrUnavailable)
    else
      var atr := context.currentAtr.value;
      var selection := ObstacleOf(side, context);
      var anchor := AnchorOf(side, context);
      var blank := Score(side, Some(0), Conflict, [ConflictReason], context.referencePrice, context.referenceClosedAt,
                         anchor, selection.obstacle, None, Some(0.0), None, Some(0.0), context.config, Some(0.0),
                         context.cutoff, context.barsConsidered);
      if selection.conflict then Ok(blank)
      else
        var clearanceAtr := ClearanceAtr(side, context, atr);
        var clearance := ClearanceFactor(clearanceAtr, context.config);
        if anchor.None? then
          Ok(blank.(status := NoValidAnchor, reasons := [NoAnchorReason], clearanceAtr := clearanceAtr,
                    clearance := Some(clearance)))
        else
          var distanceAtr := DistanceAtr(context, anchor.value, atr);
          var proximity := ProximityFactor(distanceAtr, context.config);
          var exact := RawExact(proximity, clearance);
          Ok(blank.(
            raw := Some(RawOf(exact)),
            status := if selection.obstacle.None? then LimitedContext else Evaluated,
            reasons := (if proximity == 0.0 then [AnchorTooFar] else [])
                       + (if selection.obstacle.None? then [LimitedContextReason] else []),
            distanceAtr := Some(distanceAtr), clearanceAtr := clearanceAtr,
            proximity := Some(proximity), clearance := Some(clearance), rawExact := Some(exact)))
  }

  /** The boundary form: an error becomes a result that carries no score. */
  function SafeScoreOf(side: Side, context: Context): Score
    requires context.Valid()
  {
    var strict := ScoreOf(side, context);
    if strict.Ok? then strict.value
    else
      Score(side, None, Unavailable, [if strict.error == InvalidConfig then InvalidConfigReason else InvalidData],
            context.referencePrice, context.referenceClosedAt, None, None, None, None, None, None, context.config, None,
            context.cutoff, context.barsConsidered)
  }
}

/**
 Bounds and monotonicity of the score.  The raw score is the nearest integer to 25 times its two factors;
 further anchors never lower it and further obstacles never raise it, except that the first obstacle may.
 */
module LocationMonotonicity {
  import opened Common
  import opened LocationModel
  import opened LocationScoring
  import LocationSelection

  // ---------- rounding and factors ----------

  /** The nearest integer, ties upwards. */
  lemma RawIsNearest(x: real)
    requires 0.0 <= x <= 25.0
    ensures 0 <= RawOf(x) <= RAW_MAX
    ensures RawOf(x) as real - 0.5 <= x < RawOf(x) as real + 0.5
  {
  }

  lemma RawIsMonotone(x: real, y: real)
    requires 0.0 <= x <= y
    ensures RawOf(x) <= RawOf(y)
  {
  }

  lemma QuotientOrder(x: real, y: real, d: real)
    requires d > 0.0
    ensures x < y <==> x / d < y / d
    ensures x >= 0.0 <==> x / d >= 0.0
  {
    var p, q := x / d, y / d;
    assert p * d == x && q * d == y;
  }

  lemma ProductSign(a: real, b: real)
    requires a >= 0.0 && b >= 0.0
    ensures a * b >= 0.0
    ensures a * b > 0.0 <==> a > 0.0 && b > 0.0
  {
  }

  lemma ProductDifference(a: real, b: real, c: real)
    ensures c * (b - a) == c * b - c * a
    ensures (b - a) * c == b * c - a * c
  {
  }

  lemma ProximityFalls(near: real, far: real, config: Config)
    requires config.Valid() && near <= far
    ensures ProximityFactor(near, config) >= ProximityFactor(far, config)
    ensures 0.0 <= ProximityFactor(near, config) <= 1.0
  {
    QuotientOrder(far, near, config.proximityZeroAt);
  }

  lemma ClearanceRises(near: real, far: real, config: Config)
    requires config.Valid() && near <= far
    ensures ClearanceFactor(Some(near), config) <= ClearanceFactor(Some(far), config)
    ensures 0.0 <= ClearanceFactor(Some(near), config) <= 1.0
  {
    QuotientOrder(far, near, config.clearanceFullAt);
  }

  lemma ProductRises(p: real, c: real, p': real, c': real)
    requires 0.0 <= p <= p' <= 1.0 && 0.0 <= c <= c' <= 1.0
    ensures 0.0 <= Times(p, c) <= Times(p', c') <= 1.0
  {
    ProductSign(p, c);
    ProductSign(p, c' - c);
    ProductDifference(c, c', p);
    ProductSign(p' - p, c');
    ProductDifference(p, p', c');
    ProductSign(1.0 - p', c');
    ProductDifference(p', 1.0, c');
    var x, y, z := p * c, p * c', p' * c';
    assert p * (c' - c) == y - x;
    assert (p' - p) * c' == z - y;
    assert (1.0 - p') * c' == c' - z;
  }

  lemma ExactRises(p: real, c: real, p': real, c': real)
    requires 0.0 <= p <= p' <= 1.0 && 0.0 <= c <= c' <= 1.0
    ensures 0.0 <= RawExact(p, c) <= RawExact(p', c') <= 25.0
  {
    ProductRises(p, c, p', c');
    hide Times;
  }

  lemma ProductRisesStrictly(p: real, c: real, d: real)
    requires p >= 0.0 && c <= d
    ensures Times(p, c) <= Times(p, d)
    ensures Times(p, c) < Times(p, d) <==> p > 0.0 && c < d
  {
    var x, y, z := p * c, p * d, p * (d - c);
    ProductDifference(c, d, p);
    assert z == y - x;
    ProductSign(p, d - c);
  }

  lemma ExactStrict(p: real, c: real, c': real)
    requires 0.0 <= p
    ensures RawExact(p, c) < RawExact(p, c') <==> p > 0.0 && c < c'
  {
    hide Times;
    if c <= c' {
      ProductRisesStrictly(p, c, c');
    } else {
      ProductRisesStrictly(p, c', c);
    }
  }

  // ---------- the shape of a score ----------

  predicate Scorable(context: Context) {
    context.Valid() && context.currentAtr.Some?
  }

  function Raw(side: Side, context: Context): int
    requires Scorable(context)
  {
    ScoreOf(side, context).value.raw.value
  }

  function Proximity(side: Side, context: Context): real
    requires Scorable(context) && AnchorOf(side, context).Some?
  {
    ProximityFactor(DistanceAtr(context, AnchorOf(side, context).value, context.currentAtr.value), context.config)
  }

  function Clearance(side: Side, context: Context): real
    requires Scorable(context)
  {
    ClearanceFactor(ClearanceAtr(side, context, context.currentAtr.value), context.config)
  }

  /** A side that can lean on an anchor and is not inside an opposing zone. */
  predicate Scores(side: Side, context: Context) {
    !ObstacleOf(side, context).conflict && AnchorOf(side, context).Some?
  }

  lemma RawMeaning(side: Side, context: Context)
    requires Scorable(context)
    ensures Raw(side, context)
         == if Scores(side, context) then RawOf(RawExact(Proximity(side, context), Clearance(side, context))) else 0
  {
    hide AnchorOf, ObstacleOf, DistanceAtr, ClearanceAtr, ProximityFactor, ClearanceFactor, RawExact, RawOf;
  }

  lemma AnchorDistance(side: Side, context: Context)
    requires Scorable(context) && AnchorOf(side, context).Some?
    ensures DistanceAtr(context, AnchorOf(side, context).value, context.currentAtr.value) >= 0.0
    ensures 0.0 <= Proximity(side, context) <= 1.0
  {
    hide AnchorOf, ProximityFactor;
    var anchor, atr := AnchorOf(side, context).value, context.currentAtr.value;
    var distance := DistanceAtr(context, anchor, atr);
    QuotientOrder(Distance(context.referencePrice, anchor.low, anchor.high), 0.0, atr);
    ProximityFalls(distance, distance, context.config);
  }

  lemma ObstacleClearance(side: Side, context: Context)
    requires Scorable(context) && !ObstacleOf(side, context).conflict
    ensures ClearanceAtr(side, context, context.currentAtr.value).Some? ==>
              ClearanceAtr(side, context, context.currentAtr.value).value >= 0.0
    ensures 0.0 <= Clearance(side, context) <= 1.0
  {
    hide ObstacleOf, ClearanceFactor;
    var obstacle, atr := ObstacleOf(side, context).obstacle, context.currentAtr.value;
    LocationSelection.ObstacleMeaning(side, context);
    if obstacle.None? {
      UnknownIsAFactor(context.config);
    } else {
      var clearance := ClearanceAtr(side, context, atr).value;
      QuotientOrder(ForwardClearance(side, context.referencePrice, obstacle.value), 0.0, atr);
      ClearanceRises(clearance, clearance, context.config);
    }
  }

  lemma UnknownIsAFactor(config: Config)
    requires config.Valid()
    ensures 0.0 <= ClearanceFactor(None, config) < 1.0
  {
  }

  /** Scoring always yields a result that passes its own validation, and fails only without a current ATR. */
  lemma ScoreIsValid(side: Side, context: Context)
    requires context.Valid()
    ensures ScoreOf(side, context).Ok? <==> context.currentAtr.Some?
    ensures SafeScoreOf(side, context).Valid()
    ensures SafeScoreOf(side, context).status == Unavailable <==> context.currentAtr.None?
  {
    hide AnchorOf, ObstacleOf, DistanceAtr, ClearanceAtr, ProximityFactor, ClearanceFactor, RawExact, RawOf;
    if context.currentAtr.Some? && !ObstacleOf(side, context).conflict {
      ObstacleClearance(side, context);
      if AnchorOf(side, context).Some? {
        AnchorDistance(side, context);
        RawIsWithinHalf(side, context);
      }
    }
  }

  /** The raw score is within one half of 25 times proximity times clearance. */
  lemma RawIsWithinHalf(side: Side, context: Context)
    requires Scorable(context)
    ensures 0 <= Raw(side, context) <= RAW_MAX
    ensures Scores(side, context) ==>
              var exact := RawExact(Proximity(side, context), Clearance(side, context));
              0.0 <= exact <= 25.0 && Raw(side, context) as real - 0.5 <= exact < Raw(side, context) as real + 0.5
  {
    hide AnchorOf, ObstacleOf, Proximity, Clearance, RawExact, RawOf, ScoreOf;
    RawMeaning(side, context);
    if Scores(side, context) {
      AnchorDistance(side, context);
      ObstacleClearance(side, context);
      var p, c := Proximity(side, context), Clearance(side, context);
      ExactRises(p, c, p, c);
      RawIsNearest(RawExact(p, c));
    }
  }

  // ---------- more zones ----------

  /** `after` holds every zone of `before`, and any others are of the given role. */
  ghost predicate AddsOnly(role: Role, before: seq<Zone>, after: seq<Zone>) {
    (forall z :: z in before ==> z in after) && (forall z :: z in after && z.role != role ==> z in before)
  }

  ghost predicate SameExceptZones(a: Context, b: Context) {
    b == a.(zones := b.zones)
  }

  /** Every zone of a role in `a` is in `b`. */
  ghost predicate HoldsAll(role: Role, a: seq<Zone>, b: seq<Zone>) {
    forall z :: z in a && z.role == role ==> z in b
  }

  lemma NotBeforeMeansNoNearer(a: Key, b: Key)
    requires !Before(a, b)
    ensures b.distance <= a.distance
  {
  }

  lemma PicksRole(purpose: Purpose, side: Side, price: real, cutoff: int, zone: Zone)
    ensures Picks(purpose, side, price, cutoff, zone) ==>
              zone.role == if purpose == Anchoring then AnchorRole(side) else ObstacleRole(side)
  {
  }

  lemma NearerSelection(purpose: Purpose, side: Side, a: Context, b: Context)
    requires SameExceptZones(a, b)
    requires HoldsAll(if purpose == Anchoring then AnchorRole(side) else ObstacleRole(side), a.zones, b.zones)
    ensures Selected(purpose, side, a).Some? ==>
              && Selected(purpose, side, b).Some?
              && Selected(purpose, side, b).value.key.distance <= Selected(purpose, side, a).value.key.distance
  {
    hide Picks, Before, Selected;
    LocationSelection.SelectedMeaning(purpose, side, a);
    LocationSelection.SelectedMeaning(purpose, side, b);
    var x, y := Selected(purpose, side, a), Selected(purpose, side, b);
    if x.Some? {
      PicksRole(purpose, side, a.referencePrice, a.cutoff, x.value.zone);
      assert y.Some?;
      NotBeforeMeansNoNearer(x.value.key, y.value.key);
    }
  }

  lemma SelectedDistance(purpose: Purpose, side: Side, context: Context)
    requires context.Valid() && Selected(purpose, side, context).Some?
    ensures var c := Selected(purpose, side, context).value;
            && c.key.distance == Distance(context.referencePrice, c.zone.low, c.zone.high)
            && (purpose == Ahead ==> c.key.distance == ForwardClearance(side, context.referencePrice, c.zone))
  {
    LocationSelection.SelectedMeaning(purpose, side, context);
    hide Selected;
    var c := Selected(purpose, side, context).value;
    if purpose == Ahead {
      LocationSelection.AheadDistance(side, context.referencePrice, context.cutoff, c.zone);
    }
  }

  /** With more anchors to choose from, the anchor is no farther. */
  lemma ProximityGrows(side: Side, a: Context, b: Context)
    requires Scorable(a) && Scorable(b) && SameExceptZones(a, b) && HoldsAll(AnchorRole(side), a.zones, b.zones)
    ensures AnchorOf(side, a).Some? ==> AnchorOf(side, b).Some? && Proximity(side, a) <= Proximity(side, b)
  {
    hide Selected, ProximityFactor, Distance;
    NearerSelection(Anchoring, side, a, b);
    if AnchorOf(side, a).Some? {
      SelectedDistance(Anchoring, side, a);
      SelectedDistance(Anchoring, side, b);
      var x, y, atr := AnchorOf(side, a).value, AnchorOf(side, b).value, a.currentAtr.value;
      QuotientOrder(Distance(a.referencePrice, x.low, x.high), Distance(a.referencePrice, y.low, y.high), atr);
      ProximityFalls(DistanceAtr(b, y, atr), DistanceAtr(a, x, atr), a.config);
    }
  }

  /** With more obstacles around, a conflict stays one, and the obstacle ahead is no farther. */
  lemma ClearanceShrinks(side: Side, a: Context, b: Context)
    requires Scorable(a) && Scorable(b) && SameExceptZones(a, b) && HoldsAll(ObstacleRole(side), a.zones, b.zones)
    ensures ObstacleOf(side, a).conflict ==> ObstacleOf(side, b).conflict
    ensures ObstacleOf(side, a).obstacle.Some? ==> ObstacleOf(side, b).obstacle.Some?
    ensures ObstacleOf(side, a).obstacle.Some? && !ObstacleOf(side, b).conflict ==>
              Clearance(side, b) <= Clearance(side, a)
  {
    hide Selected, ClearanceFactor, ForwardClearance;
    NearerSelection(Containing, side, a, b);
    NearerSelection(Ahead, side, a, b);
    if ObstacleOf(side, a).obstacle.Some? && !ObstacleOf(side, b).conflict {
      SelectedDistance(Ahead, side, a);
      SelectedDistance(Ahead, side, b);
      var x, y := ObstacleOf(side, a).obstacle.value, ObstacleOf(side, b).obstacle.value;
      var atr := a.currentAtr.value;
      QuotientOrder(ForwardClearance(side, a.referencePrice, x), ForwardClearance(side, a.referencePrice, y), atr);
      ClearanceRises(ClearanceAtr(side, b, atr).value, ClearanceAtr(side, a, atr).value, a.config);
    }
  }

  lemma RawFollowsFactors(side: Side, a: Context, b: Context)
    requires Scorable(a) && Scorable(b) && Scores(side, a) && Scores(side, b)
    requires Proximity(side, a) <= Proximity(side, b) && Clearance(side, a) <= Clearance(side, b)
    ensures Raw(side, a) <= Raw(side, b)
  {
    hide AnchorOf, ObstacleOf, Proximity, Clearance, RawExact, RawOf, ScoreOf;
    RawMeaning(side, a);
    RawMeaning(side, b);
    AnchorDistance(side, a);
    AnchorDistance(side, b);
    ObstacleClearance(side, a);
    ObstacleClearance(side, b);
    var p, c, p', c' := Proximity(side, a), Clearance(side, a), Proximity(side, b), Clearance(side, b);
    ExactRises(p, c, p', c');
    RawIsMonotone(RawExact(p, c), RawExact(p', c'));
  }

  /** Further zones to lean on never lower a side's score, wherever in the list they stand. */
  lemma MoreAnchorsNeverLower(side: Side, a: Context, b: Context)
    requires Scorable(a) && Scorable(b) && SameExceptZones(a, b) && AddsOnly(AnchorRole(side), a.zones, b.zones)
    ensures Raw(side, a) <= Raw(side, b)
  {
    hide AnchorOf, ObstacleOf, Proximity, Clearance, ScoreOf;
    assert HoldsAll(ObstacleRole(side), a.zones, b.zones) && HoldsAll(ObstacleRole(side), b.zones, a.zones);
    ProximityGrows(side, a, b);
    ClearanceShrinks(side, a, b);
    ClearanceShrinks(side, b, a);
    RawMeaning(side, a);
    if Scores(side, a) {
      if ObstacleOf(side, a).obstacle.None? {
        NoObstacleNoClearance(side, a, b);
      }
      RawFollowsFactors(side, a, b);
    } else {
      RawIsWithinHalf(side, b);
    }
  }

  lemma NoObstacleNoClearance(side: Side, a: Context, b: Context)
    requires Scorable(a) && Scorable(b) && SameExceptZones(a, b)
    requires ObstacleOf(side, a).obstacle.None? && ObstacleOf(side, b).obstacle.None?
    ensures Clearance(side, a) == Clearance(side, b)
  {
    hide ObstacleOf;
  }

  /** Once a side has an obstacle, further opposing zones never raise its score. */
  lemma MoreObstaclesNeverRaise(side: Side, a: Context, b: Context)
    requires Scorable(a) && Scorable(b) && SameExceptZones(a, b) && AddsOnly(ObstacleRole(side), a.zones, b.zones)
    requires ObstacleOf(side, a).obstacle.Some?
    ensures Raw(side, b) <= Raw(side, a)
  {
    hide AnchorOf, ObstacleOf, Proximity, Clearance, ScoreOf;
    assert HoldsAll(AnchorRole(side), a.zones, b.zones) && HoldsAll(AnchorRole(side), b.zones, a.zones);
    ProximityGrows(side, a, b);
    ProximityGrows(side, b, a);
    ClearanceShrinks(side, a, b);
    RawMeaning(side, b);
    if Scores(side, b) {
      RawFollowsFactors(side, b, a);
    } else {
      RawIsWithinHalf(side, a);
    }
  }

  /**
   The first obstacle replaces the factor for unknown clearance.  It raises the exact score precisely when the
   anchor is in reach and the obstacle is farther away than the unknown factor stands for.
   */
  lemma FirstObstacleRaisesIff(side: Side, a: Context, b: Context)
    requires Scorable(a) && Scorable(b) && SameExceptZones(a, b) && AddsOnly(ObstacleRole(side), a.zones, b.zones)
    requires Scores(side, a) && Scores(side, b)
    requires ObstacleOf(side, a).obstacle.None? && ObstacleOf(side, b).obstacle.Some?
    ensures ScoreOf(side, b).value.rawExact.value > ScoreOf(side, a).value.rawExact.value
       <==> Proximity(side, a) > 0.0
            && ClearanceAtr(side, b, b.currentAtr.value).value / b.config.clearanceFullAt > a.config.unknownClearance
  {
    assert HoldsAll(AnchorRole(side), a.zones, b.zones) && HoldsAll(AnchorRole(side), b.zones, a.zones);
    ProximityGrows(side, a, b);
    ProximityGrows(side, b, a);
    AnchorDistance(side, a);
    ExactStrict(Proximity(side, a), Clearance(side, a), Clearance(side, b));
    hide AnchorOf, ObstacleOf, DistanceAtr, RawExact, RawOf;
  }

  /** The score before rounding. */
  function Exact(side: Side, context: Context): real
    requires Scorable(context)
  {
    ScoreOf(side, context).value.rawExact.value
  }

  lemma ExactMeaning(side: Side, context: Context)
    requires Scorable(context)
    ensures Exact(side, context)
         == if Scores(side, context) then RawExact(Proximity(side, context), Clearance(side, context)) else 0.0
    ensures Raw(side, context) == RawOf(Exact(side, context))
    ensures Exact(side, context) >= 0.0
  {
    hide AnchorOf, ObstacleOf, DistanceAtr, ClearanceAtr, ProximityFactor, ClearanceFactor, RawExact;
    if Scores(side, context) {
      AnchorDistance(side, context);
      ObstacleClearance(side, context);
      ExactRises(Proximity(side, context), Clearance(side, context), Proximity(side, context), Clearance(side, context));
    }
  }

  /** The first opposing zone of a side that can lean on something in reach, worth more than unknown clearance. */
  predicate FirstObstacleIsFar(side: Side, a: Context, b: Context)
    requires Scorable(a) && Scorable(b)
  {
    && Scores(side, a) && Scores(side, b)
    && ObstacleOf(side, a).obstacle.None? && ObstacleOf(side, b).obstacle.Some?
    && Proximity(side, a) > 0.0
    && ClearanceAtr(side, b, b.currentAtr.value).value / b.config.clearanceFullAt > a.config.unknownClearance
  }

  lemma ExactFollowsFactors(side: Side, a: Context, b: Context)
    requires Scorable(a) && Scorable(b) && Scores(side, a) && Scores(side, b)
    requires Proximity(side, a) <= Proximity(side, b) && Clearance(side, a) <= Clearance(side, b)
    ensures Exact(side, a) <= Exact(side, b)
  {
    hide AnchorOf, ObstacleOf, Proximity, Clearance, RawExact, RawOf, ScoreOf, Exact;
    ExactMeaning(side, a);
    ExactMeaning(side, b);
    AnchorDistance(side, a);
    AnchorDistance(side, b);
    ObstacleClearance(side, a);
    ObstacleClearance(side, b);
    ExactRises(Proximity(side, a), Clearance(side, a), Proximity(side, b), Clearance(side, b));
  }

  /** Of all further opposing zones only a far first one raises the score before rounding, and such a one always does. */
  lemma FurtherObstaclesRaiseExactIff(side: Side, a: Context, b: Context)
    requires Scorable(a) && Scorable(b) && SameExceptZones(a, b) && AddsOnly(ObstacleRole(side), a.zones, b.zones)
    ensures Exact(side, b) > Exact(side, a) <==> FirstObstacleIsFar(side, a, b)
  {
    hide AnchorOf, ObstacleOf, Proximity, Clearance, ScoreOf, RawExact, RawOf, ClearanceAtr;
    assert HoldsAll(AnchorRole(side), a.zones, b.zones) && HoldsAll(AnchorRole(side), b.zones, a.zones);
    ProximityGrows(side, a, b);
    ProximityGrows(side, b, a);
    ClearanceShrinks(side, a, b);
    ExactMeaning(side, a);
    ExactMeaning(side, b);
    if Scores(side, a) && Scores(side, b) {
      if ObstacleOf(side, a).obstacle.Some? {
        ExactFollowsFactors(side, b, a);
      } else if ObstacleOf(side, b).obstacle.None? {
        NoObstacleNoClearance(side, a, b);
        ExactFollowsFactors(side, b, a);
      } else {
        FirstObstacleRaisesIff(side, a, b);
      }
    }
  }

  /** A further opposing zone never raises the score of a side, unless it is a far first one. */
  lemma FurtherObstaclesRaiseOnlyIfFar(side: Side, a: Context, b: Context)
    requires Scorable(a) && Scorable(b) && SameExceptZones(a, b) && AddsOnly(ObstacleRole(side), a.zones, b.zones)
    ensures Raw(side, b) > Raw(side, a) ==> FirstObstacleIsFar(side, a, b)
  {
    hide Raw, Exact, FirstObstacleIsFar, RawOf;
    FurtherObstaclesRaiseExactIff(side, a, b);
    ExactMeaning(side, a);
    ExactMeaning(side, b);
    if Exact(side, b) <= Exact(side, a) {
      RawIsMonotone(Exact(side, b), Exact(side, a));
    }
  }

  // The default configuration, a support touching the price and a resistance ten ATRs ahead.
  const DEFAULT_CONFIG := Config(2, 240, 0.15, 1.0, 2, 0.10, 120, 1.0, 1.0, 0.5)
  const FLOOR_ZONE := Zone(ZoneId(Support, 0), Support, 99.0, 100.0, 0, 10, 1.0, Active)
  const CEILING_ZONE := Zone(ZoneId(Resistance, 5), Resistance, 110.0, 111.0, 5, 15, 1.0, Active)
  const WITHOUT_CEILING := Context(100.0, None, 20, Some(1.0), [FLOOR_ZONE], 60, DEFAULT_CONFIG, None)
  const WITH_CEILING := WITHOUT_CEILING.(zones := [FLOOR_ZONE, CEILING_ZONE])

  lemma OneMoreZone(purpose: Purpose, zones: seq<Zone>, last: Zone)
    ensures Candidates(purpose, Buy, 100.0, 20, []) == []
    ensures Candidates(purpose, Buy, 100.0, 20, zones + [last])
         == Candidates(purpose, Buy, 100.0, 20, zones)
            + if Picks(purpose, Buy, 100.0, 20, last) then [CandidateFor(100.0, last)] else []
  {
    assert (zones + [last])[..|zones|] == zones;
  }

  lemma ExampleCandidates(purpose: Purpose)
    ensures Candidates(purpose, Buy, 100.0, 20, [FLOOR_ZONE])
         == if purpose == Anchoring then [CandidateFor(100.0, FLOOR_ZONE)] else []
    ensures Candidates(purpose, Buy, 100.0, 20, [FLOOR_ZONE, CEILING_ZONE])
         == match purpose
            case Anchoring => [CandidateFor(100.0, FLOOR_ZONE)]
            case Containing => []
            case Ahead => [CandidateFor(100.0, CEILING_ZONE)]
  {
    var none: seq<Zone> := [];
    OneMoreZone(purpose, none, FLOOR_ZONE);
    OneMoreZone(purpose, [FLOOR_ZONE], CEILING_ZONE);
    assert none + [FLOOR_ZONE] == [FLOOR_ZONE] && [FLOOR_ZONE] + [CEILING_ZONE] == [FLOOR_ZONE, CEILING_ZONE];
    hide Candidates;
  }

  lemma ExampleSelections()
    ensures AnchorOf(Buy, WITHOUT_CEILING) == Some(FLOOR_ZONE) && AnchorOf(Buy, WITH_CEILING) == Some(FLOOR_ZONE)
    ensures ObstacleOf(Buy, WITHOUT_CEILING) == ObstacleSelection(None, false, None)
    ensures ObstacleOf(Buy, WITH_CEILING) == ObstacleSelection(Some(CEILING_ZONE), false, Some(10.0))
  {
    ExampleCandidates(Anchoring);
    ExampleCandidates(Containing);
    ExampleCandidates(Ahead);
    hide Candidates, Picks;
  }

  lemma ExampleFactors()
    requires AnchorOf(Buy, WITHOUT_CEILING) == Some(FLOOR_ZONE) && AnchorOf(Buy, WITH_CEILING) == Some(FLOOR_ZONE)
    requires ObstacleOf(Buy, WITHOUT_CEILING) == ObstacleSelection(None, false, None)
    requires ObstacleOf(Buy, WITH_CEILING) == ObstacleSelection(Some(CEILING_ZONE), false, Some(10.0))
    ensures Proximity(Buy, WITHOUT_CEILING) == 1.0 && Proximity(Buy, WITH_CEILING) == 1.0
    ensures Clearance(Buy, WITHOUT_CEILING) == 0.5 && Clearance(Buy, WITH_CEILING) == 1.0
  {
    hide AnchorOf, ObstacleOf;
  }

  lemma ExampleRaws()
    ensures RawOf(RawExact(1.0, 0.5)) == 13 && RawOf(RawExact(1.0, 1.0)) == 25
  {
    assert Times(1.0, 0.5) == 0.5 && Times(1.0, 1.0) == 1.0;
    hide Times;
    assert RawExact(1.0, 0.5) == 12.5 && RawExact(1.0, 1.0) == 25.0;
  }

  lemma RawFromFactors(side: Side, context: Context, anchor: Zone, selection: ObstacleSelection, p: real, c: real)
    requires Scorable(context)
    requires AnchorOf(side, context) == Some(anchor) && ObstacleOf(side, context) == selection && !selection.conflict
    requires Proximity(side, context) == p && Clearance(side, context) == c
    ensures Raw(side, context) == RawOf(RawExact(p, c))
  {
    hide AnchorOf, ObstacleOf, Proximity, Clearance, RawOf, RawExact, Raw, Scorable;
    RawMeaning(side, context);
  }

  lemma ExampleIsScorable()
    ensures Scorable(WITHOUT_CEILING) && Scorable(WITH_CEILING)
  {
  }

  /** A far first obstacle does raise the rounded score. */
  lemma FirstObstacleCanRaise()
    ensures Scorable(WITHOUT_CEILING) && Scorable(WITH_CEILING)
    ensures Raw(Buy, WITHOUT_CEILING) == 13 && Raw(Buy, WITH_CEILING) == 25
  {
    hide *;
    ExampleIsScorable();
    ExampleSelections();
    ExampleFactors();
    ExampleRaws();
    RawFromFactors(Buy, WITHOUT_CEILING, FLOOR_ZONE, ObstacleSelection(None, false, None), 1.0, 0.5);
    RawFromFactors(Buy, WITH_CEILING, FLOOR_ZONE, ObstacleSelection(Some(CEILING_ZONE), false, Some(10.0)), 1.0, 1.0);
  }
}

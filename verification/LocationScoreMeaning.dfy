/** What a Location score says about the market: its status, its reasons and the ends of its two factors. */
module LocationScoreMeaning {
  import opened Common
  import opened LocationModel
  import opened LocationScoring
  import opened LocationSelection
  import opened LocationMonotonicity
  import opened LocationChoice
  import Grid

  lemma RatioAgainst(x: real, atr: real, limit: real)
    requires atr > 0.0 && limit > 0.0
    ensures InAtrs(x, atr) / limit >= 1.0 <==> x >= limit * atr
    ensures InAtrs(x, atr) / limit <= 0.0 <==> x <= 0.0
  {
    var q := InAtrs(x, atr);
    Grid.DivMul(x, atr);
    Grid.DivMul(q, limit);
    Grid.MulStrict(q / limit, 1.0, limit);
    Grid.MulStrict(0.0, q / limit, limit);
    Grid.MulStrict(q, limit, atr);
    Grid.MulStrict(0.0, q, atr);
  }

  /** Proximity is full only at the anchor itself and gone from `proximityZeroAt` ATRs on. */
  lemma ProximityMeaning(distance: real, atr: real, config: Config)
    requires config.Valid() && atr > 0.0 && distance >= 0.0
    ensures ProximityFactor(InAtrs(distance, atr), config) == 1.0 <==> distance == 0.0
    ensures ProximityFactor(InAtrs(distance, atr), config) == 0.0 <==> distance >= Times(config.proximityZeroAt, atr)
  {
    RatioAgainst(distance, atr, config.proximityZeroAt);
    hide InAtrs;
  }

  /** Clearance is full from `clearanceFullAt` ATRs on and gone only where there is none. */
  lemma ClearanceMeaning(clearance: real, atr: real, config: Config)
    requires config.Valid() && atr > 0.0 && clearance >= 0.0
    ensures ClearanceFactor(Some(InAtrs(clearance, atr)), config) == 1.0 <==> clearance >= Times(config.clearanceFullAt, atr)
    ensures ClearanceFactor(Some(InAtrs(clearance, atr)), config) == 0.0 <==> clearance == 0.0
  {
    RatioAgainst(clearance, atr, config.clearanceFullAt);
    hide InAtrs;
  }

  ghost predicate Any(purpose: Purpose, side: Side, context: Context) {
    exists z :: z in context.zones && Picks(purpose, side, context.referencePrice, context.cutoff, z)
  }

  lemma SelectedIffAny(purpose: Purpose, side: Side, context: Context)
    ensures Selected(purpose, side, context).Some? <==> Any(purpose, side, context)
  {
    SelectedMeaning(purpose, side, context);
    hide Selected, Picks, Before, CandidateFor;
  }

  /** The status of a score is a statement about which zones exist. */
  lemma StatusMeaning(side: Side, context: Context)
    requires Scorable(context)
    ensures var score := ScoreOf(side, context).value;
            var inside, anchored, ahead := Any(Containing, side, context), Any(Anchoring, side, context),
                                           Any(Ahead, side, context);
            && (score.status == Conflict <==> inside)
            && (score.status == NoValidAnchor <==> !inside && !anchored)
            && (score.status == LimitedContext <==> !inside && anchored && !ahead)
            && (score.status == Evaluated <==> !inside && anchored && ahead)
            && (score.raw != Some(0) ==> score.status == LimitedContext || score.status == Evaluated)
  {
    hide Selected, Any, DistanceAtr, ClearanceAtr, ProximityFactor, ClearanceFactor, RawExact, RawOf;
    SelectedIffAny(Containing, side, context);
    SelectedIffAny(Anchoring, side, context);
    SelectedIffAny(Ahead, side, context);
  }

  /** Every zone to lean on is at least `reach` away. */
  ghost predicate AllAnchorsBeyond(side: Side, context: Context, reach: real) {
    forall z :: z in context.zones && Picks(Anchoring, side, context.referencePrice, context.cutoff, z) ==>
      Distance(context.referencePrice, z.low, z.high) >= reach
  }

  lemma NearestDecides(side: Side, context: Context, reach: real)
    requires AnchorOf(side, context).Some?
    ensures var a := AnchorOf(side, context).value;
            Distance(context.referencePrice, a.low, a.high) >= reach <==> AllAnchorsBeyond(side, context, reach)
  {
    hide AnchorOf, Picks, Distance;
    AnchorMeaning(side, context);
    var a := AnchorOf(side, context).value;
    forall z | z in context.zones && Picks(Anchoring, side, context.referencePrice, context.cutoff, z)
      ensures Distance(context.referencePrice, a.low, a.high) <= Distance(context.referencePrice, z.low, z.high)
    {
      NotBeforeMeansNoNearer(CandidateFor(context.referencePrice, z).key, CandidateFor(context.referencePrice, a).key);
    }
  }

  lemma TooFarIsZeroProximity(side: Side, context: Context)
    requires Scorable(context)
    ensures AnchorTooFar in ScoreOf(side, context).value.reasons <==>
              Scores(side, context) && Proximity(side, context) == 0.0
  {
    hide AnchorOf, ObstacleOf, DistanceAtr, ClearanceAtr, ProximityFactor, ClearanceFactor, RawExact, RawOf;
  }

  lemma ScoresIff(side: Side, context: Context)
    ensures Scores(side, context) <==> !Any(Containing, side, context) && Any(Anchoring, side, context)
  {
    hide Selected, Any;
    SelectedIffAny(Containing, side, context);
    SelectedIffAny(Anchoring, side, context);
  }

  /** "Anchor too far" is reported exactly when a side is scored and every anchor is out of reach; it then scores zero. */
  lemma TooFarMeaning(side: Side, context: Context)
    requires Scorable(context)
    ensures AnchorTooFar in ScoreOf(side, context).value.reasons <==>
              && !Any(Containing, side, context) && Any(Anchoring, side, context)
              && AllAnchorsBeyond(side, context, Times(context.config.proximityZeroAt, context.currentAtr.value))
    ensures AnchorTooFar in ScoreOf(side, context).value.reasons ==> Raw(side, context) == 0
  {
    hide Times, AnchorOf, ObstacleOf, Any, Distance, InAtrs, ProximityFactor, RawExact, RawOf, AllAnchorsBeyond, ScoreOf, Raw, Clearance;
    TooFarIsZeroProximity(side, context);
    ScoresIff(side, context);
    RawMeaning(side, context);
    if Scores(side, context) {
      var anchor, atr := AnchorOf(side, context).value, context.currentAtr.value;
      NearestDecides(side, context, Times(context.config.proximityZeroAt, atr));
      DistanceIsNotNegative(context.referencePrice, anchor.low, anchor.high);
      ProximityMeaning(Distance(context.referencePrice, anchor.low, anchor.high), atr, context.config);
      NothingLeft(Clearance(side, context));
    }
  }

  lemma DistanceIsNotNegative(price: real, low: real, high: real)
    ensures Distance(price, low, high) >= 0.0
  {
  }

  lemma NothingLeft(clearance: real)
    ensures RawOf(RawExact(0.0, clearance)) == 0
  {
    assert Times(0.0, clearance) == 0.0;
  }

  // ---------- the score on prices ----------

  /** What is left of a reach at a distance, as a share of it. */
  function ShareLeft(distance: real, reach: real): real
    requires reach > 0.0
  {
    if distance >= reach then 0.0 else (reach - distance) / reach
  }

  /** The part of a room that a clearance fills, at most all of it. */
  function ShareFilled(clearance: real, room: real): real
    requires room > 0.0
  {
    if clearance >= room then 1.0 else clearance / room
  }

  lemma TimesPositive(a: real, b: real)
    requires a > 0.0 && b > 0.0
    ensures Times(a, b) > 0.0
  {
  }

  /** Dividing by ATR and then by a number of ATRs is dividing by the distance that makes. */
  lemma QuotientOfQuotient(x: real, atr: real, count: real)
    requires atr > 0.0 && count > 0.0
    ensures Times(count, atr) > 0.0 && InAtrs(x, atr) / count == x / Times(count, atr)
  {
    TimesPositive(count, atr);
    var reach := Times(count, atr);
    var q := InAtrs(x, atr);
    var r := q / count;
    Grid.DivMul(x, atr);
    Grid.DivMul(q, count);
    Grid.DivMul(x, reach);
    Regrouped(r, count, atr);
    assert q * atr == x && r * count == q;
    assert r * reach == x;
    Grid.MulEqual(r, x / reach, reach);
  }

  lemma Regrouped(r: real, count: real, atr: real)
    ensures r * Times(count, atr) == (r * count) * atr
  {
  }

  lemma OneMinusShare(distance: real, reach: real)
    requires reach > 0.0
    ensures 1.0 - distance / reach == (reach - distance) / reach
    ensures distance >= reach <==> distance / reach >= 1.0
    ensures distance >= 0.0 <==> distance / reach >= 0.0
  {
    var q := distance / reach;
    Grid.DivMul(distance, reach);
    Grid.DivMul(reach - distance, reach);
    assert (1.0 - q) * reach == reach - q * reach;
    Grid.MulEqual(1.0 - q, (reach - distance) / reach, reach);
    Grid.MulStrict(q, 1.0, reach);
    Grid.MulStrict(q, 0.0, reach);
  }

  /** Between its ends, proximity is the share of the reach that the distance leaves. */
  lemma ProximityIsShareLeft(distance: real, atr: real, config: Config)
    requires config.Valid() && atr > 0.0 && distance >= 0.0
    ensures Times(config.proximityZeroAt, atr) > 0.0
    ensures ProximityFactor(InAtrs(distance, atr), config) == ShareLeft(distance, Times(config.proximityZeroAt, atr))
  {
    QuotientOfQuotient(distance, atr, config.proximityZeroAt);
    OneMinusShare(distance, Times(config.proximityZeroAt, atr));
    hide InAtrs, Times;
  }

  /** Between its ends, clearance is the share of the room that it fills. */
  lemma ClearanceIsShareFilled(clearance: real, atr: real, config: Config)
    requires config.Valid() && atr > 0.0 && clearance >= 0.0
    ensures Times(config.clearanceFullAt, atr) > 0.0
    ensures ClearanceFactor(Some(InAtrs(clearance, atr)), config) == ShareFilled(clearance, Times(config.clearanceFullAt, atr))
  {
    QuotientOfQuotient(clearance, atr, config.clearanceFullAt);
    OneMinusShare(clearance, Times(config.clearanceFullAt, atr));
    hide InAtrs, Times;
  }

  /** What a scored side's result says, from the anchor and the obstacle it selected. */
  predicate ScoredAs(score: Score, side: Side, context: Context, atr: real, anchor: Zone, obstacle: Option<Zone>)
    requires context.config.Valid() && atr > 0.0
  {
    var price, config := context.referencePrice, context.config;
    var distance := Gap(price, anchor);
    var ahead := if obstacle.None? then 0.0 else if side == Buy then obstacle.value.low - price else price - obstacle.value.high;
    TimesPositive(config.proximityZeroAt, atr);
    TimesPositive(config.clearanceFullAt, atr);
    var proximity := ShareLeft(distance, Times(config.proximityZeroAt, atr));
    var clearance := if obstacle.None? then config.unknownClearance
                     else ShareFilled(ahead, Times(config.clearanceFullAt, atr));
    var exact := 25.0 * Times(proximity, clearance);
    && score.side == side && score.anchor == Some(anchor) && score.obstacle == obstacle
    && score.status == (if obstacle.None? then LimitedContext else Evaluated)
    && score.reasons == (if proximity == 0.0 then [AnchorTooFar] else [])
                        + (if obstacle.None? then [LimitedContextReason] else [])
    && score.proximity == Some(proximity) && score.clearance == Some(clearance)
    && score.distanceAtr == Some(distance / atr)
    && score.clearanceAtr == (if obstacle.None? then None else Some(ahead / atr))
    && score.rawExact == Some(exact) && score.raw == Some((exact + 0.5).Floor)
  }

  lemma ScoreFields(side: Side, context: Context)
    requires Scorable(context) && Scores(side, context)
    ensures var score, anchor, obstacle :=
              ScoreOf(side, context).value, AnchorOf(side, context), ObstacleOf(side, context).obstacle;
            var proximity, clearance := Proximity(side, context), Clearance(side, context);
            && score.side == side && score.anchor == anchor && score.obstacle == obstacle
            && score.status == (if obstacle.None? then LimitedContext else Evaluated)
            && score.reasons == (if proximity == 0.0 then [AnchorTooFar] else [])
                                + (if obstacle.None? then [LimitedContextReason] else [])
            && score.proximity == Some(proximity) && score.clearance == Some(clearance)
            && score.distanceAtr == Some(DistanceAtr(context, anchor.value, context.currentAtr.value))
            && score.clearanceAtr == ClearanceAtr(side, context, context.currentAtr.value)
            && score.rawExact == Some(RawExact(proximity, clearance))
            && score.raw == Some((RawExact(proximity, clearance) + 0.5).Floor)
  {
    RawIsWithinHalf(side, context);
    RawIsTheFloor(RawExact(Proximity(side, context), Clearance(side, context)));
    hide AnchorOf, ObstacleOf, DistanceAtr, ClearanceAtr, ProximityFactor, ClearanceFactor, RawExact, RawOf;
  }

  lemma FactorsOnPrices(side: Side, context: Context)
    requires Scorable(context) && Scores(side, context)
    ensures var price, atr, config := context.referencePrice, context.currentAtr.value, context.config;
            var obstacle := ObstacleOf(side, context).obstacle;
            var distance := Gap(price, AnchorOf(side, context).value);
            && Times(config.proximityZeroAt, atr) > 0.0 && Times(config.clearanceFullAt, atr) > 0.0
            && DistanceAtr(context, AnchorOf(side, context).value, atr) == distance / atr
            && Proximity(side, context) == ShareLeft(distance, Times(config.proximityZeroAt, atr))
            && (obstacle.None? ==>
                  ClearanceAtr(side, context, atr).None? && Clearance(side, context) == config.unknownClearance)
            && (obstacle.Some? ==>
                  var ahead := ForwardClearance(side, price, obstacle.value);
                  && ClearanceAtr(side, context, atr) == Some(ahead / atr)
                  && Clearance(side, context) == ShareFilled(ahead, Times(config.clearanceFullAt, atr)))
  {
    var price, atr, config := context.referencePrice, context.currentAtr.value, context.config;
    var anchor, obstacle := AnchorOf(side, context).value, ObstacleOf(side, context).obstacle;
    hide AnchorOf, ObstacleOf, ProximityFactor, ForwardClearance, Times, ShareLeft, ShareFilled;
    DistanceIsGap(price, anchor);
    DistanceIsNotNegative(price, anchor.low, anchor.high);
    ProximityIsShareLeft(Gap(price, anchor), atr, config);
    TimesPositive(config.clearanceFullAt, atr);
    if obstacle.Some? {
      AheadIsNotNegative(side, context);
      ClearanceIsShareFilled(ForwardClearance(side, price, obstacle.value), atr, config);
    }
  }

  lemma AheadIsNotNegative(side: Side, context: Context)
    requires Scorable(context) && Scores(side, context) && ObstacleOf(side, context).obstacle.Some?
    ensures ForwardClearance(side, context.referencePrice, ObstacleOf(side, context).obstacle.value) >= 0.0
  {
    ObstacleMeaning(side, context);
    hide AnchorOf, ObstacleOf;
  }

  /** The score itself: 25 times what the distance leaves of the anchor's reach, times what the obstacle leaves of the room. */
  lemma ScoreOnPrices(side: Side, context: Context)
    requires Scorable(context) && Scores(side, context)
    ensures ScoredAs(ScoreOf(side, context).value, side, context, context.currentAtr.value, AnchorOf(side, context).value,
                     ObstacleOf(side, context).obstacle)
  {
    ScoreFields(side, context);
    FactorsOnPrices(side, context);
    hide AnchorOf, ObstacleOf, DistanceAtr, ClearanceAtr, Proximity, Clearance, Times, ShareLeft, ShareFilled, Gap;
    hide ScoreOf;
  }

  lemma DistanceIsGap(price: real, zone: Zone)
    ensures Distance(price, zone.low, zone.high) == Gap(price, zone)
  {
  }

  lemma RawIsTheFloor(x: real)
    ensures 0.0 <= x <= 25.0 ==> RawOf(x) == (x + 0.5).Floor
  {
  }

  /** A side that is not scored: raw zero, and only what is known of the obstacle is filled in. */
  lemma UnscoredOnPrices(side: Side, context: Context)
    requires Scorable(context) && !Scores(side, context)
    ensures var score, obstacle := ScoreOf(side, context).value, ObstacleOf(side, context).obstacle;
            var price, atr, config := context.referencePrice, context.currentAtr.value, context.config;
            && score.raw == Some(0) && score.rawExact == Some(0.0) && score.distanceAtr.None? && score.proximity.None?
            && score.anchor == AnchorOf(side, context) && score.obstacle == obstacle && score.side == side
            && (if ObstacleOf(side, context).conflict then
                  && score.reasons == [ConflictReason] && score.clearanceAtr == Some(0.0) && score.clearance == Some(0.0)
                else
                  && score.reasons == [NoAnchorReason]
                  && (obstacle.None? ==> score.clearanceAtr.None? && score.clearance == Some(config.unknownClearance))
                  && (obstacle.Some? ==>
                        var ahead := if side == Buy then obstacle.value.low - price else price - obstacle.value.high;
                        && score.clearanceAtr == Some(ahead / atr)
                        && Times(config.clearanceFullAt, atr) > 0.0
                        && score.clearance == Some(ShareFilled(ahead, Times(config.clearanceFullAt, atr)))))
  {
    var price, atr, config := context.referencePrice, context.currentAtr.value, context.config;
    hide AnchorOf, ObstacleOf, ProximityFactor, ClearanceFactor, RawOf, Times, ShareLeft, ShareFilled;
    var obstacle := ObstacleOf(side, context).obstacle;
    TimesPositive(config.clearanceFullAt, atr);
    if obstacle.Some? && !ObstacleOf(side, context).conflict {
      ObstacleMeaning(side, context);
      ClearanceIsShareFilled(ForwardClearance(side, price, obstacle.value), atr, config);
    } else if obstacle.None? {
      UnknownMeaning(config);
    }
  }

  lemma UnknownMeaning(config: Config)
    requires config.Valid()
    ensures ClearanceFactor(None, config) == config.unknownClearance
  {
  }

  /** Every result repeats the context it was computed from; without a current ATR it carries nothing else. */
  lemma ScoreCarriesContext(side: Side, context: Context)
    requires context.Valid()
    ensures var score := SafeScoreOf(side, context);
            && score.side == side && score.referencePrice == context.referencePrice
            && score.referenceClosedAt == context.referenceClosedAt && score.config == context.config
            && score.cutoff == context.cutoff && score.barsConsidered == context.barsConsidered
            && (context.currentAtr.None? ==>
                  && score.raw.None? && score.status == Unavailable && score.reasons == [InvalidData]
                  && score.anchor.None? && score.obstacle.None? && score.rawExact.None?)
            && (context.currentAtr.Some? ==> ScoreOf(side, context) == Ok(score))
  {
    hide AnchorOf, ObstacleOf, DistanceAtr, ClearanceAtr, ProximityFactor, ClearanceFactor, RawExact, RawOf;
  }
}

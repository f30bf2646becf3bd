/**
 The lifecycle of zones.  A zone's status is a statement about the closes since its confirmation; dead
 zones stay dead as history grows, and updating an updated list changes nothing.
 */
module LocationLifecycle {
  import opened Common
  import opened Candles
  import opened LocationModel
  import LocationDedupe
  import Sorting

  lemma {:induction false} ClosesSinceGrows(history: seq<ClosedCandle>, more: seq<ClosedCandle>, since: int)
    ensures ClosesSince(history, since) <= ClosesSince(history + more, since)
    decreases |more|
  {
    if more == [] {
      assert history + more == history;
    } else {
      var n := |more| - 1;
      assert (history + more)[..|history| + n] == history + more[..n];
      ClosesSinceGrows(history, more[..n], since);
    }
  }

  lemma BrokenStaysBroken(zone: Zone, config: Config, before: seq<real>, after: seq<real>)
    requires before <= after && config.invalidationCloseCount >= 0 && BrokenBy(zone, config, before, |before|)
    ensures BrokenBy(zone, config, after, |after|)
  {
    hide Breaches;
    var k :| 0 <= k <= |before| && BreachRun(zone, config, before, k, config.invalidationCloseCount);
    assert BreachRun(zone, config, after, k, config.invalidationCloseCount);
  }

  /** As closes arrive, an invalidated zone stays invalidated and a dead zone stays dead. */
  lemma DeadStaysDead(zone: Zone, config: Config, before: seq<real>, after: seq<real>)
    requires before <= after && config.invalidationCloseCount >= 0
    ensures StatusFor(zone, config, before) == Invalidated ==> StatusFor(zone, config, after) == Invalidated
    ensures Dead(StatusFor(zone, config, before)) ==> Dead(StatusFor(zone, config, after))
  {
    hide BrokenBy, Breaches;
    if BrokenBy(zone, config, before, |before|) {
      BrokenStaysBroken(zone, config, before, after);
    }
  }

  /** Each zone is updated on its own; the first error, if any, is the error of the list. */
  lemma {:induction false} UpdatedMeaning(zones: seq<Zone>, history: seq<ClosedCandle>, cutoff: int, config: Config)
    requires config.invalidationCloseCount >= 0
    ensures Updated(zones, history, cutoff, config).Ok? <==>
              forall i :: 0 <= i < |zones| ==> UpdatedZone(zones[i], history, cutoff, config).Ok?
    ensures Updated(zones, history, cutoff, config).Ok? ==>
              var r := Updated(zones, history, cutoff, config).value;
              |r| == |zones|
              && forall i :: 0 <= i < |zones| ==> Ok(r[i]) == UpdatedZone(zones[i], history, cutoff, config)
    decreases |zones|
  {
    hide UpdatedZone;
    if zones != [] {
      var n := |zones| - 1;
      UpdatedMeaning(zones[..n], history, cutoff, config);
      if Updated(zones, history, cutoff, config).Ok? {
        forall i | 0 <= i < |zones|
          ensures UpdatedZone(zones[i], history, cutoff, config).Ok?
        {
          assert i < n ==> zones[..n][i] == zones[i];
        }
      }
    }
  }

  lemma UpdatedZoneKeepsAllButStatus(zone: Zone, history: seq<ClosedCandle>, cutoff: int, config: Config)
    requires config.invalidationCloseCount >= 0 && UpdatedZone(zone, history, cutoff, config).Ok?
    ensures UpdatedZone(zone, history, cutoff, config).value
         == zone.(status := UpdatedZone(zone, history, cutoff, config).value.status)
  {
  }

  lemma StatusIgnoresStatus(zone: Zone, status: ZoneStatus, config: Config, closes: seq<real>)
    requires config.invalidationCloseCount >= 0
    ensures StatusFor(zone.(status := status), config, closes) == StatusFor(zone, config, closes)
  {
    var other := zone.(status := status);
    assert BreakLine(other, config) == BreakLine(zone, config);
    hide BreakLine;
    assert forall x :: Breaches(other, config, x) == Breaches(zone, config, x);
    hide Breaches;
    forall k: nat | k <= |closes|
      ensures BreachRun(other, config, closes, k, config.invalidationCloseCount)
           == BreachRun(zone, config, closes, k, config.invalidationCloseCount)
    {
    }
    hide BreachRun;
    assert BrokenBy(other, config, closes, |closes|) == BrokenBy(zone, config, closes, |closes|);
  }

  lemma UpdatedZoneIsStable(zone: Zone, history: seq<ClosedCandle>, cutoff: int, config: Config)
    requires config.invalidationCloseCount >= 0 && UpdatedZone(zone, history, cutoff, config).Ok?
    ensures UpdatedZone(UpdatedZone(zone, history, cutoff, config).value, history, cutoff, config)
         == UpdatedZone(zone, history, cutoff, config)
  {
    hide StatusFor;
    if !Dead(zone.status) {
      var closes := ClosesSince(history, zone.confirmedAt);
      StatusIgnoresStatus(zone, StatusFor(zone, config, closes), config, closes);
    }
  }

  /** Updating its own output is the identity. */
  lemma UpdateIsIdempotent(zones: seq<Zone>, history: seq<ClosedCandle>, cutoff: int, config: Config)
    requires config.invalidationCloseCount >= 0 && Updated(zones, history, cutoff, config).Ok?
    ensures Updated(Updated(zones, history, cutoff, config).value, history, cutoff, config)
         == Updated(zones, history, cutoff, config)
  {
    hide Updated, UpdatedZone;
    var once := Updated(zones, history, cutoff, config).value;
    UpdatedMeaning(zones, history, cutoff, config);
    UpdatedMeaning(once, history, cutoff, config);
    forall i | 0 <= i < |zones|
      ensures UpdatedZone(once[i], history, cutoff, config) == Ok(once[i])
    {
      UpdatedZoneIsStable(zones[i], history, cutoff, config);
    }
    var twice := Updated(once, history, cutoff, config);
    assert twice.Ok? && |twice.value| == |once|;
    assert twice.value == once;
  }

  /** A change of statuses alone leaves a list of zones canonical. */
  lemma AgingKeepsCanonical(before: seq<Zone>, after: seq<Zone>)
    requires LocationDedupe.DistinctIds(before) && Sorting.SortedBy(ZoneLeq, before) && |after| == |before|
    requires forall i :: 0 <= i < |before| ==> after[i] == before[i].(status := after[i].status)
    ensures Deduplicated(after) == Ok(after)
  {
    forall i, j | 0 <= i < j < |after|
      ensures after[i].id != after[j].id && ZoneLeq(after[i], after[j])
    {
      assert before[i].id != before[j].id && ZoneLeq(before[i], before[j]);
    }
    LocationDedupe.CanonicalIsFixed(after);
  }

  /** Running the lifecycle again on its own output, with its own deduplication, changes nothing. */
  lemma LifecycleIsIdempotent(zones: seq<Zone>, candles: seq<Candle>, cutoff: int, config: Config)
    requires LifecycleOf(zones, candles, cutoff, config).Ok?
    ensures LifecycleOf(LifecycleOf(zones, candles, cutoff, config).value, candles, cutoff, config)
         == LifecycleOf(zones, candles, cutoff, config)
  {
    hide Deduplicated, Updated, UpdatedZone, H4History;
    var unique := Deduplicated(zones).value;
    var history := H4History(candles, cutoff, config).value;
    var once := LifecycleOf(zones, candles, cutoff, config).value;
    LocationDedupe.DeduplicatedMeaning(zones);
    UpdatedMeaning(unique, history, cutoff, config);
    forall i | 0 <= i < |unique|
      ensures once[i] == unique[i].(status := once[i].status)
    {
      UpdatedZoneKeepsAllButStatus(unique[i], history, cutoff, config);
    }
    AgingKeepsCanonical(unique, once);
    UpdateIsIdempotent(unique, history, cutoff, config);
  }
}

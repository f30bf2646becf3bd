/**
 Zone deduplication is a canonical form: whether it succeeds and what it returns depend only on which
 records are present, not on their order or repetition.
 */
module LocationDedupe {
  import opened Common
  import opened LocationModel
  import Sorting

  ghost predicate DistinctIds(zones: seq<Zone>) {
    forall i, j :: 0 <= i < j < |zones| ==> zones[i].id != zones[j].id
  }

  ghost predicate SameRecords(a: seq<Zone>, b: seq<Zone>) {
    forall z :: z in a <==> z in b
  }

  ghost predicate NoRepeats(zones: seq<Zone>) {
    forall i, j :: 0 <= i < j < |zones| ==> zones[i] != zones[j]
  }

  lemma ZoneLeqIsTotal()
    ensures Sorting.TotalPreorder(ZoneLeq)
  {
    IdLeqIsTotal();
    hide IdLeq;
  }

  lemma IdLeqIsTotal()
    ensures forall a, b :: IdLeq(a, b) || IdLeq(b, a)
    ensures forall a, b, c :: IdLeq(a, b) && IdLeq(b, c) ==> IdLeq(a, c)
    ensures forall a, b :: IdLeq(a, b) && IdLeq(b, a) ==> a == b
  {
  }

  /** Zones with different ids never tie. */
  lemma DistinctIdsNeverTie(zones: seq<Zone>)
    requires DistinctIds(zones)
    ensures Sorting.DistinctBy(ZoneLeq, zones)
  {
    IdLeqIsTotal();
    hide IdLeq;
    forall i, j | 0 <= i < j < |zones|
      ensures !(ZoneLeq(zones[i], zones[j]) && ZoneLeq(zones[j], zones[i]))
    {
      assert zones[i].id != zones[j].id;
    }
  }

  lemma {:induction false} UniquesMeaning(zones: seq<Zone>)
    ensures SameRecords(zones, Uniques(zones)) && NoRepeats(Uniques(zones))
    decreases |zones|
  {
    if zones != [] {
      UniquesMeaning(zones[..|zones| - 1]);
      assert zones == zones[..|zones| - 1] + [zones[|zones| - 1]];
    }
  }

  lemma {:induction false} OnceEach(zones: seq<Zone>, z: Zone)
    requires NoRepeats(zones)
    ensures multiset(zones)[z] == if z in zones then 1 else 0
    decreases |zones|
  {
    if zones != [] {
      var n := |zones| - 1;
      OnceEach(zones[..n], z);
      assert zones == zones[..n] + [zones[n]];
      assert zones[n] !in zones[..n];
    }
  }

  lemma SameRecordsSameMultiset(a: seq<Zone>, b: seq<Zone>)
    requires NoRepeats(a) && NoRepeats(b) && SameRecords(a, b)
    ensures multiset(a) == multiset(b)
  {
    forall z
      ensures multiset(a)[z] == multiset(b)[z]
    {
      OnceEach(a, z);
      OnceEach(b, z);
    }
  }

  /** A conflict is two different records of one id, wherever they stand. */
  lemma ConflictMeaning(zones: seq<Zone>)
    ensures Conflicting(zones) <==> exists z, w :: z in zones && w in zones && z.id == w.id && z != w
  {
    if z, w :| z in zones && w in zones && z.id == w.id && z != w {
      var i :| 0 <= i < |zones| && zones[i] == z;
      var j :| 0 <= j < |zones| && zones[j] == w;
      assert if i < j then zones[i].id == zones[j].id else zones[j].id == zones[i].id;
      if i < j {
        assert Conflicting(zones);
      } else {
        assert j < i && zones[j] != zones[i];
        assert Conflicting(zones);
      }
    }
  }

  lemma UniqueIds(zones: seq<Zone>)
    requires !Conflicting(zones)
    ensures DistinctIds(Uniques(zones))
  {
    UniquesMeaning(zones);
    ConflictMeaning(zones);
    var u := Uniques(zones);
    forall i, j | 0 <= i < j < |u|
      ensures u[i].id != u[j].id
    {
      assert u[i] in zones && u[j] in zones;
    }
  }

  /** A successful deduplication: exactly the given records, each id once, in strict key order. */
  lemma DeduplicatedMeaning(zones: seq<Zone>)
    ensures Deduplicated(zones).Err? <==> exists z, w :: z in zones && w in zones && z.id == w.id && z != w
    ensures Deduplicated(zones).Ok? ==>
              var r := Deduplicated(zones).value;
              && SameRecords(zones, r) && DistinctIds(r)
              && Sorting.SortedBy(ZoneLeq, r) && Sorting.DistinctBy(ZoneLeq, r)
  {
    ConflictMeaning(zones);
    if !Conflicting(zones) {
      var u := Uniques(zones);
      var r := Sorting.Sort(ZoneLeq, u);
      hide Uniques, Sorting.Sort, ZoneLeq;
      UniqueIds(zones);
      UniquesMeaning(zones);
      ZoneLeqIsTotal();
      Sorting.SortSorts(ZoneLeq, u);
      Sorting.SameElements(u, r);
      DistinctIdsNeverTie(u);
      Sorting.DistinctByPermutes(ZoneLeq, u, r);
      IdsSurvivePermutation(u, r);
    }
  }

  lemma IdsSurvivePermutation(a: seq<Zone>, b: seq<Zone>)
    requires DistinctIds(a) && multiset(a) == multiset(b)
    ensures DistinctIds(b)
  {
    Sorting.SameElements(a, b);
    forall i, j | 0 <= i < j < |b|
      ensures b[i].id != b[j].id
    {
      var k := Sorting.Place(a, b, i);
      var l := Sorting.Place(a, b, j);
      if b[i].id == b[j].id {
        assert k == l;
        Sorting.TwiceIn(b, i, j);
        assert NoRepeats(a);
        OnceEach(a, b[i]);
      }
    }
  }

  /** Input order and repetition do not matter, for success or for the result. */
  lemma DedupeIsCanonical(a: seq<Zone>, b: seq<Zone>)
    requires SameRecords(a, b)
    ensures Deduplicated(a) == Deduplicated(b)
  {
    ConflictMeaning(a);
    ConflictMeaning(b);
    if !Conflicting(a) {
      hide Uniques, Sorting.Sort, ZoneLeq;
      UniquesMeaning(a);
      UniquesMeaning(b);
      SameRecordsSameMultiset(Uniques(a), Uniques(b));
      UniqueIds(a);
      DistinctIdsNeverTie(Uniques(a));
      ZoneLeqIsTotal();
      Sorting.SortIgnoresOrder(ZoneLeq, Uniques(a), Uniques(b));
    }
  }

  /** Deduplicating twice is deduplicating once. */
  lemma DedupeIsIdempotent(zones: seq<Zone>)
    requires Deduplicated(zones).Ok?
    ensures Deduplicated(Deduplicated(zones).value) == Deduplicated(zones)
  {
    DeduplicatedMeaning(zones);
    DedupeIsCanonical(zones, Deduplicated(zones).value);
  }

  lemma {:induction false} UniquesOfUniques(zones: seq<Zone>)
    requires NoRepeats(zones)
    ensures Uniques(zones) == zones
    decreases |zones|
  {
    if zones != [] {
      var n := |zones| - 1;
      UniquesOfUniques(zones[..n]);
      assert zones == zones[..n] + [zones[n]];
    }
  }

  /** A sorted list of zones with distinct ids is its own canonical form. */
  lemma CanonicalIsFixed(zones: seq<Zone>)
    requires DistinctIds(zones) && Sorting.SortedBy(ZoneLeq, zones)
    ensures Deduplicated(zones) == Ok(zones)
  {
    assert NoRepeats(zones);
    UniquesOfUniques(zones);
    Sorting.SortFixesSorted(ZoneLeq, zones);
    assert !Conflicting(zones);
  }
}

/**
 The candle list algebra: merging two lists keyed by open time, keeping the bars closed at a cutoff, and
 validating a list.  Times are whole seconds and prices exact reals.
 */
module Candles {
  import opened Common
  import Sorting

  datatype Candle = Candle(time: int, open: real, high: real, low: real, close: real, volume: real)

  datatype Timeframe = D1 | H4 | H1 | M15

  function Interval(timeframe: Timeframe): int {
    match timeframe
    case D1 => 86400
    case H4 => 14400
    case H1 => 3600
    case M15 => 900
  }

  predicate TimeLeq(a: int, b: int) {
    a <= b
  }

  lemma TimeLeqIsTotal()
    ensures Sorting.TotalPreorder(TimeLeq)
  {
  }

  ghost predicate StrictlyOrdered(candles: seq<Candle>) {
    forall i, j :: 0 <= i < j < |candles| ==> candles[i].time < candles[j].time
  }

  // ---------- merging ----------

  /** The dictionary a list fills: a later candle replaces an earlier one of the same time. */
  function ByTime(candles: seq<Candle>): map<int, Candle> {
    if candles == [] then map[]
    else
      var last := candles[|candles| - 1];
      ByTime(candles[..|candles| - 1])[last.time := last]
  }

  /** The keys of that dictionary in insertion order. */
  function TimesOf(candles: seq<Candle>): seq<int> {
    if candles == [] then []
    else
      var earlier := candles[..|candles| - 1];
      var last := candles[|candles| - 1];
      if last.time in ByTime(earlier) then TimesOf(earlier) else TimesOf(earlier) + [last.time]
  }

  lemma {:induction false} KeysAreTimes(candles: seq<Candle>)
    ensures forall t :: t in ByTime(candles) ==> ByTime(candles)[t].time == t
    ensures forall t :: t in TimesOf(candles) <==> t in ByTime(candles)
    ensures forall i, j :: 0 <= i < j < |TimesOf(candles)| ==> TimesOf(candles)[i] != TimesOf(candles)[j]
    decreases |candles|
  {
    if candles != [] {
      KeysAreTimes(candles[..|candles| - 1]);
    }
  }

  /** Adding one candle to a filled dictionary, and its key to the insertion order. */
  lemma FillOne(earlier: seq<Candle>, c: Candle)
    ensures ByTime(earlier + [c]) == ByTime(earlier)[c.time := c]
    ensures TimesOf(earlier + [c]) == if c.time in ByTime(earlier) then TimesOf(earlier) else TimesOf(earlier) + [c.time]
  {
    assert (earlier + [c])[..|earlier|] == earlier;
  }

  function LookUp(m: map<int, Candle>, times: seq<int>): (r: seq<Candle>)
    requires forall i :: 0 <= i < |times| ==> times[i] in m
  {
    seq(|times|, i requires 0 <= i < |times| => m[times[i]])
  }

  function OrderedTimes(candles: seq<Candle>): seq<int> {
    Sorting.Sort(TimeLeq, TimesOf(candles))
  }

  lemma OrderedTimesMeaning(candles: seq<Candle>)
    ensures var times := OrderedTimes(candles);
            && (forall t :: t in times <==> t in ByTime(candles))
            && (forall i :: 0 <= i < |times| ==> times[i] in ByTime(candles))
            && (forall i, j :: 0 <= i < j < |times| ==> times[i] < times[j])
  {
    var times := OrderedTimes(candles);
    KeysAreTimes(candles);
    TimeLeqIsTotal();
    Sorting.SameElements(times, TimesOf(candles));
    Sorting.SortSorts(TimeLeq, TimesOf(candles));
    Sorting.DistinctByPermutes(TimeLeq, TimesOf(candles), times);
    forall i, j | 0 <= i < j < |times|
      ensures times[i] < times[j]
    {
      assert TimeLeq(times[i], times[j]) && !(TimeLeq(times[i], times[j]) && TimeLeq(times[j], times[i]));
    }
  }

  function MergeOf(oldCandles: seq<Candle>, newCandles: seq<Candle>): seq<Candle> {
    OrderedTimesMeaning(oldCandles + newCandles);
    LookUp(ByTime(oldCandles + newCandles), OrderedTimes(oldCandles + newCandles))
  }

  /** One of the two filling loops: put every candle of a list into the dictionary. */
  method Fill(byTime: map<int, Candle>, times: seq<int>, ghost earlier: seq<Candle>, candles: seq<Candle>)
    returns (byTime': map<int, Candle>, times': seq<int>)
    requires byTime == ByTime(earlier) && times == TimesOf(earlier)
    ensures byTime' == ByTime(earlier + candles) && times' == TimesOf(earlier + candles)
  {
    hide ByTime, TimesOf;
    byTime', times' := byTime, times;
    assert earlier == earlier + candles[..0];
    for k := 0 to |candles|
      invariant byTime' == ByTime(earlier + candles[..k]) && times' == TimesOf(earlier + candles[..k])
    {
      assert earlier + candles[..k + 1] == earlier + candles[..k] + [candles[k]];
      FillOne(earlier + candles[..k], candles[k]);
      if candles[k].time !in byTime' {
        times' := times' + [candles[k].time];
      }
      byTime' := byTime'[candles[k].time := candles[k]];
    }
    assert candles[..|candles|] == candles;
  }

  method MergeCandles(oldCandles: seq<Candle>, newCandles: seq<Candle>) returns (r: seq<Candle>)
    ensures r == MergeOf(oldCandles, newCandles)
  {
    var byTime, times := Fill(map[], [], [], oldCandles);
    assert [] + oldCandles == oldCandles;
    byTime, times := Fill(byTime, times, oldCandles, newCandles);
    OrderedTimesMeaning(oldCandles + newCandles);
    assert Sorting.Sort(TimeLeq, times) == OrderedTimes(oldCandles + newCandles);
    r := LookUp(byTime, Sorting.Sort(TimeLeq, times));
  }

  /** `s` lists the dictionary `m` in strict time order. */
  ghost predicate Lists(s: seq<Candle>, m: map<int, Candle>) {
    && StrictlyOrdered(s)
    && (forall i :: 0 <= i < |s| ==> s[i].time in m && m[s[i].time] == s[i])
    && (forall t :: t in m ==> m[t] in s && m[t].time == t)
  }

  lemma MergeLists(oldCandles: seq<Candle>, newCandles: seq<Candle>)
    ensures Lists(MergeOf(oldCandles, newCandles), ByTime(oldCandles + newCandles))
  {
    hide OrderedTimes, ByTime;
    OrderedTimesMeaning(oldCandles + newCandles);
    KeysAreTimes(oldCandles + newCandles);
    LookUpLists(ByTime(oldCandles + newCandles), OrderedTimes(oldCandles + newCandles));
  }

  lemma LookUpLists(m: map<int, Candle>, times: seq<int>)
    requires forall i :: 0 <= i < |times| ==> times[i] in m
    requires forall t :: t in m ==> t in times && m[t].time == t
    requires forall i, j :: 0 <= i < j < |times| ==> times[i] < times[j]
    ensures Lists(LookUp(m, times), m)
  {
    var r := LookUp(m, times);
    forall t | t in m
      ensures m[t] in r
    {
      var i :| 0 <= i < |times| && times[i] == t;
      assert r[i] == m[t];
    }
  }

  lemma SameLast(s: seq<Candle>, t: seq<Candle>, m: map<int, Candle>)
    requires Lists(s, m) && Lists(t, m) && s != []
    ensures t != [] && s[|s| - 1] == t[|t| - 1]
  {
    var a := s[|s| - 1];
    assert m[a.time] in t;
    var b := t[|t| - 1];
    assert m[b.time] in s;
  }

  /** A dictionary has exactly one listing. */
  lemma {:induction false} ListingIsUnique(s: seq<Candle>, t: seq<Candle>, m: map<int, Candle>)
    requires Lists(s, m) && Lists(t, m)
    ensures s == t
    decreases |s|
  {
    if s == [] {
      if t != [] {
        SameLast(t, s, m);
      }
    } else {
      SameLast(s, t, m);
      hide Lists;
      WithoutLast(s, m);
      WithoutLast(t, m);
      ListingIsUnique(s[..|s| - 1], t[..|t| - 1], m - {s[|s| - 1].time});
      assert s == s[..|s| - 1] + [s[|s| - 1]] && t == t[..|t| - 1] + [t[|t| - 1]];
    }
  }

  lemma WithoutLast(s: seq<Candle>, m: map<int, Candle>)
    requires Lists(s, m) && s != []
    ensures Lists(s[..|s| - 1], m - {s[|s| - 1].time})
  {
    var n := |s| - 1;
    forall t | t in m && t != s[n].time
      ensures m[t] in s[..n]
    {
      var i :| 0 <= i < |s| && s[i] == m[t];
      assert s[..n][i] == m[t];
    }
  }

  lemma {:induction false} ByTimeOfListing(s: seq<Candle>, m: map<int, Candle>)
    requires Lists(s, m)
    ensures ByTime(s) == m
    decreases |s|
  {
    if s == [] {
      assert forall t :: t !in m;
    } else {
      var last := s[|s| - 1];
      WithoutLast(s, m);
      ByTimeOfListing(s[..|s| - 1], m - {last.time});
      assert m == (m - {last.time})[last.time := last];
    }
  }

  lemma {:induction false} ByTimeOfConcat(a: seq<Candle>, b: seq<Candle>)
    ensures ByTime(a + b) == ByTime(a) + ByTime(b)
    decreases |b|
  {
    if b == [] {
      assert a + b == a;
    } else {
      var n := |b| - 1;
      assert (a + b)[..|a| + n] == a + b[..n];
      ByTimeOfConcat(a, b[..n]);
    }
  }

  lemma ByTimeOfMerge(a: seq<Candle>, b: seq<Candle>)
    ensures ByTime(MergeOf(a, b)) == ByTime(a) + ByTime(b)
  {
    MergeLists(a, b);
    ByTimeOfListing(MergeOf(a, b), ByTime(a + b));
    ByTimeOfConcat(a, b);
  }

  lemma SameDictionarySameMerge(a: seq<Candle>, b: seq<Candle>, c: seq<Candle>, d: seq<Candle>)
    requires ByTime(a) + ByTime(b) == ByTime(c) + ByTime(d)
    ensures MergeOf(a, b) == MergeOf(c, d)
  {
    MergeLists(a, b);
    MergeLists(c, d);
    ByTimeOfConcat(a, b);
    ByTimeOfConcat(c, d);
    ListingIsUnique(MergeOf(a, b), MergeOf(c, d), ByTime(a + b));
  }

  /** The candle of time `t` that a list supplies: the last one of that time. */
  ghost predicate Supplies(candles: seq<Candle>, c: Candle) {
    exists k :: 0 <= k < |candles| && candles[k] == c
                && forall l :: k < l < |candles| ==> candles[l].time != c.time
  }

  ghost predicate HasTime(candles: seq<Candle>, t: int) {
    exists k :: 0 <= k < |candles| && candles[k].time == t
  }

  /** What one more candle supplies: itself for its own time, and for other times what was supplied before. */
  lemma SuppliesOneMore(candles: seq<Candle>, last: Candle, c: Candle)
    ensures Supplies(candles + [last], last)
    ensures Supplies(candles, c) && c.time != last.time ==> Supplies(candles + [last], c)
  {
    var all := candles + [last];
    assert all[|candles|] == last;
    if Supplies(candles, c) && c.time != last.time {
      var k :| 0 <= k < |candles| && candles[k] == c && forall l :: k < l < |candles| ==> candles[l].time != c.time;
      assert all[k] == c;
    }
  }

  lemma HasTimeOneMore(candles: seq<Candle>, last: Candle, t: int)
    ensures HasTime(candles + [last], t) <==> HasTime(candles, t) || last.time == t
  {
    var all := candles + [last];
    if HasTime(candles, t) {
      var k :| 0 <= k < |candles| && candles[k].time == t;
      assert all[k].time == t;
    }
    if last.time == t {
      assert all[|candles|].time == t;
    }
  }

  lemma {:induction false} DictionaryMeaning(candles: seq<Candle>, t: int)
    ensures t in ByTime(candles) <==> HasTime(candles, t)
    ensures t in ByTime(candles) ==> Supplies(candles, ByTime(candles)[t])
    decreases |candles|
  {
    if candles != [] {
      hide ByTime, Supplies, HasTime;
      var n := |candles| - 1;
      var front, last := candles[..n], candles[n];
      assert candles == front + [last];
      DictionaryMeaning(front, t);
      FillOne(front, last);
      KeysAreTimes(front);
      HasTimeOneMore(front, last, t);
      SuppliesOneMore(front, last, if t in ByTime(front) then ByTime(front)[t] else last);
    }
  }

  /** The merge is strictly ordered, holds exactly the union of the times, and the newest sample wins. */
  lemma MergeMeaning(oldCandles: seq<Candle>, newCandles: seq<Candle>)
    ensures var r := MergeOf(oldCandles, newCandles);
            && StrictlyOrdered(r)
            && (forall t :: HasTime(r, t) <==> HasTime(oldCandles, t) || HasTime(newCandles, t))
            && (forall i :: 0 <= i < |r| ==>
                  if HasTime(newCandles, r[i].time) then Supplies(newCandles, r[i]) else Supplies(oldCandles, r[i]))
  {
    var r := MergeOf(oldCandles, newCandles);
    MergeLists(oldCandles, newCandles);
    ByTimeOfMerge(oldCandles, newCandles);
    ByTimeOfConcat(oldCandles, newCandles);
    forall t
      ensures HasTime(r, t) <==> HasTime(oldCandles, t) || HasTime(newCandles, t)
    {
      DictionaryMeaning(r, t);
      DictionaryMeaning(oldCandles, t);
      DictionaryMeaning(newCandles, t);
    }
    forall i | 0 <= i < |r|
      ensures if HasTime(newCandles, r[i].time) then Supplies(newCandles, r[i]) else Supplies(oldCandles, r[i])
    {
      DictionaryMeaning(oldCandles, r[i].time);
      DictionaryMeaning(newCandles, r[i].time);
    }
  }

  lemma MergeIsAssociative(a: seq<Candle>, b: seq<Candle>, c: seq<Candle>)
    ensures MergeOf(a, MergeOf(b, c)) == MergeOf(MergeOf(a, b), c)
  {
    hide *;
    ByTimeOfMerge(a, b);
    ByTimeOfMerge(b, c);
    SameDictionarySameMerge(a, MergeOf(b, c), MergeOf(a, b), c);
  }

  /** Merging a list with itself, or a merged list with anything it already holds, only canonicalizes it. */
  lemma MergeIsIdempotent(a: seq<Candle>, b: seq<Candle>)
    ensures MergeOf(a, a) == MergeOf(a, []) == MergeOf([], a)
    ensures MergeOf(MergeOf(a, b), b) == MergeOf(a, b)
    ensures StrictlyOrdered(a) ==> MergeOf(a, []) == a
  {
    hide MergeOf;
    MergeWithNothing(a);
    MergeAgain(a, b);
    if StrictlyOrdered(a) {
      OrderedMergesToItself(a);
    }
  }

  lemma MergeWithNothing(a: seq<Candle>)
    ensures MergeOf(a, a) == MergeOf(a, []) == MergeOf([], a)
  {
    var empty: seq<Candle> := [];
    var m := ByTime(a);
    assert ByTime(empty) == map[];
    hide MergeOf, ByTime;
    assert m + m == m + map[] == map[] + m;
    SameDictionarySameMerge(a, a, a, empty);
    SameDictionarySameMerge(a, a, empty, a);
  }

  lemma MergeAgain(a: seq<Candle>, b: seq<Candle>)
    ensures MergeOf(MergeOf(a, b), b) == MergeOf(a, b)
  {
    hide MergeOf, ByTime;
    ByTimeOfMerge(a, b);
    assert (ByTime(a) + ByTime(b)) + ByTime(b) == ByTime(a) + ByTime(b);
    SameDictionarySameMerge(MergeOf(a, b), b, a, b);
  }

  lemma OrderedListsItself(a: seq<Candle>)
    requires StrictlyOrdered(a)
    ensures Lists(a, ByTime(a))
  {
    hide ByTime;
    KeysAreTimes(a);
    forall i | 0 <= i < |a|
      ensures a[i].time in ByTime(a) && ByTime(a)[a[i].time] == a[i]
    {
      DictionaryMeaning(a, a[i].time);
      assert HasTime(a, a[i].time);
    }
    forall t | t in ByTime(a)
      ensures ByTime(a)[t] in a
    {
      DictionaryMeaning(a, t);
    }
  }

  lemma OrderedMergesToItself(a: seq<Candle>)
    requires StrictlyOrdered(a)
    ensures MergeOf(a, []) == a
  {
    hide MergeOf, ByTime;
    assert a + [] == a;
    OrderedListsItself(a);
    MergeLists(a, []);
    ListingIsUnique(a, MergeOf(a, []), ByTime(a));
  }

  // ---------- the closed-bar filter ----------

  function ClosedOf(candles: seq<Candle>, timeframe: Timeframe, cutoff: int): seq<Candle> {
    if candles == [] then []
    else
      var last := candles[|candles| - 1];
      ClosedOf(candles[..|candles| - 1], timeframe, cutoff)
      + if last.time + Interval(timeframe) <= cutoff then [last] else []
  }

  method ClosedCandlesAtCutoff(candles: seq<Candle>, timeframe: Timeframe, cutoff: int) returns (result: seq<Candle>)
    ensures result == ClosedOf(candles, timeframe, cutoff)
  {
    result := [];
    for k := 0 to |candles|
      invariant result == ClosedOf(candles[..k], timeframe, cutoff)
    {
      assert candles[..k + 1][..k] == candles[..k];
      if candles[k].time + Interval(timeframe) <= cutoff {
        result := result + [candles[k]];
      }
    }
    assert candles[..|candles|] == candles;
  }

  function ClosedMap(m: map<int, Candle>, timeframe: Timeframe, cutoff: int): map<int, Candle> {
    map t | t in m && t + Interval(timeframe) <= cutoff :: m[t]
  }

  lemma ClosedMapOfUpdate(m: map<int, Candle>, c: Candle, timeframe: Timeframe, cutoff: int)
    ensures ClosedMap(m[c.time := c], timeframe, cutoff)
         == if c.time + Interval(timeframe) <= cutoff then ClosedMap(m, timeframe, cutoff)[c.time := c]
            else ClosedMap(m, timeframe, cutoff)
  {
    hide Interval;
  }

  lemma ClosedOfOneMore(candles: seq<Candle>, c: Candle, timeframe: Timeframe, cutoff: int)
    ensures ClosedOf(candles + [c], timeframe, cutoff)
         == if c.time + Interval(timeframe) <= cutoff then ClosedOf(candles, timeframe, cutoff) + [c]
            else ClosedOf(candles, timeframe, cutoff)
  {
    hide Interval;
    assert (candles + [c])[..|candles|] == candles;
  }

  lemma NothingClosed(timeframe: Timeframe, cutoff: int)
    ensures ClosedOf([], timeframe, cutoff) == [] && ClosedMap(map[], timeframe, cutoff) == map[] && ByTime([]) == map[]
  {
  }

  lemma {:induction false} ByTimeOfClosed(candles: seq<Candle>, timeframe: Timeframe, cutoff: int)
    ensures ByTime(ClosedOf(candles, timeframe, cutoff)) == ClosedMap(ByTime(candles), timeframe, cutoff)
    decreases |candles|
  {
    hide *;
    if candles == [] {
      NothingClosed(timeframe, cutoff);
    } else {
      var n := |candles| - 1;
      var front, last := candles[..n], candles[n];
      assert candles == front + [last];
      ByTimeOfClosed(front, timeframe, cutoff);
      ClosedOfOneMore(front, last, timeframe, cutoff);
      FillOne(front, last);
      FillOne(ClosedOf(front, timeframe, cutoff), last);
      ClosedMapOfUpdate(ByTime(front), last, timeframe, cutoff);
    }
  }

  lemma {:induction false} ClosedKeepsOrder(candles: seq<Candle>, timeframe: Timeframe, cutoff: int)
    requires StrictlyOrdered(candles)
    ensures StrictlyOrdered(ClosedOf(candles, timeframe, cutoff))
    ensures forall c :: c in ClosedOf(candles, timeframe, cutoff) <==>
              c in candles && c.time + Interval(timeframe) <= cutoff
    decreases |candles|
  {
    hide ClosedOf, Interval;
    if candles == [] {
      NothingClosed(timeframe, cutoff);
    } else {
      var n := |candles| - 1;
      assert candles == candles[..n] + [candles[n]];
      ClosedKeepsOrder(candles[..n], timeframe, cutoff);
      ClosedOfOneMore(candles[..n], candles[n], timeframe, cutoff);
      var front := ClosedOf(candles[..n], timeframe, cutoff);
      forall i | 0 <= i < |front|
        ensures front[i].time < candles[n].time
      {
        assert front[i] in front;
      }
    }
  }

  lemma ClosedLists(s: seq<Candle>, m: map<int, Candle>, timeframe: Timeframe, cutoff: int)
    requires Lists(s, m)
    ensures Lists(ClosedOf(s, timeframe, cutoff), ClosedMap(m, timeframe, cutoff))
  {
    hide ClosedOf;
    var closed := ClosedOf(s, timeframe, cutoff);
    ClosedKeepsOrder(s, timeframe, cutoff);
    forall i | 0 <= i < |closed|
      ensures closed[i].time in m && m[closed[i].time] == closed[i] && closed[i].time + Interval(timeframe) <= cutoff
    {
      assert closed[i] in closed;
    }
  }

  /** Filtering the merge is merging the filtered lists. */
  lemma MergeCommutesWithClosed(a: seq<Candle>, b: seq<Candle>, timeframe: Timeframe, cutoff: int)
    ensures ClosedOf(MergeOf(a, b), timeframe, cutoff)
         == MergeOf(ClosedOf(a, timeframe, cutoff), ClosedOf(b, timeframe, cutoff))
  {
    hide *;
    var merged := MergeOf(a, b);
    var ca, cb := ClosedOf(a, timeframe, cutoff), ClosedOf(b, timeframe, cutoff);
    MergeLists(a, b);
    ByTimeOfConcat(a, b);
    ClosedLists(merged, ByTime(a + b), timeframe, cutoff);
    MergeLists(ca, cb);
    ByTimeOfConcat(ca, cb);
    ByTimeOfClosed(a, timeframe, cutoff);
    ByTimeOfClosed(b, timeframe, cutoff);
    ClosedMapOfUnion(ByTime(a), ByTime(b), timeframe, cutoff);
    ListingIsUnique(ClosedOf(merged, timeframe, cutoff), MergeOf(ca, cb), ByTime(ca + cb));
  }

  lemma ClosedMapOfUnion(m: map<int, Candle>, n: map<int, Candle>, timeframe: Timeframe, cutoff: int)
    ensures ClosedMap(m + n, timeframe, cutoff) == ClosedMap(m, timeframe, cutoff) + ClosedMap(n, timeframe, cutoff)
  {
  }

  // ---------- validation ----------

  predicate ValidOhlc(c: Candle) {
    && c.high >= c.open && c.high >= c.close
    && c.low <= c.open && c.low <= c.close
    && c.high >= c.low
  }

  datatype IssueCode = DuplicateOpenTime | NotStrictlyIncreasing | OhlcInvalid

  datatype Issue = Issue(code: IssueCode, index: nat)

  /** The defects of one candle, in reporting order. */
  function IssuesAt(candles: seq<Candle>, i: nat): seq<Issue>
    requires i < |candles|
  {
    var time := candles[i].time;
    (if i > 0 && time == candles[i - 1].time then [Issue(DuplicateOpenTime, i)]
     else if i > 0 && time < candles[i - 1].time then [Issue(NotStrictlyIncreasing, i)]
     else [])
    + if ValidOhlc(candles[i]) then [] else [Issue(OhlcInvalid, i)]
  }

  function IssuesUpTo(candles: seq<Candle>, n: nat): seq<Issue>
    requires n <= |candles|
  {
    if n == 0 then [] else IssuesUpTo(candles, n - 1) + IssuesAt(candles, n - 1)
  }

  function IssuesOf(candles: seq<Candle>): seq<Issue> {
    IssuesUpTo(candles, |candles|)
  }

  method ValidateSmcCandles(candles: seq<Candle>) returns (issues: seq<Issue>)
    ensures issues == IssuesOf(candles)
  {
    issues := [];
    var previousTime: Option<int> := None;
    for index := 0 to |candles|
      invariant issues == IssuesUpTo(candles, index)
      invariant previousTime == if index == 0 then None else Some(candles[index - 1].time)
    {
      var candle := candles[index];
      if previousTime.Some? && candle.time <= previousTime.value {
        var code := if candle.time == previousTime.value then DuplicateOpenTime else NotStrictlyIncreasing;
        issues := issues + [Issue(code, index)];
      }
      previousTime := Some(candle.time);
      if !ValidOhlc(candle) {
        issues := issues + [Issue(OhlcInvalid, index)];
      }
    }
  }

  predicate Explains(issue: Issue, candles: seq<Candle>) {
    && issue.index < |candles|
    && match issue.code
       case DuplicateOpenTime => issue.index > 0 && candles[issue.index].time == candles[issue.index - 1].time
       case NotStrictlyIncreasing => issue.index > 0 && candles[issue.index].time < candles[issue.index - 1].time
       case OhlcInvalid => !ValidOhlc(candles[issue.index])
  }

  lemma IssuesAtAreExact(candles: seq<Candle>, i: nat, issue: Issue)
    requires i < |candles|
    ensures issue in IssuesAt(candles, i) <==> issue.index == i && Explains(issue, candles)
  {
  }

  lemma {:induction false} IssuesUpToAreExact(candles: seq<Candle>, n: nat, issue: Issue)
    requires n <= |candles|
    ensures issue in IssuesUpTo(candles, n) <==> issue.index < n && Explains(issue, candles)
  {
    if n > 0 {
      hide Explains, IssuesAt;
      IssuesUpToAreExact(candles, n - 1, issue);
      IssuesAtAreExact(candles, n - 1, issue);
    }
  }

  /** The report contains an issue exactly when the list has that defect at that place. */
  lemma IssuesAreExact(candles: seq<Candle>, issue: Issue)
    ensures issue in IssuesOf(candles) <==> Explains(issue, candles)
  {
    IssuesUpToAreExact(candles, |candles|, issue);
  }

  lemma OrderedIffNoOrderDefect(candles: seq<Candle>)
    requires forall i :: 0 < i < |candles| ==> candles[i - 1].time < candles[i].time
    ensures StrictlyOrdered(candles)
  {
    if candles != [] {
      OrderedIffNoOrderDefect(candles[..|candles| - 1]);
      forall i | 0 <= i < |candles| - 1
        ensures candles[i].time < candles[|candles| - 1].time
      {
        assert candles[|candles| - 2].time < candles[|candles| - 1].time;
        assert candles[..|candles| - 1][i] == candles[i];
      }
    }
  }

  /** No issues exactly for strictly ordered lists of valid candles. */
  lemma NoIssuesIffValid(candles: seq<Candle>)
    ensures IssuesOf(candles) == [] <==>
              StrictlyOrdered(candles) && forall i :: 0 <= i < |candles| ==> ValidOhlc(candles[i])
  {
    if IssuesOf(candles) == [] {
      forall i | 0 <= i < |candles|
        ensures ValidOhlc(candles[i])
        ensures i > 0 ==> candles[i - 1].time < candles[i].time
      {
        IssuesAreExact(candles, Issue(OhlcInvalid, i));
        IssuesAreExact(candles, Issue(DuplicateOpenTime, i));
        IssuesAreExact(candles, Issue(NotStrictlyIncreasing, i));
      }
      OrderedIffNoOrderDefect(candles);
    } else {
      var issue := IssuesOf(candles)[0];
      IssuesAreExact(candles, issue);
    }
  }

  /** Merging lists of valid candles gives a list the validator accepts. */
  lemma MergeOfValidIsValid(a: seq<Candle>, b: seq<Candle>)
    requires forall i :: 0 <= i < |a| ==> ValidOhlc(a[i])
    requires forall i :: 0 <= i < |b| ==> ValidOhlc(b[i])
    ensures IssuesOf(MergeOf(a, b)) == []
  {
    MergeMeaning(a, b);
    NoIssuesIffValid(MergeOf(a, b));
  }

  // ---------- the terms used above ----------

  /** Valid OHLC: the high is the greatest and the low the least of the four prices. */
  lemma ValidOhlcMeaning(c: Candle)
    ensures ValidOhlc(c) <==> forall p :: p in [c.open, c.high, c.low, c.close] ==> c.low <= p <= c.high
  {
    var prices := [c.open, c.high, c.low, c.close];
    assert prices[0] in prices && prices[1] in prices && prices[2] in prices && prices[3] in prices;
  }

  /** A quarter of an hour, and the longer bars as so many shorter ones. */
  lemma IntervalMeaning()
    ensures Interval(M15) == 15 * 60 && Interval(H1) == 4 * Interval(M15) && Interval(H4) == 4 * Interval(H1)
    ensures Interval(D1) == 6 * Interval(H4)
  {
  }

  /** The filter keeps a candle exactly if a whole bar fits between its open time and the cutoff, and keeps the order. */
  lemma {:induction false} ClosedMeaning(candles: seq<Candle>, timeframe: Timeframe, cutoff: int, c: Candle)
    ensures c in ClosedOf(candles, timeframe, cutoff) <==> c in candles && c.time + Interval(timeframe) <= cutoff
    decreases |candles|
  {
    hide ClosedOf, Interval;
    if candles == [] {
      NothingClosed(timeframe, cutoff);
    } else {
      var n := |candles| - 1;
      assert candles == candles[..n] + [candles[n]];
      ClosedMeaning(candles[..n], timeframe, cutoff, c);
      ClosedOfOneMore(candles[..n], candles[n], timeframe, cutoff);
    }
  }
}

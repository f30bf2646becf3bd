/**
 The sentiment lexicon scan: terms are tried longest first, each from left to right, and an occurrence is
 accepted unless it overlaps text that is already taken.  The scan always terminates on non-empty terms
 and computes the one selection of occurrences in which exactly those without an earlier accepted rival
 are accepted.
 */
module LexiconScan {
  import Sorting

  datatype Entry = Entry(term: string, weight: int)

  /** An occurrence: the place of its term in the scanning order and where it starts in the text. */
  datatype Span = Span(rank: nat, start: nat)

  predicate LongerFirst(a: Entry, b: Entry) {
    |a.term| >= |b.term|
  }

  function ScanOrder(lexicon: seq<Entry>): seq<Entry> {
    Sorting.Sort(LongerFirst, lexicon)
  }

  predicate OccursAt(text: string, term: string, i: nat) {
    i + |term| <= |text| && text[i..i + |term|] == term
  }

  /** `str.find`: the first occurrence at or after `from`, or -1. */
  function Find(text: string, term: string, from: nat): (r: int)
    ensures r == -1 || (r >= from && OccursAt(text, term, r))
    ensures forall i: nat :: from <= i && (r < 0 || i < r) ==> !OccursAt(text, term, i)
    decreases |text| - from
  {
    if from + |term| > |text| then -1
    else if text[from..from + |term|] == term then from
    else Find(text, term, from + 1)
  }

  // ---------- what the scan is meant to select ----------

  predicate IsOccurrence(text: string, terms: seq<Entry>, o: Span) {
    o.rank < |terms| && OccursAt(text, terms[o.rank].term, o.start)
  }

  function End(terms: seq<Entry>, o: Span): nat
    requires o.rank < |terms|
  {
    o.start + |terms[o.rank].term|
  }

  predicate Overlap(terms: seq<Entry>, a: Span, b: Span) {
    a.rank < |terms| && b.rank < |terms| && a.start < End(terms, b) && b.start < End(terms, a)
  }

  /** Earlier in scanning order: an earlier term, or the same term further left. */
  predicate Precedes(a: Span, b: Span) {
    a.rank < b.rank || (a.rank == b.rank && a.start < b.start)
  }

  ghost predicate HasRival(terms: seq<Entry>, chosen: seq<Span>, o: Span) {
    exists k :: 0 <= k < |chosen| && Precedes(chosen[k], o) && Overlap(terms, chosen[k], o)
  }

  /** Exactly the occurrences without an earlier chosen rival are chosen, in scanning order. */
  ghost predicate GreedySelection(text: string, terms: seq<Entry>, chosen: seq<Span>) {
    && (forall k :: 0 <= k < |chosen| ==> IsOccurrence(text, terms, chosen[k]))
    && (forall i, j :: 0 <= i < j < |chosen| ==> Precedes(chosen[i], chosen[j]))
    && (forall o :: IsOccurrence(text, terms, o) ==> (o in chosen <==> !HasRival(terms, chosen, o)))
  }

  predicate InRange(terms: seq<Entry>, chosen: seq<Span>) {
    forall k :: 0 <= k < |chosen| ==> chosen[k].rank < |terms|
  }

  function Effective(weight: int, negated: bool): int {
    if negated then -weight else weight
  }

  /** The signed weights of the chosen spans. */
  function Sentiment(terms: seq<Entry>, chosen: seq<Span>, negated: (int, int) -> bool): int
    requires InRange(terms, chosen)
  {
    if chosen == [] then 0
    else
      var last := chosen[|chosen| - 1];
      Sentiment(terms, chosen[..|chosen| - 1], negated)
      + Effective(terms[last.rank].weight, negated(last.start, End(terms, last)))
  }

  // ---------- the scan ----------

  function Positions(first: int, beyond: int): (r: set<int>)
    ensures forall p :: p in r <==> first <= p < beyond
    decreases beyond - first
  {
    if first >= beyond then {} else {first} + Positions(first + 1, beyond)
  }

  /** The positions taken are those of the chosen spans. */
  ghost predicate Covers(terms: seq<Entry>, chosen: seq<Span>, scanned: set<int>) {
    && InRange(terms, chosen)
    && (forall p :: p in scanned <==>
          exists k :: 0 <= k < |chosen| && chosen[k].start <= p < End(terms, chosen[k]))
  }

  /** Everything before occurrence place (`rank`, `from`) has been decided as it should be. */
  ghost predicate DecidedBefore(text: string, terms: seq<Entry>, chosen: seq<Span>, rank: nat, from: nat) {
    && (forall k :: 0 <= k < |chosen| ==>
          IsOccurrence(text, terms, chosen[k]) && Precedes(chosen[k], Span(rank, from)))
    && (forall i, j :: 0 <= i < j < |chosen| ==> Precedes(chosen[i], chosen[j]))
    && (forall o :: IsOccurrence(text, terms, o) && Precedes(o, Span(rank, from)) ==>
          (o in chosen <==> !HasRival(terms, chosen, o)))
  }

  lemma TakenIffRival(text: string, terms: seq<Entry>, chosen: seq<Span>, scanned: set<int>, from: nat, o: Span)
    requires Covers(terms, chosen, scanned) && DecidedBefore(text, terms, chosen, o.rank, from)
    requires IsOccurrence(text, terms, o) && from <= o.start
    requires forall k :: 0 <= k < |terms| ==> terms[k].term != ""
    ensures (exists p :: o.start <= p < End(terms, o) && p in scanned) <==> HasRival(terms, chosen, o)
  {
    if HasRival(terms, chosen, o) {
      var k :| 0 <= k < |chosen| && Precedes(chosen[k], o) && Overlap(terms, chosen[k], o);
      var p := if chosen[k].start > o.start then chosen[k].start else o.start;
      assert p in scanned;
    }
    if p :| o.start <= p < End(terms, o) && p in scanned {
      var k :| 0 <= k < |chosen| && chosen[k].start <= p < End(terms, chosen[k]);
      assert Precedes(chosen[k], o) && Overlap(terms, chosen[k], o);
    }
  }

  /** Accepting an occurrence without rivals decides everything up to its end. */
  lemma AcceptDecides(text: string, terms: seq<Entry>, chosen: seq<Span>, from: nat, o: Span)
    requires DecidedBefore(text, terms, chosen, o.rank, from) && IsOccurrence(text, terms, o)
    requires from <= o.start && !HasRival(terms, chosen, o) && terms[o.rank].term != ""
    requires forall i: nat :: from <= i < o.start ==> !OccursAt(text, terms[o.rank].term, i)
    ensures DecidedBefore(text, terms, chosen + [o], o.rank, End(terms, o))
  {
    var more := chosen + [o];
    var next := Span(o.rank, End(terms, o));
    forall q | IsOccurrence(text, terms, q) && Precedes(q, next)
      ensures q in more <==> !HasRival(terms, more, q)
    {
      RivalsGrow(terms, chosen, o, q);
      if Precedes(q, Span(o.rank, from)) {
        assert q != o && !Precedes(o, q);
      } else if q != o {
        assert q.rank == o.rank && o.start < q.start;
        assert Overlap(terms, o, q);
        assert q !in chosen;
      }
    }
  }

  /** A new choice adds exactly itself as a rival of what it overlaps and precedes. */
  lemma RivalsGrow(terms: seq<Entry>, chosen: seq<Span>, o: Span, q: Span)
    ensures HasRival(terms, chosen + [o], q) <==> HasRival(terms, chosen, q) || (Precedes(o, q) && Overlap(terms, o, q))
  {
    var more := chosen + [o];
    if HasRival(terms, chosen, q) {
      var k :| 0 <= k < |chosen| && Precedes(chosen[k], q) && Overlap(terms, chosen[k], q);
      assert more[k] == chosen[k];
    }
    assert more[|chosen|] == o;
  }

  /** Passing over an occurrence that has a rival decides it. */
  lemma SkipDecides(text: string, terms: seq<Entry>, chosen: seq<Span>, from: nat, o: Span)
    requires DecidedBefore(text, terms, chosen, o.rank, from) && IsOccurrence(text, terms, o)
    requires from <= o.start && HasRival(terms, chosen, o)
    requires forall i: nat :: from <= i < o.start ==> !OccursAt(text, terms[o.rank].term, i)
    ensures DecidedBefore(text, terms, chosen, o.rank, o.start + 1)
  {
    forall q | IsOccurrence(text, terms, q) && Precedes(q, Span(o.rank, o.start + 1))
      ensures q in chosen <==> !HasRival(terms, chosen, q)
    {
      if !Precedes(q, Span(o.rank, from)) {
        assert q.rank == o.rank && from <= q.start <= o.start;
        assert q == o;
      }
    }
  }

  /** Once a term has no further occurrence, the next term can start from the left. */
  lemma TermDone(text: string, terms: seq<Entry>, chosen: seq<Span>, rank: nat, from: nat)
    requires DecidedBefore(text, terms, chosen, rank, from) && rank < |terms|
    requires forall i: nat :: from <= i ==> !OccursAt(text, terms[rank].term, i)
    ensures DecidedBefore(text, terms, chosen, rank + 1, 0)
  {
    forall q | IsOccurrence(text, terms, q) && Precedes(q, Span(rank + 1, 0))
      ensures q in chosen <==> !HasRival(terms, chosen, q)
    {
      assert Precedes(q, Span(rank, from));
    }
  }

  method ScanLexicon(text: string, lexicon: seq<Entry>, negated: (int, int) -> bool)
    returns (chosen: seq<Span>, rawSentiment: int)
    requires forall e :: e in lexicon ==> e.term != ""
    ensures GreedySelection(text, ScanOrder(lexicon), chosen)
    ensures InRange(ScanOrder(lexicon), chosen) && rawSentiment == Sentiment(ScanOrder(lexicon), chosen, negated)
  {
    var terms := ScanOrder(lexicon);
    Sorting.SameElements(lexicon, terms);
    assert forall k :: 0 <= k < |terms| ==> terms[k] in lexicon;
    var scanned: set<int> := {};
    chosen, rawSentiment := [], 0;
    for rank := 0 to |terms|
      invariant DecidedBefore(text, terms, chosen, rank, 0)
      invariant Covers(terms, chosen, scanned)
      invariant InRange(terms, chosen) && rawSentiment == Sentiment(terms, chosen, negated)
    {
      chosen, rawSentiment, scanned := ScanTerm(text, terms, rank, negated, chosen, rawSentiment, scanned);
    }
    LastDecides(text, terms, chosen);
  }

  /** After the last term everything is decided. */
  lemma LastDecides(text: string, terms: seq<Entry>, chosen: seq<Span>)
    requires DecidedBefore(text, terms, chosen, |terms|, 0)
    ensures GreedySelection(text, terms, chosen)
  {
  }

  /** The inner loop: all occurrences of one term, from left to right. */
  method ScanTerm(text: string, terms: seq<Entry>, rank: nat, negated: (int, int) -> bool,
                  chosen: seq<Span>, rawSentiment: int, scanned: set<int>)
    returns (chosen': seq<Span>, rawSentiment': int, scanned': set<int>)
    requires rank < |terms| && forall k :: 0 <= k < |terms| ==> terms[k].term != ""
    requires DecidedBefore(text, terms, chosen, rank, 0) && Covers(terms, chosen, scanned)
    requires InRange(terms, chosen) && rawSentiment == Sentiment(terms, chosen, negated)
    ensures DecidedBefore(text, terms, chosen', rank + 1, 0) && Covers(terms, chosen', scanned')
    ensures InRange(terms, chosen') && rawSentiment' == Sentiment(terms, chosen', negated)
  {
    hide DecidedBefore, Covers, HasRival, Sentiment, OccursAt;
    chosen', rawSentiment', scanned' := chosen, rawSentiment, scanned;
    var term, weight := terms[rank].term, terms[rank].weight;
    var from := 0;
    while true
      invariant DecidedBefore(text, terms, chosen', rank, from) && Covers(terms, chosen', scanned')
      invariant InRange(terms, chosen') && rawSentiment' == Sentiment(terms, chosen', negated)
      invariant from <= |text|
      decreases |text| + 1 - from
    {
      var idx := Find(text, term, from);
      if idx == -1 {
        TermDone(text, terms, chosen', rank, from);
        break;
      }
      var end := idx + |term|;
      ghost var o := Span(rank, idx);
      FindStaysInside(text, term, from);
      TakenIffRival(text, terms, chosen', scanned', from, o);
      if exists p :: idx <= p < end && p in scanned' {
        SkipDecides(text, terms, chosen', from, o);
        from := idx + 1;
        continue;
      }
      AcceptDecides(text, terms, chosen', from, o);
      CoverMore(terms, chosen', scanned', o);
      SentimentGrows(terms, chosen', o, negated);
      scanned' := scanned' + Positions(idx, end);
      rawSentiment' := rawSentiment' + Effective(weight, negated(idx, end));
      chosen' := chosen' + [Span(rank, idx)];
      from := end;
    }
  }

  lemma FindStaysInside(text: string, term: string, from: nat)
    ensures Find(text, term, from) != -1 ==> Find(text, term, from) + |term| <= |text|
  {
  }

  lemma CoverMore(terms: seq<Entry>, chosen: seq<Span>, scanned: set<int>, o: Span)
    requires Covers(terms, chosen, scanned) && o.rank < |terms|
    ensures Covers(terms, chosen + [o], scanned + Positions(o.start, End(terms, o)))
  {
    var more := chosen + [o];
    var taken := scanned + Positions(o.start, End(terms, o));
    assert more[|chosen|] == o;
    forall p
      ensures p in taken <==> exists k :: 0 <= k < |more| && more[k].start <= p < End(terms, more[k])
    {
      if p in scanned {
        var k :| 0 <= k < |chosen| && chosen[k].start <= p < End(terms, chosen[k]);
        assert more[k] == chosen[k];
      }
      if k :| 0 <= k < |more| && more[k].start <= p < End(terms, more[k]) {
        assert k < |chosen| ==> more[k] == chosen[k];
      }
    }
  }

  lemma SentimentGrows(terms: seq<Entry>, chosen: seq<Span>, o: Span, negated: (int, int) -> bool)
    requires InRange(terms, chosen) && o.rank < |terms|
    ensures InRange(terms, chosen + [o])
    ensures Sentiment(terms, chosen + [o], negated)
         == Sentiment(terms, chosen, negated) + Effective(terms[o.rank].weight, negated(o.start, End(terms, o)))
  {
    assert (chosen + [o])[..|chosen|] == chosen;
  }

  // ---------- what follows ----------

  /** Chosen spans spell their terms and never overlap one another. */
  lemma ChosenAreDisjoint(text: string, terms: seq<Entry>, chosen: seq<Span>, i: nat, j: nat)
    requires GreedySelection(text, terms, chosen) && i < j < |chosen|
    ensures !Overlap(terms, chosen[i], chosen[j])
    ensures text[chosen[i].start..End(terms, chosen[i])] == terms[chosen[i].rank].term
  {
    assert chosen[j] in chosen && IsOccurrence(text, terms, chosen[j]);
    assert !HasRival(terms, chosen, chosen[j]);
  }

  /** Every occurrence of any term is chosen or overlaps a chosen span at least as long. */
  lemma EveryOccurrenceIsCovered(text: string, lexicon: seq<Entry>, chosen: seq<Span>, o: Span)
    returns (cover: Span)
    requires GreedySelection(text, ScanOrder(lexicon), chosen) && IsOccurrence(text, ScanOrder(lexicon), o)
    requires forall e :: e in lexicon ==> e.term != ""
    ensures cover in chosen && Overlap(ScanOrder(lexicon), cover, o)
    ensures |ScanOrder(lexicon)[cover.rank].term| >= |ScanOrder(lexicon)[o.rank].term|
    ensures cover == o || Precedes(cover, o)
  {
    var terms := ScanOrder(lexicon);
    Sorting.SortSorts(LongerFirst, lexicon);
    Sorting.SameElements(lexicon, terms);
    assert terms[o.rank] in lexicon;
    if o in chosen {
      cover := o;
    } else {
      var k :| 0 <= k < |chosen| && Precedes(chosen[k], o) && Overlap(terms, chosen[k], o);
      cover := chosen[k];
      assert cover.rank < o.rank ==> LongerFirst(terms[cover.rank], terms[o.rank]);
    }
  }

  lemma {:induction false} SameChoiceAt(text: string, terms: seq<Entry>, a: seq<Span>, b: seq<Span>, o: Span)
    requires GreedySelection(text, terms, a) && GreedySelection(text, terms, b) && IsOccurrence(text, terms, o)
    ensures o in a <==> o in b
    decreases o.rank, o.start
  {
    forall q | IsOccurrence(text, terms, q) && Precedes(q, o)
      ensures q in a <==> q in b
    {
      SameChoiceAt(text, terms, a, b, q);
    }
    RivalsFollowMembers(text, terms, a, b, o);
    RivalsFollowMembers(text, terms, b, a, o);
  }

  lemma RivalsFollowMembers(text: string, terms: seq<Entry>, a: seq<Span>, b: seq<Span>, o: Span)
    requires forall k :: 0 <= k < |a| ==> IsOccurrence(text, terms, a[k])
    requires forall q :: IsOccurrence(text, terms, q) && Precedes(q, o) && q in a ==> q in b
    ensures HasRival(terms, a, o) ==> HasRival(terms, b, o)
  {
    if HasRival(terms, a, o) {
      var k :| 0 <= k < |a| && Precedes(a[k], o) && Overlap(terms, a[k], o);
      assert a[k] in b;
      var l :| 0 <= l < |b| && b[l] == a[k];
    }
  }

  /** The text and the lexicon fix the selection completely: same spans, same order. */
  lemma {:induction false} SelectionIsUnique(text: string, terms: seq<Entry>, a: seq<Span>, b: seq<Span>)
    requires GreedySelection(text, terms, a) && GreedySelection(text, terms, b)
    ensures a == b
  {
    forall o
      ensures o in a <==> o in b
    {
      if IsOccurrence(text, terms, o) {
        SameChoiceAt(text, terms, a, b, o);
      }
    }
    OrderedIsUnique(a, b);
  }

  lemma InFrontIff(s: seq<Span>, m: nat, o: Span)
    requires |s| == m + 1 && InScanOrder(s)
    ensures o in s[..m] <==> o in s && o != s[m]
  {
    if o in s && o != s[m] {
      var k :| 0 <= k < |s| && s[k] == o;
      assert s[..m][k] == o;
    }
  }

  ghost predicate InScanOrder(s: seq<Span>) {
    forall i, j :: 0 <= i < j < |s| ==> Precedes(s[i], s[j])
  }

  lemma LastsAgree(a: seq<Span>, b: seq<Span>)
    requires InScanOrder(a) && InScanOrder(b) && a != [] && forall o :: o in a <==> o in b
    ensures b != [] && a[|a| - 1] == b[|b| - 1]
  {
    assert a[|a| - 1] in b;
    assert b[|b| - 1] in a;
  }

  lemma {:induction false} OrderedIsUnique(a: seq<Span>, b: seq<Span>)
    requires InScanOrder(a) && InScanOrder(b) && forall o :: o in a <==> o in b
    ensures a == b
    decreases |a|
  {
    assert b != [] ==> b[0] in b;
    if a != [] {
      var m, n := |a| - 1, |b| - 1;
      LastsAgree(a, b);
      forall o
        ensures o in a[..m] <==> o in b[..n]
      {
        InFrontIff(a, m, o);
        InFrontIff(b, n, o);
      }
      OrderedIsUnique(a[..m], b[..n]);
      hide InScanOrder;
      assert a == a[..m] + [a[m]] && b == b[..n] + [b[n]];
    }
  }

  // ---------- the sentiment ----------

  /** The weights of the chosen spans that are negated, or of those that are not. */
  function WeightWhere(terms: seq<Entry>, chosen: seq<Span>, negated: (int, int) -> bool, flag: bool): int
    requires InRange(terms, chosen)
  {
    if chosen == [] then 0
    else
      var last := chosen[|chosen| - 1];
      WeightWhere(terms, chosen[..|chosen| - 1], negated, flag)
      + if negated(last.start, last.start + |terms[last.rank].term|) == flag then terms[last.rank].weight else 0
  }

  /** The sentiment is what the plain terms weigh, less what the negated ones do. */
  lemma {:induction false} SentimentMeaning(terms: seq<Entry>, chosen: seq<Span>, negated: (int, int) -> bool)
    requires InRange(terms, chosen)
    ensures Sentiment(terms, chosen, negated)
         == WeightWhere(terms, chosen, negated, false) - WeightWhere(terms, chosen, negated, true)
    decreases |chosen|
  {
    if chosen != [] {
      SentimentMeaning(terms, chosen[..|chosen| - 1], negated);
    }
  }
}

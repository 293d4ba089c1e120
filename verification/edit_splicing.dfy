/** Replacement spans: the overlap check and the reverse-order splice. */
module Splicing {
  import opened Wrappers
  import opened Sequences

  datatype Span = Span(editIndex: nat, start: nat, end: nat, replacement: string)

  // ---------- Stable sorting by start ----------

  function InsertAscending(x: Span, sorted: seq<Span>): seq<Span> {
    if sorted == [] || x.start <= sorted[0].start then [x] + sorted
    else [sorted[0]] + InsertAscending(x, sorted[1..])
  }

  /** `sorted` by start: spans with equal starts keep their order. */
  function Ascending(spans: seq<Span>): seq<Span> {
    if spans == [] then [] else InsertAscending(spans[0], Ascending(spans[1..]))
  }

  function InsertDescending(x: Span, sorted: seq<Span>): seq<Span> {
    if sorted == [] || x.start >= sorted[0].start then [x] + sorted
    else [sorted[0]] + InsertDescending(x, sorted[1..])
  }

  /** `sorted` by start with `reverse=True`: spans with equal starts still keep their order. */
  function Descending(spans: seq<Span>): seq<Span> {
    if spans == [] then [] else InsertDescending(spans[0], Descending(spans[1..]))
  }

  predicate SortedByStart(spans: seq<Span>) {
    forall i, j :: 0 <= i < j < |spans| ==> spans[i].start <= spans[j].start
  }

  predicate StrictlyIncreasing(spans: seq<Span>) {
    forall i, j :: 0 <= i < j < |spans| ==> spans[i].start < spans[j].start
  }

  lemma {:induction false} InsertKeepsBag(x: Span, sorted: seq<Span>)
    ensures multiset(InsertAscending(x, sorted)) == multiset{x} + multiset(sorted)
  {
    BagCons(x, sorted);
    if sorted != [] {
      InsertKeepsBag(x, sorted[1..]);
      BagUncons(sorted);
      BagCons(sorted[0], InsertAscending(x, sorted[1..]));
    }
  }

  lemma {:induction false} InsertSorts(x: Span, sorted: seq<Span>)
    requires SortedByStart(sorted)
    ensures SortedByStart(InsertAscending(x, sorted))
    ensures sorted != [] && x.start > sorted[0].start ==> InsertAscending(x, sorted)[0] == sorted[0]
  {
    if sorted != [] && x.start > sorted[0].start {
      var rest := InsertAscending(x, sorted[1..]);
      InsertSorts(x, sorted[1..]);
      assert sorted[0].start <= rest[0].start;
      SortedCons(sorted[0], rest);
    } else if sorted != [] {
      SortedCons(x, sorted);
    }
  }

  lemma SortedCons(x: Span, sorted: seq<Span>)
    requires SortedByStart(sorted) && (sorted != [] ==> x.start <= sorted[0].start)
    ensures SortedByStart([x] + sorted)
  {
  }

  lemma {:induction false} AscendingSorts(spans: seq<Span>)
    ensures SortedByStart(Ascending(spans)) && multiset(Ascending(spans)) == multiset(spans)
    ensures |Ascending(spans)| == |spans|
  {
    if spans != [] {
      var rest := Ascending(spans[1..]);
      AscendingSorts(spans[1..]);
      InsertSorts(spans[0], rest);
      InsertKeepsBag(spans[0], rest);
      BagUncons(spans);
    }
    assert |multiset(Ascending(spans))| == |multiset(spans)|;
  }

  lemma {:induction false} InsertDescendingMembers(x: Span, sorted: seq<Span>)
    ensures forall y :: y in InsertDescending(x, sorted) ==> y == x || y in sorted
  {
    if sorted != [] && x.start < sorted[0].start {
      InsertDescendingMembers(x, sorted[1..]);
    }
  }

  lemma {:induction false} DescendingMembers(spans: seq<Span>)
    ensures forall y :: y in Descending(spans) ==> y in spans
  {
    if spans != [] {
      DescendingMembers(spans[1..]);
      InsertDescendingMembers(spans[0], Descending(spans[1..]));
    }
  }

  predicate SortedDown(spans: seq<Span>) {
    forall i, j :: 0 <= i < j < |spans| ==> spans[i].start >= spans[j].start
  }

  lemma {:induction false} InsertSortsDown(x: Span, sorted: seq<Span>)
    requires SortedDown(sorted)
    ensures SortedDown(InsertDescending(x, sorted))
    decreases sorted
  {
    if sorted != [] && x.start < sorted[0].start {
      InsertSortsDown(x, sorted[1..]);
      InsertDescendingMembers(x, sorted[1..]);
      var rest := InsertDescending(x, sorted[1..]);
      forall j | 0 <= j < |rest| ensures sorted[0].start >= rest[j].start {
        assert rest[j] in rest;
        if rest[j] != x {
          var k :| 0 <= k < |sorted[1..]| && sorted[1..][k] == rest[j];
          assert sorted[0].start >= sorted[k + 1].start;
        }
      }
    }
  }

  lemma {:induction false} DescendingSorts(spans: seq<Span>)
    ensures SortedDown(Descending(spans))
    decreases spans
  {
    if spans != [] {
      DescendingSorts(spans[1..]);
      InsertSortsDown(spans[0], Descending(spans[1..]));
    }
  }

  // ---------- The overlap check ----------

  /** The first adjacent pair, in ascending order, whose earlier span reaches into the later one. */
  function FirstOverlap(ordered: seq<Span>): Option<(nat, nat)> {
    if |ordered| < 2 then None
    else if ordered[0].end > ordered[1].start then Some((ordered[0].editIndex, ordered[1].editIndex))
    else FirstOverlap(ordered[1..])
  }

  method ValidateNonOverlapping(spans: seq<Span>) returns (overlap: Option<(nat, nat)>)
    ensures overlap == FirstOverlap(Ascending(spans))
  {
    var ordered := Ascending(spans);
    var i := 0;
    assert ordered[0..] == ordered;
    while i + 1 < |ordered|
      invariant 0 <= i <= |ordered|
      invariant FirstOverlap(ordered) == FirstOverlap(ordered[i..])
    {
      DropDrop(ordered, i, 1);
      if ordered[i].end > ordered[i + 1].start {
        return Some((ordered[i].editIndex, ordered[i + 1].editIndex));
      }
      i := i + 1;
    }
    return None;
  }

  predicate Chained(ordered: seq<Span>) {
    forall i :: 0 <= i < |ordered| - 1 ==> ordered[i].end <= ordered[i + 1].start
  }

  lemma {:induction false} NoOverlapIsChained(ordered: seq<Span>)
    ensures FirstOverlap(ordered).None? <==> Chained(ordered)
  {
    if |ordered| >= 2 && ordered[0].end <= ordered[1].start {
      NoOverlapIsChained(ordered[1..]);
      assert forall i :: 1 <= i < |ordered| ==> ordered[i] == ordered[1..][i - 1];
      if Chained(ordered[1..]) {
        forall i | 0 <= i < |ordered| - 1 ensures ordered[i].end <= ordered[i + 1].start {
          if i > 0 {
            assert ordered[1..][i - 1].end <= ordered[1..][i].start;
          }
        }
      }
    }
  }

  predicate Disjoint(a: Span, b: Span) {
    a.end <= b.start || b.end <= a.start
  }

  predicate WellFormed(spans: seq<Span>, limit: nat) {
    forall i :: 0 <= i < |spans| ==> spans[i].start <= spans[i].end <= limit
  }

  predicate NonEmpty(spans: seq<Span>) {
    forall i :: 0 <= i < |spans| ==> spans[i].start < spans[i].end
  }

  predicate PairwiseDisjoint(spans: seq<Span>) {
    forall i, j :: 0 <= i < j < |spans| ==> Disjoint(spans[i], spans[j])
  }

  lemma {:induction false} ChainedReaches(ordered: seq<Span>, i: nat, j: nat)
    requires Chained(ordered) && NonEmpty(ordered) && i < j < |ordered|
    ensures ordered[i].end <= ordered[j].start
    decreases j - i
  {
    if i + 1 < j {
      ChainedReaches(ordered, i + 1, j);
    }
  }

  lemma ChainedIsPairwise(ordered: seq<Span>)
    requires SortedByStart(ordered) && NonEmpty(ordered)
    ensures Chained(ordered) <==> PairwiseDisjoint(ordered)
    ensures Chained(ordered) ==> StrictlyIncreasing(ordered)
  {
    if Chained(ordered) {
      forall i, j | 0 <= i < j < |ordered| ensures ordered[i].end <= ordered[j].start {
        ChainedReaches(ordered, i, j);
      }
    }
    if PairwiseDisjoint(ordered) {
      forall i | 0 <= i < |ordered| - 1 ensures ordered[i].end <= ordered[i + 1].start {
        assert Disjoint(ordered[i], ordered[i + 1]);
      }
    }
  }

  // Pairwise disjointness without indices, so that it carries over between orders of the same spans.
  ghost predicate DisjointBag(bag: multiset<Span>) {
    forall a, b :: a in bag && b in bag && (a != b || bag[a] >= 2) ==> Disjoint(a, b)
  }

  lemma {:induction false} CountTwice(spans: seq<Span>, i: nat, j: nat)
    requires i < j < |spans| && spans[i] == spans[j]
    ensures multiset(spans)[spans[i]] >= 2
  {
    Cut(spans, j);
    assert spans[i] == spans[..j][i] && spans[i] in spans[..j];
    assert spans[j] == spans[j..][0] && spans[j] in spans[j..];
    assert multiset(spans[..j] + spans[j..]) == multiset(spans[..j]) + multiset(spans[j..]);
  }

  lemma {:induction false} TwiceHasTwoPlaces(spans: seq<Span>, x: Span) returns (i: nat, j: nat)
    requires multiset(spans)[x] >= 2
    ensures i < j < |spans| && spans[i] == spans[j] == x
  {
    BagUncons(spans);
    if spans[0] == x {
      assert x in multiset(spans[1..]);
      var k :| 0 <= k < |spans| - 1 && spans[1..][k] == x;
      i, j := 0, k + 1;
    } else {
      var i', j' := TwiceHasTwoPlaces(spans[1..], x);
      i, j := i' + 1, j' + 1;
    }
  }

  lemma PairwiseIsBag(spans: seq<Span>)
    ensures PairwiseDisjoint(spans) <==> DisjointBag(multiset(spans))
  {
    if PairwiseDisjoint(spans) {
      forall a, b | a in multiset(spans) && b in multiset(spans) && (a != b || multiset(spans)[a] >= 2)
        ensures Disjoint(a, b)
      {
        if a == b {
          var i, j := TwiceHasTwoPlaces(spans, a);
          assert Disjoint(spans[i], spans[j]);
        } else {
          var i :| 0 <= i < |spans| && spans[i] == a;
          var j :| 0 <= j < |spans| && spans[j] == b;
          if i < j {
            assert Disjoint(spans[i], spans[j]);
          } else {
            assert Disjoint(spans[j], spans[i]);
          }
        }
      }
    }
    if DisjointBag(multiset(spans)) {
      forall i, j | 0 <= i < j < |spans| ensures Disjoint(spans[i], spans[j]) {
        if spans[i] == spans[j] {
          CountTwice(spans, i, j);
        }
        assert spans[i] in multiset(spans) && spans[j] in multiset(spans);
      }
    }
  }

  lemma SameBagSameShape(a: seq<Span>, b: seq<Span>)
    requires multiset(a) == multiset(b)
    ensures NonEmpty(a) ==> NonEmpty(b)
    ensures forall limit :: WellFormed(a, limit) ==> WellFormed(b, limit)
  {
    forall i | 0 <= i < |b| ensures b[i] in a {
      assert b[i] in multiset(b);
    }
  }

  /** For nonempty spans the adjacent check accepts exactly the pairwise disjoint ones. */
  lemma AdjacentCheckIsPairwise(spans: seq<Span>)
    requires NonEmpty(spans)
    ensures FirstOverlap(Ascending(spans)).None? <==> PairwiseDisjoint(spans)
    ensures PairwiseDisjoint(spans) ==> StrictlyIncreasing(Ascending(spans))
  {
    var ordered := Ascending(spans);
    AscendingSorts(spans);
    SameBagSameShape(spans, ordered);
    NoOverlapIsChained(ordered);
    ChainedIsPairwise(ordered);
    PairwiseIsBag(spans);
    PairwiseIsBag(ordered);
  }

  // ---------- The check for all spans, empty ones included ----------

  /** Of two spans in listed order, the one that starts first ends first; at one start the first is empty. */
  predicate Clear(a: Span, b: Span) {
    if a.start <= b.start then a.end <= b.start else b.end <= a.start
  }

  predicate AllClear(spans: seq<Span>) {
    forall i, j :: 0 <= i < j < |spans| ==> Clear(spans[i], spans[j])
  }

  lemma AllClearStep(spans: seq<Span>)
    requires spans != []
    ensures AllClear(spans) <==> (forall y :: y in spans[1..] ==> Clear(spans[0], y)) && AllClear(spans[1..])
  {
    hide Clear;
    if AllClear(spans) {
      forall y | y in spans[1..] ensures Clear(spans[0], y) {
        var k :| 0 <= k < |spans[1..]| && spans[1..][k] == y;
        assert Clear(spans[0], spans[k + 1]);
      }
    }
    if (forall y :: y in spans[1..] ==> Clear(spans[0], y)) && AllClear(spans[1..]) {
      forall i, j | 0 <= i < j < |spans| ensures Clear(spans[i], spans[j]) {
        assert spans[j] == spans[1..][j - 1] && spans[j] in spans[1..];
        assert i > 0 ==> spans[i] == spans[1..][i - 1];
      }
    }
  }

  lemma ChainedStep(ordered: seq<Span>)
    requires ordered != []
    ensures Chained(ordered) <==> (|ordered| > 1 ==> ordered[0].end <= ordered[1].start) && Chained(ordered[1..])
  {
    NoOverlapIsChained(ordered);
    NoOverlapIsChained(ordered[1..]);
  }

  lemma {:induction false} InsertedIsChained(x: Span, sorted: seq<Span>)
    requires SortedByStart(sorted)
    ensures Chained(InsertAscending(x, sorted)) <==> Chained(sorted) && forall y :: y in sorted ==> Clear(x, y)
    decreases sorted
  {
    hide Chained;
    var inserted := InsertAscending(x, sorted);
    ChainedStep(inserted);
    if sorted == [] || x.start <= sorted[0].start {
      assert inserted[1..] == sorted;
      assert sorted != [] ==> sorted[0] in sorted;
    } else {
      var rest := sorted[1..];
      ChainedStep(sorted);
      InsertedIsChained(x, rest);
      assert inserted[1..] == InsertAscending(x, rest);
      assert sorted[0] in sorted && forall y :: y in sorted <==> y == sorted[0] || y in rest;
    }
  }

  /** The adjacent check accepts exactly the spans that are clear of each other in listed order. */
  lemma {:induction false} AdjacentCheckIsClear(spans: seq<Span>)
    ensures FirstOverlap(Ascending(spans)).None? <==> AllClear(spans)
    decreases spans
  {
    hide Chained, AllClear, SortedByStart, FirstOverlap;
    NoOverlapIsChained(Ascending(spans));
    if spans == [] {
      NoneAreClear();
    } else {
      var rest := Ascending(spans[1..]);
      AdjacentCheckIsClear(spans[1..]);
      NoOverlapIsChained(rest);
      AscendingSorts(spans[1..]);
      InsertedIsChained(spans[0], rest);
      AllClearStep(spans);
      assert forall y :: y in rest <==> y in multiset(rest);
    }
  }

  lemma NoneAreClear()
    ensures AllClear([]) && Chained([])
  {
  }

  lemma {:induction false} InsertedIsClear(x: Span, sorted: seq<Span>)
    requires AllClear(sorted) && forall y :: y in sorted ==> Clear(x, y)
    ensures AllClear(InsertDescending(x, sorted))
    decreases sorted
  {
    hide AllClear;
    var inserted := InsertDescending(x, sorted);
    AllClearStep(inserted);
    if sorted == [] || x.start >= sorted[0].start {
      assert inserted[1..] == sorted;
    } else {
      AllClearStep(sorted);
      assert sorted[0] in sorted;
      InsertedIsClear(x, sorted[1..]);
      InsertDescendingMembers(x, sorted[1..]);
      assert inserted[1..] == InsertDescending(x, sorted[1..]);
    }
  }

  /** The order in which spans are spliced is as clear as the listed order. */
  lemma {:induction false} DescendingIsClear(spans: seq<Span>)
    requires AllClear(spans)
    ensures AllClear(Descending(spans))
    decreases spans
  {
    hide AllClear, Clear;
    if spans == [] {
      NoneAreClear();
    } else {
      AllClearStep(spans);
      DescendingIsClear(spans[1..]);
      DescendingMembers(spans[1..]);
      InsertedIsClear(spans[0], Descending(spans[1..]));
    }
  }

  // ---------- Splicing ----------

  function Clamp(i: nat, s: string): nat {
    if i <= |s| then i else |s|
  }

  /** One replacement, with slices that stop at the end of the text. */
  function ApplySpan(text: string, span: Span): string {
    text[..Clamp(span.start, text)] + (span.replacement + text[Clamp(span.end, text)..])
  }

  function ApplyInOrder(text: string, spans: seq<Span>): string
    decreases spans
  {
    if spans == [] then text else ApplyInOrder(ApplySpan(text, spans[0]), spans[1..])
  }

  /** The spliced text: spans applied from the last start to the first. */
  function Splice(text: string, spans: seq<Span>): string {
    ApplyInOrder(text, Descending(spans))
  }

  method SpliceTextSpans(content: string, spans: seq<Span>) returns (result: string)
    ensures result == Splice(content, spans)
  {
    result := content;
    var ordered := Descending(spans);
    var i := 0;
    assert ordered[0..] == ordered;
    while i < |ordered|
      invariant 0 <= i <= |ordered|
      invariant Splice(content, spans) == ApplyInOrder(result, ordered[i..])
    {
      DropDrop(ordered, i, 1);
      result := ApplySpan(result, ordered[i]);
      i := i + 1;
    }
  }

  /**
   * Simultaneous replacement on the original text, from `from` on: each gap between spans is
   * copied character for character and each span is exchanged for its replacement.
   */
  function Simultaneous(text: string, ordered: seq<Span>, from: nat): string
    requires from <= |text| && WellFormed(ordered, |text|) && Chained(ordered)
    requires ordered != [] ==> from <= ordered[0].start
    decreases |ordered|
  {
    if ordered == [] then text[from..]
    else
      assert Chained(ordered[1..]) && WellFormed(ordered[1..], |text|) by { TailShape(ordered, |text|); }
      text[from..ordered[0].start] + (ordered[0].replacement + Simultaneous(text, ordered[1..], ordered[0].end))
  }

  lemma TailShape(ordered: seq<Span>, limit: nat)
    requires ordered != [] && WellFormed(ordered, limit) && Chained(ordered)
    ensures WellFormed(ordered[1..], limit) && Chained(ordered[1..])
    ensures StrictlyIncreasing(ordered) ==> StrictlyIncreasing(ordered[1..])
    ensures |ordered| > 1 ==> ordered[0].end <= ordered[1..][0].start
  {
    assert forall i :: 0 <= i < |ordered| - 1 ==> ordered[1..][i] == ordered[i + 1];
  }

  // ---------- Strictly increasing starts: descending order is ascending order reversed ----------

  predicate DistinctFrom(x: Span, spans: seq<Span>) {
    forall i :: 0 <= i < |spans| ==> spans[i].start != x.start
  }

  predicate DistinctStarts(spans: seq<Span>) {
    forall i, j :: 0 <= i < j < |spans| ==> spans[i].start != spans[j].start
  }

  /** Inserting before a last span with a smaller start does not look at it. */
  lemma {:induction false} InsertDescendingBefore(x: Span, sorted: seq<Span>, last: Span)
    ensures x.start > last.start ==> InsertDescending(x, sorted + [last]) == InsertDescending(x, sorted) + [last]
    ensures (x.start < last.start && forall i :: 0 <= i < |sorted| ==> x.start < sorted[i].start) ==>
              InsertDescending(x, sorted + [last]) == sorted + [last] + [x]
  {
    if sorted == [] {
      assert sorted + [last] == [last];
      assert InsertDescending(x, [last][1..]) == [x];
    } else {
      ConcatTail(sorted, [last]);
      InsertDescendingBefore(x, sorted[1..], last);
      HeadTail(sorted);
      Assoc([sorted[0]], InsertDescending(x, sorted[1..]), [last]);
      Assoc([sorted[0]], sorted[1..], [last]);
      Assoc([sorted[0]], sorted[1..] + [last], [x]);
    }
  }

  lemma {:induction false} InsertReversed(x: Span, sorted: seq<Span>)
    requires SortedByStart(sorted) && DistinctFrom(x, sorted)
    ensures InsertDescending(x, Reversed(sorted)) == Reversed(InsertAscending(x, sorted))
  {
    if sorted != [] {
      var rest := sorted[1..];
      ReversedStep(sorted);
      ReversedStep(InsertAscending(x, sorted));
      InsertDescendingBefore(x, Reversed(rest), sorted[0]);
      if x.start > sorted[0].start {
        InsertReversed(x, rest);
        Cons(sorted[0], InsertAscending(x, rest));
      } else {
        ReversedMembers(rest);
        Cons(x, sorted);
      }
    }
  }

  lemma {:induction false} ReversedMembers(spans: seq<Span>)
    ensures multiset(Reversed(spans)) == multiset(spans)
    ensures forall i :: 0 <= i < |Reversed(spans)| ==> Reversed(spans)[i] in spans
  {
    if spans != [] {
      ReversedStep(spans);
      ReversedMembers(spans[1..]);
      BagConcat(Reversed(spans[1..]), [spans[0]]);
      BagUncons(spans);
    }
  }

  lemma {:induction false} DescendingIsReversed(spans: seq<Span>)
    requires DistinctStarts(spans)
    ensures Descending(spans) == Reversed(Ascending(spans))
  {
    if spans != [] {
      var rest := Ascending(spans[1..]);
      DescendingIsReversed(spans[1..]);
      AscendingSorts(spans[1..]);
      forall i | 0 <= i < |rest| ensures rest[i].start != spans[0].start {
        assert rest[i] in multiset(spans[1..]);
        var k :| 0 <= k < |spans[1..]| && spans[1..][k] == rest[i];
        assert spans[0].start != spans[k + 1].start;
      }
      InsertReversed(spans[0], rest);
    }
  }

  lemma StrictMeansDistinct(spans: seq<Span>)
    requires StrictlyIncreasing(Ascending(spans))
    ensures DistinctStarts(spans)
  {
    var ordered := Ascending(spans);
    AscendingSorts(spans);
    forall i, j | 0 <= i < j < |spans| ensures spans[i].start != spans[j].start {
      assert spans[i] in multiset(ordered) && spans[j] in multiset(ordered);
      if spans[i] == spans[j] {
        CountTwice(spans, i, j);
        var a, b := TwiceHasTwoPlaces(ordered, spans[i]);
        assert false;
      }
      var a :| 0 <= a < |ordered| && ordered[a] == spans[i];
      var b :| 0 <= b < |ordered| && ordered[b] == spans[j];
      assert a < b || b < a;
    }
  }

  // ---------- The splice theorem ----------

  lemma {:induction false} ApplyInOrderConcat(text: string, a: seq<Span>, b: seq<Span>)
    ensures ApplyInOrder(text, a + b) == ApplyInOrder(ApplyInOrder(text, a), b)
    decreases a
  {
    if a == [] {
      assert a + b == b;
    } else {
      ConcatTail(a, b);
      ApplyInOrderConcat(ApplySpan(text, a[0]), a[1..], b);
    }
  }

  /** Splicing all but the first span changes nothing before that span's end. */
  lemma {:induction false} ReverseSpliceIsSimultaneous(text: string, ordered: seq<Span>, from: nat)
    requires from <= |text| && WellFormed(ordered, |text|) && Chained(ordered)
    requires ordered != [] ==> from <= ordered[0].start
    ensures ApplyInOrder(text, Reversed(ordered)) == text[..from] + Simultaneous(text, ordered, from)
    decreases |ordered|
  {
    if ordered == [] {
      Cut(text, from);
    } else {
      var first, rest := ordered[0], ordered[1..];
      TailShape(ordered, |text|);
      ReversedStep(ordered);
      ReverseSpliceIsSimultaneous(text, rest, first.end);
      ApplyInOrderConcat(text, Reversed(rest), [first]);
      var tail := Simultaneous(text, rest, first.end);
      var spliced := text[..first.end] + tail;
      assert ApplyInOrder(spliced, [first]) == ApplySpan(spliced, first) by { assert [first][1..] == []; }
      ApplyFirst(text, first, tail, from);
    }
  }

  lemma ApplyFirst(text: string, span: Span, tail: string, from: nat)
    requires from <= span.start <= span.end <= |text|
    ensures ApplySpan(text[..span.end] + tail, span)
         == text[..from] + (text[from..span.start] + (span.replacement + tail))
  {
    var spliced := text[..span.end] + tail;
    Parts(text[..span.end], tail);
    assert spliced[..span.start] == text[..span.start];
    assert text[..span.start] == text[..from] + text[from..span.start];
    Assoc(text[..from], text[from..span.start], span.replacement + tail);
  }

  /**
   * Splicing spans with strictly increasing starts that pass the overlap check is simultaneous
   * replacement on the original text.
   */
  lemma SpliceIsSimultaneous(text: string, spans: seq<Span>)
    requires WellFormed(spans, |text|)
    requires StrictlyIncreasing(Ascending(spans)) && FirstOverlap(Ascending(spans)).None?
    ensures WellFormed(Ascending(spans), |text|) && Chained(Ascending(spans))
    ensures Splice(text, spans) == Simultaneous(text, Ascending(spans), 0)
  {
    var ordered := Ascending(spans);
    AscendingSorts(spans);
    SameBagSameShape(spans, ordered);
    NoOverlapIsChained(ordered);
    StrictMeansDistinct(spans);
    DescendingIsReversed(spans);
    ReverseSpliceIsSimultaneous(text, ordered, 0);
    assert text[..0] + Simultaneous(text, ordered, 0) == Simultaneous(text, ordered, 0);
  }

  // ---------- Length and order ----------

  function Growth(spans: seq<Span>): int
    requires forall i :: 0 <= i < |spans| ==> spans[i].start <= spans[i].end
  {
    if spans == [] then 0
    else |spans[0].replacement| - (spans[0].end - spans[0].start) + Growth(spans[1..])
  }

  lemma {:induction false} DescendingGrowth(spans: seq<Span>, limit: nat)
    requires WellFormed(spans, limit)
    ensures WellFormed(Descending(spans), limit) && Growth(Descending(spans)) == Growth(spans)
    decreases spans
  {
    if spans != [] {
      DescendingGrowth(spans[1..], limit);
      InsertedGrowth(spans[0], Descending(spans[1..]), limit);
    }
  }

  lemma {:induction false} InsertedGrowth(x: Span, sorted: seq<Span>, limit: nat)
    requires x.start <= x.end <= limit && WellFormed(sorted, limit)
    ensures var inserted := InsertDescending(x, sorted);
            WellFormed(inserted, limit) && Growth(inserted) == Growth([x]) + Growth(sorted)
    decreases sorted
  {
    assert [x][1..] == [];
    if sorted == [] || x.start >= sorted[0].start {
      assert ([x] + sorted)[1..] == sorted;
    } else {
      InsertedGrowth(x, sorted[1..], limit);
    }
  }

  /** Spans applied from the last start to the first always find their whole range in the current text. */
  lemma {:induction false} AppliedLength(text: string, spans: seq<Span>)
    requires WellFormed(spans, |text|) && SortedDown(spans) && AllClear(spans)
    ensures |ApplyInOrder(text, spans)| == |text| + Growth(spans)
    decreases spans
  {
    if spans != [] {
      var x, rest, next := spans[0], spans[1..], ApplySpan(text, spans[0]);
      forall i | 0 <= i < |rest| ensures rest[i].start <= rest[i].end <= |next| {
        assert rest[i] == spans[i + 1] && Clear(x, spans[i + 1]);
      }
      AppliedLength(next, rest);
    }
  }

  /** For all spans that pass the check, tied ones included, the length changes by what the spans exchange. */
  lemma SpliceLength(text: string, spans: seq<Span>)
    requires WellFormed(spans, |text|) && FirstOverlap(Ascending(spans)).None?
    ensures |Splice(text, spans)| == |text| + Growth(spans)
  {
    hide AllClear, SortedDown, ApplyInOrder, Ascending, Descending, FirstOverlap;
    AdjacentCheckIsClear(spans);
    DescendingIsClear(spans);
    DescendingSorts(spans);
    DescendingGrowth(spans, |text|);
    AppliedLength(text, Descending(spans));
  }

  lemma {:induction false} SortedBagsAreEqual(a: seq<Span>, b: seq<Span>)
    requires multiset(a) == multiset(b) && StrictlyIncreasing(a) && SortedByStart(b)
    ensures a == b
  {
    if a == [] {
      assert |multiset(b)| == 0;
    } else {
      assert a[0] in multiset(b) && |multiset(b)| == |a|;
      var k :| 0 <= k < |b| && b[k] == a[0];
      assert b[0] in multiset(a);
      var j :| 0 <= j < |a| && a[j] == b[0];
      assert b[0].start <= b[k].start;
      assert j == 0;
      BagUncons(a);
      BagUncons(b);
      BagCancel(a[0], multiset(a[1..]), multiset(b[1..]));
      SortedBagsAreEqual(a[1..], b[1..]);
      HeadTail(a);
      HeadTail(b);
    }
  }

  /** The order in which the edits are listed does not matter. */
  lemma SpliceIgnoresOrder(text: string, spans: seq<Span>, shuffled: seq<Span>)
    requires WellFormed(spans, |text|) && multiset(spans) == multiset(shuffled)
    requires StrictlyIncreasing(Ascending(spans)) && FirstOverlap(Ascending(spans)).None?
    ensures Ascending(shuffled) == Ascending(spans)
    ensures Splice(text, shuffled) == Splice(text, spans)
  {
    AscendingSorts(spans);
    AscendingSorts(shuffled);
    SortedBagsAreEqual(Ascending(spans), Ascending(shuffled));
    SameBagSameShape(spans, shuffled);
    SpliceIsSimultaneous(text, spans);
    SpliceIsSimultaneous(text, shuffled);
  }

  function TwoAtOnce(text: string, a: Span, b: Span): string
    requires a.start <= a.end <= b.start <= b.end <= |text|
  {
    text[..a.start] + (a.replacement + (text[a.end..b.start] + (b.replacement + text[b.end..])))
  }

  lemma TwoSpans(text: string, a: Span, b: Span)
    requires a.start <= a.end <= b.start <= b.end <= |text|
    ensures Splice(text, [a, b])
         == if a.start < b.start then TwoAtOnce(text, a, b) else ApplySpan(ApplySpan(text, a), b)
  {
    var spans := [a, b];
    assert spans[1..] == [b] && [b][1..] == [];
    assert Descending([b]) == [b];
    assert InsertDescending(a, [b][1..]) == [a];
    assert InsertDescending(a, [b]) == if a.start >= b.start then [a] + [b] else [b] + [a];
    assert Descending(spans) == InsertDescending(a, Descending([b]));
    ApplyInOrderConcat(text, [Descending(spans)[0]], [Descending(spans)[1]]);
    assert forall x: Span, t :: ApplyInOrder(t, [x]) == ApplySpan(t, x) by {
      forall x: Span, t ensures ApplyInOrder(t, [x]) == ApplySpan(t, x) {
        assert [x][1..] == [];
      }
    }
    assert Descending(spans) == [Descending(spans)[0]] + [Descending(spans)[1]];
    if a.start < b.start {
      var tail := b.replacement + text[b.end..];
      var once := ApplySpan(text, b);
      Parts(text[..b.start], tail);
      assert once == text[..b.start] + tail;
      assert once[..a.start] == text[..a.start];
      assert once[a.end..] == text[a.end..b.start] + tail;
    }
  }

  /** With a tie the first replacement is pushed into the second span and cut there. */
  lemma TiedSplice(text: string, a: Span, b: Span, c: char)
    requires a.start == a.end == b.start <= b.end <= |text|
    requires c != 'Z' && (b.start < b.end ==> c != text[b.end - 1])
    ensures var q := if b.start == b.end then "Z" else "";
            var a', b' := a.(replacement := [c]), b.(replacement := q);
            ApplySpan(ApplySpan(text, a'), b') != TwoAtOnce(text, a', b')
  {
    var s, e := b.start, b.end;
    var once := ApplySpan(text, a.(replacement := [c]));
    var after := [c] + text[s..];
    assert once == text[..s] + after && once[..s] == text[..s];
    if s == e {
      assert ApplySpan(once, b.(replacement := "Z"))[s] == 'Z';
      assert TwoAtOnce(text, a.(replacement := [c]), b.(replacement := "Z"))[s] == c;
    } else {
      assert after[e - s] == text[s..][e - s - 1];
      assert once[e] == after[e - s];
      assert ApplySpan(once, b.(replacement := "")) == text[..s] + ("" + once[e..]);
      assert (text[..s] + ("" + once[e..]))[s] == once[e];
      assert TwoAtOnce(text, a.(replacement := [c]), b.(replacement := ""))[s] == c;
    }
  }
}

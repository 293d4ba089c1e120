/** Spans with a common start: exactly when splicing is simultaneous whatever the replacement texts are. */
module SpliceTies {
  import opened Sequences
  import opened Splicing

  /** The spans, with other replacement texts. */
  function Replaced(spans: seq<Span>, texts: seq<string>): (r: seq<Span>)
    requires |texts| == |spans|
    ensures |r| == |spans|
    ensures forall i :: 0 <= i < |r| ==> r[i] == spans[i].(replacement := texts[i])
  {
    seq(|spans|, i requires 0 <= i < |spans| => spans[i].(replacement := texts[i]))
  }

  /** The splice of the spans is simultaneous replacement on the original text. */
  predicate SplicedAtOnce(text: string, spans: seq<Span>) {
    var ordered := Ascending(spans);
    && WellFormed(ordered, |text|) && Chained(ordered)
    && Splice(text, spans) == Simultaneous(text, ordered, 0)
  }

  // ---------- Sorting looks at starts only ----------

  predicate SamePlaces(a: seq<Span>, b: seq<Span>) {
    |a| == |b| && forall i :: 0 <= i < |a| ==> a[i].start == b[i].start && a[i].end == b[i].end
  }

  lemma {:induction false} InsertSamePlaces(x: Span, a: seq<Span>, y: Span, b: seq<Span>)
    requires SamePlaces(a, b) && x.start == y.start && x.end == y.end
    ensures SamePlaces(InsertAscending(x, a), InsertAscending(y, b))
    decreases a
  {
    if a != [] && x.start > a[0].start {
      InsertSamePlaces(x, a[1..], y, b[1..]);
    }
  }

  lemma {:induction false} AscendingSamePlaces(a: seq<Span>, b: seq<Span>)
    requires SamePlaces(a, b)
    ensures SamePlaces(Ascending(a), Ascending(b))
    decreases a
  {
    if a != [] {
      AscendingSamePlaces(a[1..], b[1..]);
      InsertSamePlaces(a[0], Ascending(a[1..]), b[0], Ascending(b[1..]));
    }
  }

  // ---------- The spans before, at and behind a position ----------

  function Rank(x: Span, s: nat): int {
    if x.start < s then -1 else if x.start == s then 0 else 1
  }

  function OfRank(spans: seq<Span>, s: nat, rank: int): seq<Span> {
    if spans == [] then []
    else (if Rank(spans[0], s) == rank then [spans[0]] else []) + OfRank(spans[1..], s, rank)
  }

  lemma {:induction false} OfRankConcat(a: seq<Span>, b: seq<Span>, s: nat, rank: int)
    ensures OfRank(a + b, s, rank) == OfRank(a, s, rank) + OfRank(b, s, rank)
    decreases a
  {
    hide Rank;
    if a == [] {
      assert [] + b == b && [] + OfRank(b, s, rank) == OfRank(b, s, rank);
    } else {
      ConcatTail(a, b);
      OfRankConcat(a[1..], b, s, rank);
      Assoc(if Rank(a[0], s) == rank then [a[0]] else [], OfRank(a[1..], s, rank), OfRank(b, s, rank));
    }
  }

  lemma OfRankOne(x: Span, s: nat, rank: int)
    ensures OfRank([x], s, rank) == if Rank(x, s) == rank then [x] else []
  {
    assert [x][1..] == [];
  }

  lemma {:induction false} OfRankMembers(spans: seq<Span>, s: nat, rank: int)
    ensures forall x :: x in OfRank(spans, s, rank) <==> x in spans && Rank(x, s) == rank
    decreases spans
  {
    hide Rank;
    if spans != [] {
      OfRankMembers(spans[1..], s, rank);
      HeadTail(spans);
      var here, rest := if Rank(spans[0], s) == rank then [spans[0]] else [], OfRank(spans[1..], s, rank);
      forall x ensures x in here + rest <==> x in spans && Rank(x, s) == rank {
        InConcat(here, rest, x);
        InConcat([spans[0]], spans[1..], x);
      }
    }
  }

  lemma {:induction false} OfRankNone(spans: seq<Span>, s: nat, rank: int)
    requires forall x :: x in spans ==> Rank(x, s) != rank
    ensures OfRank(spans, s, rank) == []
    decreases spans
  {
    if spans != [] {
      OfRankNone(spans[1..], s, rank);
    }
  }

  /** Both sorts are stable: they keep the order of the spans at one start. */
  lemma {:induction false} AscendingKeepsTies(spans: seq<Span>, s: nat)
    ensures OfRank(Ascending(spans), s, 0) == OfRank(spans, s, 0)
    decreases spans
  {
    if spans != [] {
      AscendingKeepsTies(spans[1..], s);
      InsertAscendingTie(spans[0], Ascending(spans[1..]), s);
    }
  }

  lemma {:induction false} InsertAscendingTie(x: Span, sorted: seq<Span>, s: nat)
    ensures OfRank(InsertAscending(x, sorted), s, 0) == (if x.start == s then [x] else []) + OfRank(sorted, s, 0)
    decreases sorted
  {
    if sorted == [] || x.start <= sorted[0].start {
      Cons(x, sorted);
    } else {
      InsertAscendingTie(x, sorted[1..], s);
      Cons(sorted[0], InsertAscending(x, sorted[1..]));
      TieStep(x, sorted, s);
    }
  }

  lemma {:induction false} DescendingKeepsTies(spans: seq<Span>, s: nat)
    ensures OfRank(Descending(spans), s, 0) == OfRank(spans, s, 0)
    decreases spans
  {
    if spans != [] {
      DescendingKeepsTies(spans[1..], s);
      InsertDescendingTie(spans[0], Descending(spans[1..]), s);
    }
  }

  lemma {:induction false} InsertDescendingTie(x: Span, sorted: seq<Span>, s: nat)
    ensures OfRank(InsertDescending(x, sorted), s, 0) == (if x.start == s then [x] else []) + OfRank(sorted, s, 0)
    decreases sorted
  {
    if sorted == [] || x.start >= sorted[0].start {
      Cons(x, sorted);
    } else {
      InsertDescendingTie(x, sorted[1..], s);
      Cons(sorted[0], InsertDescending(x, sorted[1..]));
      TieStep(x, sorted, s);
    }
  }

  /** A span passed over by an insertion has another start. */
  lemma TieStep(x: Span, sorted: seq<Span>, s: nat)
    requires sorted != [] && sorted[0].start != x.start
    ensures var head := if sorted[0].start == s then [sorted[0]] else [];
            var mine := if x.start == s then [x] else [];
            head + (mine + OfRank(sorted[1..], s, 0)) == mine + OfRank(sorted, s, 0)
  {
    hide OfRank;
    var rest := OfRank(sorted[1..], s, 0);
    assert OfRank(sorted, s, 0) == (if sorted[0].start == s then [sorted[0]] else []) + rest by { TieHead(sorted, s); }
    assert [] + rest == rest;
    if sorted[0].start == s {
      assert [] + ([sorted[0]] + rest) == [sorted[0]] + rest;
    } else if x.start == s {
      assert [] + ([x] + rest) == [x] + rest;
    }
  }

  lemma TieHead(spans: seq<Span>, s: nat)
    requires spans != []
    ensures OfRank(spans, s, 0) == (if spans[0].start == s then [spans[0]] else []) + OfRank(spans[1..], s, 0)
  {
  }

  // ---------- Sorted spans fall into three parts ----------

  lemma OfRankStep(spans: seq<Span>, s: nat, rank: int)
    requires spans != []
    ensures Rank(spans[0], s) == rank ==> OfRank(spans, s, rank) == [spans[0]] + OfRank(spans[1..], s, rank)
    ensures Rank(spans[0], s) != rank ==> OfRank(spans, s, rank) == OfRank(spans[1..], s, rank)
  {
    assert [] + OfRank(spans[1..], s, rank) == OfRank(spans[1..], s, rank);
  }

  lemma {:induction false} AscendingParts(spans: seq<Span>, s: nat)
    requires SortedByStart(spans)
    ensures spans == OfRank(spans, s, -1) + (OfRank(spans, s, 0) + OfRank(spans, s, 1))
    decreases spans
  {
    if spans == [] {
    } else {
      var rest := spans[1..];
      AscendingParts(rest, s);
      if Rank(spans[0], s) > -1 {
        OfRankNone(rest, s, -1);
      }
      if Rank(spans[0], s) > 0 {
        OfRankNone(rest, s, 0);
      }
      PartsStep(spans, s, -1, 1);
    }
  }

  lemma {:induction false} DescendingParts(spans: seq<Span>, s: nat)
    requires SortedDown(spans)
    ensures spans == OfRank(spans, s, 1) + (OfRank(spans, s, 0) + OfRank(spans, s, -1))
    decreases spans
  {
    if spans == [] {
    } else {
      var rest := spans[1..];
      DescendingParts(rest, s);
      if Rank(spans[0], s) < 1 {
        OfRankNone(rest, s, 1);
      }
      if Rank(spans[0], s) < 0 {
        OfRankNone(rest, s, 0);
      }
      PartsStep(spans, s, 1, -1);
    }
  }

  /** One more span in front of three parts, when the parts that come before its own are empty. */
  lemma PartsStep(spans: seq<Span>, s: nat, first: int, last: int)
    requires spans != [] && {first, last} == {-1, 1}
    requires spans[1..] == OfRank(spans[1..], s, first) + (OfRank(spans[1..], s, 0) + OfRank(spans[1..], s, last))
    requires Rank(spans[0], s) != first ==> OfRank(spans[1..], s, first) == []
    requires Rank(spans[0], s) == last ==> OfRank(spans[1..], s, 0) == []
    ensures spans == OfRank(spans, s, first) + (OfRank(spans, s, 0) + OfRank(spans, s, last))
  {
    OfRankStep(spans, s, first);
    OfRankStep(spans, s, 0);
    OfRankStep(spans, s, last);
    HeadTail(spans);
    assert Rank(spans[0], s) in {first, 0, last};
    hide OfRank, Rank;
    var head := [spans[0]];
    var a, b, c := OfRank(spans[1..], s, first), OfRank(spans[1..], s, 0), OfRank(spans[1..], s, last);
    Assoc(head, a, b + c);
    if a == [] {
      assert [] + (b + c) == b + c && [] + ((head + b) + c) == (head + b) + c;
      Assoc(head, b, c);
      if b == [] {
        assert [] + c == c && [] + (head + c) == head + c;
      }
    }
  }

  // ---------- Spans that keep their own text ----------

  predicate Idle(text: string, x: Span) {
    x.start <= x.end <= |text| && x.replacement == text[x.start..x.end]
  }

  lemma IdleSpan(text: string, current: string, s: nat, x: Span)
    requires s <= |text| && s <= |current| && text[..s] == current[..s] && Idle(text, x) && x.end <= s
    ensures ApplySpan(current, x) == current
  {
    TakeTake(text, s, x.end);
    TakeTake(current, s, x.end);
    TakeTake(text, x.end, x.start);
    TakeTake(current, x.end, x.start);
    Cut(current[..x.end], x.start);
    Cut(current, x.end);
    Assoc(current[..x.start], x.replacement, current[x.end..]);
  }

  lemma {:induction false} IdleSpans(text: string, current: string, s: nat, spans: seq<Span>)
    requires s <= |text| && s <= |current| && text[..s] == current[..s]
    requires forall x :: x in spans ==> Idle(text, x) && x.end <= s
    ensures ApplyInOrder(current, spans) == current
    decreases spans
  {
    hide Idle, ApplySpan;
    if spans != [] {
      assert spans[0] in spans && forall x :: x in spans[1..] ==> x in spans;
      IdleSpan(text, current, s, spans[0]);
      IdleSpans(text, current, s, spans[1..]);
    }
  }

  lemma GapSplit(text: string, ordered: seq<Span>, from: nat, mid: nat)
    requires from <= mid <= |text| && WellFormed(ordered, |text|) && Chained(ordered)
    requires ordered != [] ==> mid <= ordered[0].start
    ensures Simultaneous(text, ordered, from) == text[from..mid] + Simultaneous(text, ordered, mid)
  {
    if ordered == [] {
      assert text[from..] == text[from..mid] + text[mid..];
    } else {
      var start := ordered[0].start;
      TailShape(ordered, |text|);
      assert text[from..start] == text[from..mid] + text[mid..start];
      Assoc(text[from..mid], text[mid..start],
            ordered[0].replacement + Simultaneous(text, ordered[1..], ordered[0].end));
    }
  }

  /** Idle spans in front can be dropped from simultaneous replacement. */
  lemma {:induction false} IdleInFront(text: string, pre: seq<Span>, rest: seq<Span>, from: nat)
    requires WellFormed(pre + rest, |text|) && Chained(pre + rest) && from <= |text|
    requires pre + rest != [] ==> from <= (pre + rest)[0].start
    requires forall x :: x in pre ==> Idle(text, x)
    ensures WellFormed(rest, |text|) && Chained(rest) && (rest != [] ==> from <= rest[0].start)
    ensures Simultaneous(text, pre + rest, from) == Simultaneous(text, rest, from)
    decreases pre
  {
    hide Simultaneous, Idle, WellFormed, Chained;
    if pre == [] {
      assert [] + rest == rest;
    } else {
      var all, head := pre + rest, pre[0];
      ConcatTail(pre, rest);
      assert head in pre && forall x :: x in pre[1..] ==> x in pre;
      IdleHead(text, all, from);
      IdleInFront(text, pre[1..], rest, head.end);
      GapSplit(text, rest, from, head.end);
    }
  }

  lemma IdleHead(text: string, ordered: seq<Span>, from: nat)
    requires ordered != [] && WellFormed(ordered, |text|) && Chained(ordered) && from <= ordered[0].start
    requires Idle(text, ordered[0])
    ensures WellFormed(ordered[1..], |text|) && Chained(ordered[1..])
    ensures ordered[0].start <= ordered[0].end <= |text|
    ensures |ordered| > 1 ==> ordered[0].end <= ordered[1..][0].start
    ensures Simultaneous(text, ordered, from)
         == text[from..ordered[0].end] + Simultaneous(text, ordered[1..], ordered[0].end)
  {
    TailShape(ordered, |text|);
    var head := ordered[0];
    assert text[from..head.end] == text[from..head.start] + text[head.start..head.end];
    Assoc(text[from..head.start], text[head.start..head.end], Simultaneous(text, ordered[1..], head.end));
  }

  // ---------- A tie, and texts that show it ----------

  lemma {:induction false} LastAt(spans: seq<Span>, s: nat) returns (q: nat)
    requires OfRank(spans, s, 0) != []
    ensures q < |spans| && spans[q].start == s && forall k :: q < k < |spans| ==> spans[k].start != s
    decreases |spans|
  {
    assert spans != [];
    var front, last := spans[..|spans| - 1], spans[|spans| - 1];
    assert spans == front + [last];
    OfRankConcat(front, [last], s, 0);
    OfRankOne(last, s, 0);
    if last.start == s {
      q := |spans| - 1;
    } else {
      assert OfRank(front, s, 0) + [] == OfRank(front, s, 0);
      q := LastAt(front, s);
    }
  }

  /** The ties at `s`, up to the last one of a list. */
  lemma TiesUpTo(spans: seq<Span>, s: nat, q: nat)
    requires q < |spans| && spans[q].start == s && forall k :: q < k < |spans| ==> spans[k].start != s
    ensures OfRank(spans, s, 0) == OfRank(spans[..q], s, 0) + [spans[q]]
  {
    var after := spans[q + 1..];
    assert spans == spans[..q] + ([spans[q]] + after);
    OfRankConcat(spans[..q], [spans[q]] + after, s, 0);
    OfRankConcat([spans[q]], after, s, 0);
    OfRankOne(spans[q], s, 0);
    OfRankNone(after, s, 0);
    assert [spans[q]] + [] == [spans[q]];
  }

  /** `p` and `q` are the last two spans of the list that start at `s`. */
  predicate LastPair(spans: seq<Span>, s: nat, p: nat, q: nat) {
    && p < q < |spans| && spans[p].start == s == spans[q].start
    && forall k :: p < k < |spans| && k != q ==> spans[k].start != s
  }

  lemma LastTwo(spans: seq<Span>, s: nat) returns (p: nat, q: nat)
    requires |OfRank(spans, s, 0)| >= 2
    ensures LastPair(spans, s, p, q)
  {
    q := LastAt(spans, s);
    TiesUpTo(spans, s, q);
    p := LastAt(spans[..q], s);
    assert forall k :: 0 <= k < q ==> spans[..q][k] == spans[k];
  }

  lemma TiesOfPair(spans: seq<Span>, s: nat, p: nat, q: nat)
    requires LastPair(spans, s, p, q)
    ensures OfRank(spans, s, 0) == OfRank(spans[..p], s, 0) + ([spans[p]] + [spans[q]])
  {
    TiesUpTo(spans, s, q);
    TiesUpTo(spans[..q], s, p);
    TakeTake(spans, q, p);
    Assoc(OfRank(spans[..p], s, 0), [spans[p]], [spans[q]]);
  }

  lemma TwoMakeATie(spans: seq<Span>, i: nat, j: nat)
    requires i < j < |spans| && spans[i].start == spans[j].start
    ensures |OfRank(spans, spans[i].start, 0)| >= 2
  {
    var s := spans[i].start;
    assert spans == spans[..j] + spans[j..];
    OfRankConcat(spans[..j], spans[j..], s, 0);
    OfRankMembers(spans[..j], s, 0);
    OfRankMembers(spans[j..], s, 0);
    hide OfRank;
    assert spans[i] == spans[..j][i] && spans[i] in spans[..j];
    assert spans[j] == spans[j..][0] && spans[j] in spans[j..];
    assert spans[i] in OfRank(spans[..j], s, 0) && spans[j] in OfRank(spans[j..], s, 0);
  }

  /** Distinct starts, in the list or in order. */
  lemma DistinctIsStrict(spans: seq<Span>)
    ensures DistinctStarts(spans) <==> StrictlyIncreasing(Ascending(spans))
  {
    var ordered := Ascending(spans);
    AscendingSorts(spans);
    if StrictlyIncreasing(ordered) {
      StrictMeansDistinct(spans);
    }
    if DistinctStarts(spans) {
      forall i, j | 0 <= i < j < |ordered| ensures ordered[i].start < ordered[j].start {
        if ordered[i].start == ordered[j].start {
          var s := ordered[i].start;
          TwoMakeATie(ordered, i, j);
          AscendingKeepsTies(spans, s);
          var p, q := LastTwo(spans, s);
          assert false;
        }
      }
    }
  }

  // ---------- The exact condition ----------

  lemma Reaches(ordered: seq<Span>, i: nat, j: nat)
    requires Chained(ordered) && SortedByStart(ordered) && i < j < |ordered|
    ensures ordered[i].end <= ordered[j].start
  {
    assert ordered[i].end <= ordered[i + 1].start;
  }

  /** Two tied spans `a` and `b` among idle ones: what the reverse splice makes of them. */
  lemma SpliceOfTie(text: string, hi: seq<Span>, ties: seq<Span>, a: Span, b: Span, lo: seq<Span>)
    requires a.start == a.end == b.start <= b.end <= |text|
    requires forall x :: x in hi || x in ties || x in lo ==> Idle(text, x)
    requires forall x :: x in lo ==> x.end <= a.start
    ensures ApplyInOrder(text, hi + ((ties + ([a] + [b])) + lo)) == ApplySpan(ApplySpan(text, a), b)
  {
    IdleEnds(text, hi);
    IdleEnds(text, ties);
    hide ApplySpan, ApplyInOrder, Idle;
    var s, pair := a.start, [a] + [b];
    ApplyInOrderConcat(text, hi, (ties + pair) + lo);
    IdleSpans(text, text, |text|, hi);
    ApplyInOrderConcat(text, ties + pair, lo);
    ApplyInOrderConcat(text, ties, pair);
    IdleSpans(text, text, |text|, ties);
    ApplyPair(text, a, b);
    KeepsFront(text, a, s);
    KeepsFront(ApplySpan(text, a), b, s);
    IdleSpans(text, ApplySpan(ApplySpan(text, a), b), s, lo);
  }

  lemma IdleEnds(text: string, spans: seq<Span>)
    requires forall x :: x in spans ==> Idle(text, x)
    ensures forall x :: x in spans ==> x.end <= |text|
  {
  }

  lemma ApplyPair(text: string, a: Span, b: Span)
    ensures ApplyInOrder(text, [a] + [b]) == ApplySpan(ApplySpan(text, a), b)
  {
    hide ApplySpan;
    ApplyInOrderConcat(text, [a], [b]);
    assert [a][1..] == [] && [b][1..] == [];
  }

  lemma KeepsFront(text: string, x: Span, s: nat)
    requires s <= x.start && s <= |text|
    ensures s <= |ApplySpan(text, x)| && ApplySpan(text, x)[..s] == text[..s]
  {
  }

  /** The same two spans, replaced at once. */
  lemma AtOnceOfTie(text: string, front: seq<Span>, a: Span, b: Span, hi: seq<Span>)
    requires var ordered := front + (([a] + [b]) + hi); WellFormed(ordered, |text|) && Chained(ordered)
    requires forall x :: x in front || x in hi ==> Idle(text, x)
    ensures a.start <= a.end <= b.start <= b.end <= |text|
    ensures Simultaneous(text, front + (([a] + [b]) + hi), 0) == TwoAtOnce(text, a, b)
  {
    hide Idle, Simultaneous, WellFormed, Chained, TwoAtOnce;
    var rest := ([a] + [b]) + hi;
    IdleInFront(text, front, rest, 0);
    PairInFront(a, b, hi);
    TwoAtOnceIs(text, rest, a, b, hi);
  }

  lemma PairInFront(a: Span, b: Span, hi: seq<Span>)
    ensures var rest := ([a] + [b]) + hi; |rest| > 1 && rest[0] == a && rest[1..] == [b] + hi
    ensures ([b] + hi)[0] == b && ([b] + hi)[1..] == hi
  {
  }

  lemma TwoAtOnceIs(text: string, rest: seq<Span>, a: Span, b: Span, hi: seq<Span>)
    requires WellFormed(rest, |text|) && Chained(rest) && |rest| > 1 && rest[0] == a && rest[1..] == [b] + hi
    requires forall x :: x in hi ==> Idle(text, x)
    ensures a.start <= a.end <= b.start <= b.end <= |text|
    ensures Simultaneous(text, rest, 0) == TwoAtOnce(text, a, b)
  {
    hide Idle;
    TailShape(rest, |text|);
    PairInFront(a, b, hi);
    TailShape([b] + hi, |text|);
    assert hi + [] == hi;
    IdleInFront(text, hi, [], b.end);
    assert text[0..a.start] == text[..a.start];
  }

  /** The texts of the witness: `c` and `z` for two of the spans, their own text for the others. */
  function WitnessTexts(text: string, spans: seq<Span>, p: nat, q: nat, c: string, z: string): (r: seq<string>)
    requires WellFormed(spans, |text|)
    ensures |r| == |spans|
    ensures forall k :: 0 <= k < |r| ==>
              r[k] == if k == p then c else if k == q then z else text[spans[k].start..spans[k].end]
  {
    seq(|spans|, k requires 0 <= k < |spans| =>
      if k == p then c else if k == q then z else text[spans[k].start..spans[k].end])
  }

  lemma SameShape(a: seq<Span>, b: seq<Span>, limit: nat)
    requires SamePlaces(a, b)
    ensures WellFormed(a, limit) <==> WellFormed(b, limit)
    ensures Chained(a) <==> Chained(b)
    ensures StrictlyIncreasing(a) <==> StrictlyIncreasing(b)
  {
    assert forall i :: 0 <= i < |a| ==> a[i].start == b[i].start && a[i].end == b[i].end;
  }

  lemma ReplacedPlaces(spans: seq<Span>, texts: seq<string>, limit: nat)
    requires |texts| == |spans|
    requires WellFormed(spans, limit) && FirstOverlap(Ascending(spans)).None?
    ensures var ordered := Ascending(Replaced(spans, texts));
            && WellFormed(ordered, limit) && Chained(ordered)
            && (StrictlyIncreasing(ordered) <==> StrictlyIncreasing(Ascending(spans)))
  {
    hide Ascending, FirstOverlap, WellFormed, Chained, StrictlyIncreasing;
    var replaced := Replaced(spans, texts);
    AscendingSamePlaces(spans, replaced);
    AscendingSorts(spans);
    SameBagSameShape(spans, Ascending(spans));
    NoOverlapIsChained(Ascending(spans));
    hide SamePlaces;
    SameShape(Ascending(spans), Ascending(replaced), limit);
  }

  /** Distinct starts stay distinct whatever the texts. */
  lemma DistinctSplicesAtOnce(text: string, spans: seq<Span>, texts: seq<string>)
    requires |texts| == |spans| && DistinctStarts(spans)
    requires WellFormed(spans, |text|) && FirstOverlap(Ascending(spans)).None?
    ensures SplicedAtOnce(text, Replaced(spans, texts))
  {
    DistinctIsStrict(spans);
    ReplacedPlaces(spans, texts, |text|);
    var replaced := Replaced(spans, texts);
    NoOverlapIsChained(Ascending(replaced));
    hide Ascending, Splice, FirstOverlap;
    assert WellFormed(replaced, |text|);
    SpliceIsSimultaneous(text, replaced);
  }

  /** Where the last two ties stand in either order. */
  lemma PairParts(spans: seq<Span>, s: nat, p: nat, q: nat)
    requires LastPair(spans, s, p, q)
    ensures var ties, pair := OfRank(spans[..p], s, 0), [spans[p]] + [spans[q]];
            var up, down := Ascending(spans), Descending(spans);
            && up == OfRank(up, s, -1) + ((ties + pair) + OfRank(up, s, 1))
            && down == OfRank(down, s, 1) + ((ties + pair) + OfRank(down, s, -1))
  {
    hide OfRank, Ascending, Descending, LastPair;
    TiesOfPair(spans, s, p, q);
    AscendingKeepsTies(spans, s);
    DescendingKeepsTies(spans, s);
    AscendingSorts(spans);
    DescendingSorts(spans);
    AscendingParts(Ascending(spans), s);
    DescendingParts(Descending(spans), s);
  }

  /** All spans but the last two ties keep their own text. */
  predicate IdleBut(text: string, spans: seq<Span>, p: nat, q: nat) {
    forall k :: 0 <= k < |spans| && k != p && k != q ==> Idle(text, spans[k])
  }

  lemma PartsAreIdle(text: string, spans: seq<Span>, s: nat, p: nat, q: nat)
    requires LastPair(spans, s, p, q) && IdleBut(text, spans, p, q)
    ensures forall x :: x in OfRank(spans[..p], s, 0) ==> Idle(text, x)
    ensures forall x, rank :: x in OfRank(Ascending(spans), s, rank) && rank != 0 ==> Idle(text, x)
    ensures forall x, rank :: x in OfRank(Descending(spans), s, rank) && rank != 0 ==> Idle(text, x) && x in spans
  {
    hide OfRank, Idle;
    AscendingSorts(spans);
    DescendingMembers(spans);
    OfRankMembers(spans[..p], s, 0);
    forall x | x in spans[..p] ensures Idle(text, x) {
      var k :| 0 <= k < p && spans[..p][k] == x;
      assert spans[k] == x;
    }
    forall x | x in spans && Rank(x, s) != 0 ensures Idle(text, x) {
      var k :| 0 <= k < |spans| && spans[k] == x;
    }
    forall x | x in Ascending(spans) ensures x in spans {
      assert x in multiset(Ascending(spans));
    }
    forall x, rank | x in OfRank(Ascending(spans), s, rank) && rank != 0 ensures Idle(text, x) {
      OfRankMembers(Ascending(spans), s, rank);
    }
    forall x, rank | x in OfRank(Descending(spans), s, rank) && rank != 0 ensures Idle(text, x) && x in spans {
      OfRankMembers(Descending(spans), s, rank);
    }
  }

  lemma PairPlaces(lo: seq<Span>, ties: seq<Span>, a: Span, b: Span, hi: seq<Span>)
    ensures var up, k := lo + ((ties + ([a] + [b])) + hi), |lo| + |ties|;
            k + 1 < |up| && up[k] == a && up[k + 1] == b
  {
  }

  /** The tie in front of the last one is empty, and nothing before it reaches over its start. */
  lemma TiesAreEmpty(spans: seq<Span>, s: nat, p: nat, q: nat, limit: nat)
    requires LastPair(spans, s, p, q) && Chained(Ascending(spans)) && WellFormed(spans, limit)
    ensures spans[p].end == s
    ensures forall x :: x in spans && x.start < s ==> x.end <= s
  {
    hide Ascending, Descending, OfRank, Chained, SortedByStart;
    PairParts(spans, s, p, q);
    AscendingSorts(spans);
    var up, ties := Ascending(spans), OfRank(spans[..p], s, 0);
    var lo, hi := OfRank(up, s, -1), OfRank(up, s, 1);
    var k := |lo| + |ties|;
    PairPlaces(lo, ties, spans[p], spans[q], hi);
    Reaches(up, k, k + 1);
    forall x | x in spans && x.start < s ensures x.end <= s {
      assert x in multiset(up);
      var i :| 0 <= i < |up| && up[i] == x;
      StartsBefore(up, i, k);
      Reaches(up, i, k);
    }
  }

  lemma StartsBefore(ordered: seq<Span>, i: nat, j: nat)
    requires SortedByStart(ordered) && i < |ordered| && j < |ordered| && ordered[i].start < ordered[j].start
    ensures i < j
  {
  }

  /** With a tie, two replacement texts are enough to be spliced wrongly. */
  lemma TieIsNotAtOnce(text: string, spans: seq<Span>, s: nat, p: nat, q: nat, c: char)
    requires LastPair(spans, s, p, q) && IdleBut(text, spans, p, q)
    requires WellFormed(spans, |text|) && Chained(Ascending(spans))
    requires spans[p].replacement == [c] && spans[q].replacement == if s == spans[q].end then "Z" else ""
    requires c != 'Z' && (s < spans[q].end ==> c != text[spans[q].end - 1])
    ensures !SplicedAtOnce(text, spans)
  {
    hide Ascending, Descending, OfRank, Chained, SortedByStart, Idle, ApplySpan, ApplyInOrder, Simultaneous, IdleBut, TwoAtOnce;
    var a, b := spans[p], spans[q];
    var up, down, ties := Ascending(spans), Descending(spans), OfRank(spans[..p], s, 0);
    var lo, hi := OfRank(up, s, -1), OfRank(up, s, 1);
    PairParts(spans, s, p, q);
    PartsAreIdle(text, spans, s, p, q);
    TiesAreEmpty(spans, s, p, q, |text|);
    OfRankMembers(down, s, -1);
    AscendingSorts(spans);
    SameBagSameShape(spans, up);
    TiedSplice(text, a, b, c);
    SpliceOfTie(text, OfRank(down, s, 1), ties, a, b, OfRank(down, s, -1));
    Assoc(lo, ties, ([a] + [b]) + hi);
    Assoc(ties, [a] + [b], hi);
    AtOnceOfTie(text, lo + ties, a, b, hi);
  }

  /**
   * For any spans that pass the overlap check: the splice is simultaneous replacement for all
   * replacement texts exactly when no two spans start at the same position.
   */
  lemma SimultaneousIffDistinctStarts(text: string, spans: seq<Span>)
    requires WellFormed(spans, |text|) && FirstOverlap(Ascending(spans)).None?
    ensures (forall texts: seq<string> :: |texts| == |spans| ==> SplicedAtOnce(text, Replaced(spans, texts)))
       <==> DistinctStarts(spans)
  {
    hide SplicedAtOnce, Ascending, FirstOverlap;
    if DistinctStarts(spans) {
      forall texts: seq<string> | |texts| == |spans| ensures SplicedAtOnce(text, Replaced(spans, texts)) {
        DistinctSplicesAtOnce(text, spans, texts);
      }
    } else {
      var texts := TieTexts(text, spans);
      assert !SplicedAtOnce(text, Replaced(spans, texts));
    }
  }

  /** Texts for which spans with a tie are not spliced at once. */
  lemma TieTexts(text: string, spans: seq<Span>) returns (texts: seq<string>)
    requires WellFormed(spans, |text|) && FirstOverlap(Ascending(spans)).None? && !DistinctStarts(spans)
    ensures |texts| == |spans| && !SplicedAtOnce(text, Replaced(spans, texts))
  {
    hide SplicedAtOnce, Ascending, FirstOverlap, OfRank, Chained, LastPair, IdleBut;
    var i, j :| 0 <= i < j < |spans| && spans[i].start == spans[j].start;
    var s := spans[i].start;
    TwoMakeATie(spans, i, j);
    var p, q := LastTwo(spans, s);
    texts := PairTexts(text, spans, s, p, q);
    ReplacedPlaces(spans, texts, |text|);
    var end := spans[q].end;
    TieIsNotAtOnce(text, Replaced(spans, texts), s, p, q, if s < end && text[end - 1] == 'A' then 'B' else 'A');
  }

  lemma PairTexts(text: string, spans: seq<Span>, s: nat, p: nat, q: nat) returns (texts: seq<string>)
    requires WellFormed(spans, |text|) && LastPair(spans, s, p, q)
    ensures |texts| == |spans|
    ensures var replaced, end := Replaced(spans, texts), spans[q].end;
            && LastPair(replaced, s, p, q) && IdleBut(text, replaced, p, q) && WellFormed(replaced, |text|)
            && end <= |text| && replaced[q].end == end
            && replaced[p].replacement == [if s < end && text[end - 1] == 'A' then 'B' else 'A']
            && replaced[q].replacement == if s == end then "Z" else ""
  {
    var end := spans[q].end;
    var c := if s < end && text[end - 1] == 'A' then 'B' else 'A';
    texts := WitnessTexts(text, spans, p, q, [c], if s == end then "Z" else "");
  }
}

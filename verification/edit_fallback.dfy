/** What an edit call comes to, told by where its old texts occur; and when the fuzzy path is taken. */
module EditFallback {
  import opened Wrappers
  import opened Sequences
  import opened LineEndings
  import opened Matching
  import opened Splicing
  import opened EditEngine

  /** Every occurrence begins inside the first one. */
  ghost predicate FoundOnce(content: string, old_: string) {
    exists p: nat :: Occurs(content, old_, p) && forall q: nat :: Occurs(content, old_, q) ==> p <= q < p + |old_|
  }

  ghost predicate Missing(content: string, old_: string) {
    forall q: nat :: !Occurs(content, old_, q)
  }

  /** The position is inside one of the ranges of length `n`. */
  predicate Inside(starts: seq<nat>, n: nat, q: nat) {
    exists i :: 0 <= i < |starts| && starts[i] <= q < starts[i] + n
  }

  predicate Spaced(starts: seq<nat>, n: nat) {
    forall i :: 0 <= i < |starts| - 1 ==> starts[i] + n <= starts[i + 1]
  }

  /** Occurrences that do not overlap, in order, such that every occurrence begins inside one of them. */
  ghost predicate AreSpacedStarts(content: string, old_: string, from: nat, starts: seq<nat>) {
    && (forall p :: p in starts ==> Occurs(content, old_, p) && p >= from)
    && Spaced(starts, |old_|)
    && (forall q: nat :: q >= from && Occurs(content, old_, q) ==> Inside(starts, |old_|, q))
  }

  lemma {:induction false} TextStartsAreSpaced(content: string, old_: string, from: nat)
    requires old_ != ""
    ensures AreSpacedStarts(content, old_, from, TextStarts(content, old_, from))
    decreases |content| - from
  {
    hide Occurs, AreSpacedStarts;
    var first := Find(content, old_, from);
    if first.None? {
      NoSpacedStarts(content, old_, from);
    } else {
      var p := first.value;
      OccursInside(content, old_, p);
      TextStartsAreSpaced(content, old_, p + |old_|);
      SpacedCons(content, old_, from, p, TextStarts(content, old_, p + |old_|));
    }
  }

  lemma NoSpacedStarts(content: string, old_: string, from: nat)
    requires forall q: nat :: from <= q ==> !Occurs(content, old_, q)
    ensures AreSpacedStarts(content, old_, from, [])
  {
  }

  lemma InsideCons(p: nat, rest: seq<nat>, n: nat, q: nat)
    ensures Inside([p] + rest, n, q) <==> p <= q < p + n || Inside(rest, n, q)
  {
    var starts := [p] + rest;
    assert starts[0] == p && forall i {:trigger rest[i]} :: 0 <= i < |rest| ==> starts[i + 1] == rest[i];
    assert forall i {:trigger starts[i]} :: 1 <= i < |starts| ==> starts[i] == rest[i - 1];
  }

  lemma SpacedCons(content: string, old_: string, from: nat, p: nat, rest: seq<nat>)
    requires from <= p && Occurs(content, old_, p) && forall q: nat :: from <= q < p ==> !Occurs(content, old_, q)
    requires AreSpacedStarts(content, old_, p + |old_|, rest)
    ensures AreSpacedStarts(content, old_, from, [p] + rest)
  {
    hide Occurs, Inside;
    var starts := [p] + rest;
    forall q | q in starts ensures q == p || q in rest {
      InConcat([p], rest, q);
    }
    forall q: nat | q >= from && Occurs(content, old_, q) ensures Inside(starts, |old_|, q) {
      InsideCons(p, rest, |old_|, q);
    }
    assert rest != [] ==> rest[0] in rest;
  }

  lemma OccursInside(content: string, old_: string, p: nat)
    requires Occurs(content, old_, p)
    ensures p + |old_| <= |content|
  {
  }

  /** The number of non-overlapping occurrences. */
  function Count(content: string, old_: string): nat
    requires old_ != ""
  {
    |TextStarts(content, old_, 0)|
  }

  /** One exact search, by what there is to find. */
  lemma ExactSpanIs(content: string, edit: Replacement, index: nat)
    requires edit.oldText != ""
    ensures ExactSpan(content, edit, index).Ok? <==> FoundOnce(content, OldText(edit))
    ensures ExactSpan(content, edit, index) == Err(NotFound(index)) <==> Missing(content, OldText(edit))
    ensures !FoundOnce(content, OldText(edit)) && !Missing(content, OldText(edit)) ==>
              && ExactSpan(content, edit, index) == Err(Duplicate(index, Count(content, OldText(edit))))
              && Count(content, OldText(edit)) > 1
  {
    hide OldText, NormalizeToLf, Occurs, TextStarts;
    var old_ := OldText(edit);
    NoStart(content, old_);
    if FoundOnce(content, old_) {
      var p: nat :| Occurs(content, old_, p) && forall q: nat :: Occurs(content, old_, q) ==> p <= q < p + |old_|;
      UniqueStart(content, old_, p);
    }
    if |TextStarts(content, old_, 0)| == 1 {
      var p := TextStarts(content, old_, 0)[0];
      assert TextStarts(content, old_, 0) == [p];
      UniqueStart(content, old_, p);
    }
  }

  ghost predicate OneMatch(lines: seq<string>, window: seq<string>)
    requires window != []
  {
    exists i: nat :: MatchesWithin(lines, window, i) && forall j: nat :: MatchesWithin(lines, window, j) ==> j == i
  }

  ghost predicate NoMatch(lines: seq<string>, window: seq<string>)
    requires window != []
  {
    forall i: nat :: !MatchesWithin(lines, window, i)
  }

  lemma {:induction false} WindowStartsIncrease(lines: seq<string>, window: seq<string>, from: nat, i: nat, j: nat)
    requires window != [] && i < j < |WindowStarts(lines, window, from)|
    ensures WindowStarts(lines, window, from)[i] < WindowStarts(lines, window, from)[j]
    decreases |lines| - from
  {
    hide WindowMatchesAt;
    var rest := WindowStarts(lines, window, from + 1);
    if from + |window| > |lines| {
    } else if !WindowMatchesAt(lines, window, from) {
      assert [] + rest == rest;
      WindowStartsIncrease(lines, window, from + 1, i, j);
    } else if i > 0 {
      WindowStartsIncrease(lines, window, from + 1, i - 1, j - 1);
    } else {
      WindowStartsAre(lines, window, from + 1, rest[j - 1]);
    }
  }

  /** The lines where a window matches: none, one, or a list of different lines. */
  lemma WindowCases(lines: seq<string>, window: seq<string>, index: nat)
    requires window != []
    ensures var r := RequireUniqueMatch(WindowStarts(lines, window, 0), index);
            && (r.Ok? <==> OneMatch(lines, window)) && (r == Err(NotFound(index)) <==> NoMatch(lines, window))
            && (r.Ok? || r == Err(NotFound(index)) || r == Err(Duplicate(index, |WindowStarts(lines, window, 0)|)))
  {
    hide MatchesWithin, WindowStarts;
    var starts := WindowStarts(lines, window, 0);
    forall i: nat ensures i in starts <==> MatchesWithin(lines, window, i) {
      WindowStartsAre(lines, window, 0, i);
    }
    if |starts| == 1 {
      assert starts == [starts[0]] && starts[0] in starts;
    } else if |starts| > 1 {
      WindowStartsIncrease(lines, window, 0, 0, 1);
      assert starts[0] in starts && starts[1] in starts;
    }
  }

  lemma WindowSpanFails(lines: seq<string>, normalized: seq<string>, window: seq<string>, newText: string, index: nat)
    requires |normalized| == |lines| && window != []
    ensures var r, unique := WindowSpan(lines, normalized, window, newText, index),
                             RequireUniqueMatch(WindowStarts(normalized, window, 0), index);
            (r.Ok? <==> unique.Ok?) && (r.Err? ==> r.error == unique.error)
  {
    hide WindowStarts, WindowCharSpan, NormalizeToLf, EndsWithNewline;
  }

  /** One fuzzy search, by the lines of the normalized content where the normalized old text matches. */
  lemma FuzzySpanIs(content: string, normalize: Normalizer, edit: Replacement, index: nat)
    requires edit.oldText != ""
    ensures var lines := Normalized(TerminatedLines(content), normalize);
            var window := Normalized(TerminatedLines(OldText(edit)), normalize);
            var r := FuzzySpan(content, normalize, edit, index);
            && window != []
            && (r.Ok? <==> OneMatch(lines, window)) && (r == Err(NotFound(index)) <==> NoMatch(lines, window))
            && (!OneMatch(lines, window) && !NoMatch(lines, window) ==>
                  r == Err(Duplicate(index, |WindowStarts(lines, window, 0)|)))
  {
    hide TerminatedLines, OldText, WindowStarts, WindowSpan, Normalized, OneMatch, NoMatch;
    var lines := TerminatedLines(content);
    TerminatedNonempty(OldText(edit));
    assert Normalized(TerminatedLines(OldText(edit)), normalize) != [];
    var window := Normalized(TerminatedLines(OldText(edit)), normalize);
    WindowSpanFails(lines, Normalized(lines, normalize), window, edit.newText, index);
    WindowCases(Normalized(lines, normalize), window, index);
  }

  /** On either path, the first edit whose search fails decides the call, with that search's error. */
  lemma {:induction false} FirstFailureDecides(content: string, path: Path, edits: seq<Replacement>, i: nat, k: nat)
    requires NoEmptyOldText(edits) && i <= k < |edits|
    requires forall j :: i <= j < k ==> SpanFor(content, path, edits[j], j).Ok?
    requires SpanFor(content, path, edits[k], k).Err?
    ensures SpansFrom(content, path, edits, i).Err?
    ensures SpansFrom(content, path, edits, i).error == SpanFor(content, path, edits[k], k).error
    ensures i == 0 ==> Apply(content, path, edits) == Err(SpanFor(content, path, edits[k], k).error)
    decreases k - i
  {
    hide SpanFor, Splice, FirstOverlap, Ascending;
    if i < k {
      FirstFailureDecides(content, path, edits, i + 1, k);
    }
  }

  lemma {:induction false} AllAreFound(content: string, edits: seq<Replacement>, i: nat)
    requires NoEmptyOldText(edits) && i <= |edits|
    requires forall j :: i <= j < |edits| ==> FoundOnce(content, OldText(edits[j]))
    ensures SpansFrom(content, Exact, edits, i).Ok?
    decreases |edits| - i
  {
    hide ExactSpan, OldText, FoundOnce;
    if i < |edits| {
      ExactSpanIs(content, edits[i], i);
      AllAreFound(content, edits, i + 1);
    }
  }

  /**
   * The first old text that is not found once: if it is nowhere in the content, the fuzzy path decides the
   * call; if it is there more than once, the call fails for it, whatever the fuzzy path would find.
   */
  lemma FirstUnfoundDecides(content: string, edits: seq<Replacement>, normalize: Normalizer, k: nat)
    requires NoEmptyOldText(edits) && k < |edits|
    requires forall j :: 0 <= j < k ==> FoundOnce(content, OldText(edits[j]))
    requires !FoundOnce(content, OldText(edits[k]))
    ensures Missing(content, OldText(edits[k])) ==>
              ApplyWithFallback(content, edits, normalize) == Apply(content, Fuzzy(normalize), edits)
    ensures !Missing(content, OldText(edits[k])) ==>
              && ApplyWithFallback(content, edits, normalize) == Err(Duplicate(k, Count(content, OldText(edits[k]))))
              && Count(content, OldText(edits[k])) > 1
  {
    hide SpansFrom, ExactSpan, OldText, FoundOnce, Missing, Count, Splice, FirstOverlap, Ascending;
    FirstEmptyFindsIt(edits, 0);
    forall j | 0 <= j <= k ensures SpanFor(content, Exact, edits[j], j).Ok? <==> FoundOnce(content, OldText(edits[j])) {
      ExactSpanIs(content, edits[j], j);
    }
    FirstFailureDecides(content, Exact, edits, 0, k);
    ExactSpanIs(content, edits[k], k);
  }

  /** Edits `a` and `b` replace overlapping ranges of the content, `a` from the earlier start. */
  predicate OverlapAt(spans: seq<Span>, a: nat, b: nat) {
    && a < |spans| && b < |spans| && a != b
    && spans[a].start <= spans[b].start && !Disjoint(spans[a], spans[b])
  }

  /**
   * When every old text is found once: overlapping ranges are rejected, naming two of them; otherwise the
   * old texts are replaced all at once, unless that changes nothing. The fuzzy path has no say.
   */
  lemma AllFoundDecides(content: string, edits: seq<Replacement>, normalize: Normalizer)
    requires NoEmptyOldText(edits)
    requires forall j :: 0 <= j < |edits| ==> FoundOnce(content, OldText(edits[j]))
    ensures SpansFrom(content, Exact, edits, 0).Ok?
    ensures var spans := SpansFrom(content, Exact, edits, 0).value;
            var r := ApplyWithFallback(content, edits, normalize);
            && CoverOldTexts(content, edits, 0, spans)
            && (PairwiseDisjoint(spans) ==> AppliedAtOnce(content, Exact, edits, spans) && r == Apply(content, Exact, edits))
            && (!PairwiseDisjoint(spans) ==>
                  r.Err? && r.error.Overlapping? && OverlapAt(spans, r.error.first, r.error.second))
  {
    hide SpansFrom, OldText, FoundOnce, Splice, FirstOverlap, Ascending, CoverOldTexts, PairwiseDisjoint, AppliedAtOnce;
    FirstEmptyFindsIt(edits, 0);
    AllAreFound(content, edits, 0);
    ExactSpansCoverOldTexts(content, edits, 0);
    var spans := SpansFrom(content, Exact, edits, 0).value;
    CoveringSpansAreWellFormed(content, edits, spans);
    AdjacentCheckIsPairwise(spans);
    if PairwiseDisjoint(spans) {
      DisjointIsAtOnce(content, edits);
    } else {
      CoverNamesEdits(content, edits, spans);
      OverlapIsNamed(spans);
    }
  }

  lemma DisjointIsAtOnce(content: string, edits: seq<Replacement>)
    requires NoEmptyOldText(edits) && MatchedSpans(content, Exact, edits).Ok?
    requires var spans := MatchedSpans(content, Exact, edits).value;
             WellFormed(spans, |content|) && NonEmpty(spans) && PairwiseDisjoint(spans)
    ensures AppliedAtOnce(content, Exact, edits, MatchedSpans(content, Exact, edits).value)
  {
    hide SpansFrom, Splice, FirstOverlap, Ascending, PairwiseDisjoint, WellFormed, NonEmpty;
    var spans := MatchedSpans(content, Exact, edits).value;
    AdjacentCheckIsPairwise(spans);
    SpliceIsSimultaneous(content, spans);
    SpliceLength(content, spans);
  }

  predicate NamesItsPlace(spans: seq<Span>) {
    forall i :: 0 <= i < |spans| ==> spans[i].editIndex == i
  }

  lemma CoverNamesEdits(content: string, edits: seq<Replacement>, spans: seq<Span>)
    requires NoEmptyOldText(edits) && CoverOldTexts(content, edits, 0, spans)
    ensures NamesItsPlace(spans)
  {
    hide OldText, NormalizeToLf;
  }

  /** The named pair are neighbours in order of start, the first such pair that overlaps. */
  lemma {:induction false} FirstOverlapIs(ordered: seq<Span>) returns (i: nat)
    requires FirstOverlap(ordered).Some?
    ensures i + 1 < |ordered| && ordered[i].end > ordered[i + 1].start
    ensures FirstOverlap(ordered) == Some((ordered[i].editIndex, ordered[i + 1].editIndex))
    ensures forall j :: 0 <= j < i ==> ordered[j].end <= ordered[j + 1].start
  {
    if ordered[0].end > ordered[1].start {
      i := 0;
    } else {
      var k := FirstOverlapIs(ordered[1..]);
      i := k + 1;
      assert forall j :: 1 <= j < |ordered| ==> ordered[j] == ordered[1..][j - 1];
      forall j | 0 <= j < i ensures ordered[j].end <= ordered[j + 1].start {
        if j > 0 {
          assert ordered[1..][j - 1].end <= ordered[1..][j].start;
        }
      }
    }
  }

  lemma OverlapIsNamed(spans: seq<Span>)
    requires NamesItsPlace(spans) && NonEmpty(spans) && FirstOverlap(Ascending(spans)).Some?
    ensures var (a, b) := FirstOverlap(Ascending(spans)).value;
            OverlapAt(spans, a, b)
  {
    hide FirstOverlap, Ascending;
    var ordered := Ascending(spans);
    AscendingSorts(spans);
    SameBagSameShape(spans, ordered);
    var i := FirstOverlapIs(ordered);
    var x, y := ordered[i], ordered[i + 1];
    assert x in multiset(spans) && y in multiset(spans);
    if x.editIndex == y.editIndex {
      CountTwice(ordered, i, i + 1);
      var j, k := TwiceHasTwoPlaces(spans, x);
      assert false;
    }
  }

  /**
   * On either path, when every search succeeds: the call fails for an overlap exactly when the spans are not
   * clear of each other, naming the first two neighbours in order of start that overlap, the earlier first.
   */
  lemma OverlapDecides(content: string, path: Path, edits: seq<Replacement>)
    requires NoEmptyOldText(edits) && SpansFrom(content, path, edits, 0).Ok?
    ensures var spans := SpansFrom(content, path, edits, 0).value;
            var ordered, r := Ascending(spans), Apply(content, path, edits);
            && (r.Err? && r.error.Overlapping? <==> !AllClear(spans))
            && (!AllClear(spans) ==>
                  exists i :: 0 <= i < |ordered| - 1
                    && ordered[i].end > ordered[i + 1].start && Chained(ordered[..i + 1])
                    && r == Err(Overlapping(ordered[i].editIndex, ordered[i + 1].editIndex)))
  {
    hide SpansFrom, Splice, Ascending, FirstOverlap, AllClear;
    var spans := SpansFrom(content, path, edits, 0).value;
    var ordered := Ascending(spans);
    AdjacentCheckIsClear(spans);
    if !AllClear(spans) {
      var i := FirstOverlapIs(ordered);
      assert Chained(ordered[..i + 1]);
    }
  }

  /** Empty old texts are rejected first, the first of them named. */
  lemma EmptyOldTextDecides(content: string, edits: seq<Replacement>, normalize: Normalizer, k: nat)
    requires k < |edits| && edits[k].oldText == "" && forall j :: 0 <= j < k ==> edits[j].oldText != ""
    ensures ApplyWithFallback(content, edits, normalize) == Err(EmptyOldText(k))
  {
    FirstEmptyIs(edits, 0, k);
  }

  lemma {:induction false} FirstEmptyIs(edits: seq<Replacement>, i: nat, k: nat)
    requires i <= k < |edits| && edits[k].oldText == "" && forall j :: i <= j < k ==> edits[j].oldText != ""
    ensures FirstEmpty(edits, i) == Some(k)
    decreases k - i
  {
    if i < k {
      FirstEmptyIs(edits, i + 1, k);
    }
  }
}

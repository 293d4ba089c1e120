/** The edit tool: exact replacements first, fuzzily matched whole lines when a text is not found. */
module EditEngine {
  import opened Wrappers
  import opened Sequences
  import opened LineEndings
  import opened Lines
  import opened Matching
  import opened SpliceTies
  import opened Splicing

  datatype Replacement = Replacement(oldText: string, newText: string)

  datatype EditError =
    | EmptyOldText(index: nat)
    | NotFound(index: nat)
    | Duplicate(index: nat, occurrences: nat)
    | Overlapping(first: nat, second: nat)
    | NoChange

  /** The line normalizer of the fuzzy path is a parameter. */
  type Normalizer = string -> string

  function FirstEmpty(edits: seq<Replacement>, i: nat): Option<nat>
    requires i <= |edits|
    decreases |edits| - i
  {
    if i == |edits| then None
    else if edits[i].oldText == "" then Some(i)
    else FirstEmpty(edits, i + 1)
  }

  predicate NoEmptyOldText(edits: seq<Replacement>) {
    forall i :: 0 <= i < |edits| ==> edits[i].oldText != ""
  }

  lemma {:induction false} FirstEmptyFindsIt(edits: seq<Replacement>, i: nat)
    requires i <= |edits|
    ensures FirstEmpty(edits, i).None? <==> forall j :: i <= j < |edits| ==> edits[j].oldText != ""
    decreases |edits| - i
  {
    if i < |edits| {
      FirstEmptyFindsIt(edits, i + 1);
    }
  }

  function RequireUniqueMatch(starts: seq<nat>, index: nat): Result<nat, EditError> {
    if starts == [] then Err(NotFound(index))
    else if |starts| > 1 then Err(Duplicate(index, |starts|))
    else Ok(starts[0])
  }

  // ---------- Spans ----------

  function OldText(edit: Replacement): (old_: string)
    requires edit.oldText != ""
    ensures old_ != "" && CrFree(old_)
  {
    NormalizedIsCrFree(edit.oldText);
    NormalizeToLf(edit.oldText)
  }

  function ExactSpan(content: string, edit: Replacement, index: nat): Result<Span, EditError>
    requires edit.oldText != ""
  {
    var old_ := OldText(edit);
    match RequireUniqueMatch(TextStarts(content, old_, 0), index)
    case Err(error) => Err(error)
    case Ok(start) => Ok(Span(index, start, start + |old_|, NormalizeToLf(edit.newText)))
  }

  function Normalized(lines: seq<string>, normalize: Normalizer): (r: seq<string>)
    ensures |r| == |lines|
  {
    seq(|lines|, i requires 0 <= i < |lines| => normalize(lines[i]))
  }

  /** The span of the one window that matches among the normalized lines. */
  function WindowSpan(lines: seq<string>, normalized: seq<string>, window: seq<string>, newText: string, index: nat)
    : Result<Span, EditError>
    requires |normalized| == |lines| && window != []
  {
    match RequireUniqueMatch(WindowStarts(normalized, window, 0), index)
    case Err(error) => Err(error)
    case Ok(start) =>
      WindowStartsAre(normalized, window, 0, start);
      var (from, to) := WindowCharSpan(lines, start, start + |window| - 1, EndsWithNewline(window[|window| - 1]));
      Ok(Span(index, from, to, NormalizeToLf(newText)))
  }

  function FuzzySpan(content: string, normalize: Normalizer, edit: Replacement, index: nat): Result<Span, EditError>
    requires edit.oldText != ""
  {
    var lines := TerminatedLines(content);
    TerminatedNonempty(OldText(edit));
    var window := Normalized(TerminatedLines(OldText(edit)), normalize);
    WindowSpan(lines, Normalized(lines, normalize), window, edit.newText, index)
  }

  datatype Path = Exact | Fuzzy(normalize: Normalizer)

  function SpanFor(content: string, path: Path, edit: Replacement, index: nat): Result<Span, EditError>
    requires edit.oldText != ""
  {
    if path.Exact? then ExactSpan(content, edit, index) else FuzzySpan(content, path.normalize, edit, index)
  }

  /** The spans of the edits from the `i`-th on, or the first edit's error. */
  function SpansFrom(content: string, path: Path, edits: seq<Replacement>, i: nat): Result<seq<Span>, EditError>
    requires i <= |edits| && NoEmptyOldText(edits)
    decreases |edits| - i
  {
    if i == |edits| then Ok([])
    else
      match SpanFor(content, path, edits[i], i)
      case Err(error) => Err(error)
      case Ok(span) =>
        match SpansFrom(content, path, edits, i + 1)
        case Err(error) => Err(error)
        case Ok(spans) => Ok([span] + spans)
  }

  /** The spans of all edits, found one by one and checked for overlaps. */
  function MatchedSpans(content: string, path: Path, edits: seq<Replacement>): Result<seq<Span>, EditError>
    requires NoEmptyOldText(edits)
  {
    match SpansFrom(content, path, edits, 0)
    case Err(error) => Err(error)
    case Ok(spans) =>
      match FirstOverlap(Ascending(spans))
      case Some((first, second)) => Err(Overlapping(first, second))
      case None => Ok(spans)
  }

  method MatchSpans(content: string, path: Path, edits: seq<Replacement>) returns (r: Result<seq<Span>, EditError>)
    requires NoEmptyOldText(edits)
    ensures r == MatchedSpans(content, path, edits)
  {
    hide SpanFor, Ascending, FirstOverlap;
    var spans: seq<Span> := [];
    var i := 0;
    PrependNone(SpansFrom(content, path, edits, 0));
    while i < |edits|
      invariant 0 <= i <= |edits|
      invariant SpansFrom(content, path, edits, 0)
             == Prepend(spans, SpansFrom(content, path, edits, i))
    {
      var found := SpanFor(content, path, edits[i], i);
      if found.Err? {
        return Err(found.error);
      }
      PrependOne(spans, found.value, SpansFrom(content, path, edits, i + 1));
      spans := spans + [found.value];
      i := i + 1;
    }
    assert spans + [] == spans;
    var overlap := ValidateNonOverlapping(spans);
    if overlap.Some? {
      return Err(Overlapping(overlap.value.0, overlap.value.1));
    }
    return Ok(spans);
  }

  function Prepend(spans: seq<Span>, rest: Result<seq<Span>, EditError>): Result<seq<Span>, EditError> {
    match rest
    case Err(error) => Err(error)
    case Ok(more) => Ok(spans + more)
  }

  lemma PrependNone(rest: Result<seq<Span>, EditError>)
    ensures Prepend([], rest) == rest
  {
    if rest.Ok? {
      assert [] + rest.value == rest.value;
    }
  }

  lemma PrependOne(spans: seq<Span>, span: Span, rest: Result<seq<Span>, EditError>)
    ensures Prepend(spans, Prepend([span], rest)) == Prepend(spans + [span], rest)
  {
    if rest.Ok? {
      Assoc(spans, [span], rest.value);
    }
  }

  // ---------- Applying ----------

  function Apply(content: string, path: Path, edits: seq<Replacement>): Result<string, EditError>
    requires NoEmptyOldText(edits)
  {
    match MatchedSpans(content, path, edits)
    case Err(error) => Err(error)
    case Ok(spans) =>
      var edited := Splice(content, spans);
      if edited == content then Err(NoChange) else Ok(edited)
  }

  /** Exact matching first; only a text that is not found sends all edits to the fuzzy path. */
  function ApplyWithFallback(content: string, edits: seq<Replacement>, normalize: Normalizer)
    : Result<string, EditError>
  {
    match FirstEmpty(edits, 0)
    case Some(i) => Err(EmptyOldText(i))
    case None =>
      FirstEmptyFindsIt(edits, 0);
      var exact := Apply(content, Exact, edits);
      if exact.Err? && exact.error.NotFound? then Apply(content, Fuzzy(normalize), edits) else exact
  }

  method ApplyReplacements(content: string, path: Path, edits: seq<Replacement>) returns (r: Result<string, EditError>)
    requires NoEmptyOldText(edits)
    ensures r == Apply(content, path, edits)
  {
    var matched := MatchSpans(content, path, edits);
    if matched.Err? {
      return Err(matched.error);
    }
    var edited := SpliceTextSpans(content, matched.value);
    if content == edited {
      return Err(NoChange);
    }
    return Ok(edited);
  }

  /** What the tool writes back for a file's raw text. */
  function EditFile(raw: string, edits: seq<Replacement>, normalize: Normalizer): Result<string, EditError> {
    var file := LoadFile(raw);
    match ApplyWithFallback(file.content, edits, normalize)
    case Err(error) => Err(error)
    case Ok(edited) => Ok(WriteLoadedFile(file, edited))
  }

  // ---------- What a successful edit does ----------

  lemma ExactSpanCovers(content: string, edit: Replacement, index: nat)
    requires edit.oldText != "" && ExactSpan(content, edit, index).Ok?
    ensures var span := ExactSpan(content, edit, index).value;
            && span.editIndex == index && span.start < span.end <= |content|
            && content[span.start..span.end] == OldText(edit)
            && span.replacement == NormalizeToLf(edit.newText)
            && (forall q: nat :: Occurs(content, OldText(edit), q) ==> span.start <= q < span.end)
  {
    hide NormalizeToLf, OldText, TextStarts;
    var old_ := OldText(edit);
    UniqueStart(content, old_, TextStarts(content, old_, 0)[0]);
  }

  /** The span replaces exactly the edit's old text by its new text. */
  predicate CoversOldText(content: string, edit: Replacement, index: nat, span: Span)
    requires edit.oldText != ""
  {
    && span.editIndex == index && span.start < span.end <= |content|
    && content[span.start..span.end] == OldText(edit)
    && span.replacement == NormalizeToLf(edit.newText)
  }

  predicate CoverOldTexts(content: string, edits: seq<Replacement>, i: nat, spans: seq<Span>)
    requires NoEmptyOldText(edits)
  {
    && i + |spans| == |edits|
    && forall j {:trigger spans[j]} :: 0 <= j < |spans| ==> CoversOldText(content, edits[i + j], i + j, spans[j])
  }

  lemma CoverCons(content: string, edits: seq<Replacement>, i: nat, span: Span, rest: seq<Span>)
    requires NoEmptyOldText(edits) && i < |edits|
    requires CoversOldText(content, edits[i], i, span) && CoverOldTexts(content, edits, i + 1, rest)
    ensures CoverOldTexts(content, edits, i, [span] + rest)
  {
    hide CoversOldText;
    var spans := [span] + rest;
    forall j | 0 <= j < |spans| ensures CoversOldText(content, edits[i + j], i + j, spans[j]) {
      assert j > 0 ==> spans[j] == rest[j - 1];
    }
  }

  /** The spans found so far name their edits in order, lie in the content and cover the old texts. */
  lemma {:induction false} ExactSpansCoverOldTexts(content: string, edits: seq<Replacement>, i: nat)
    requires i <= |edits| && NoEmptyOldText(edits)
    ensures SpansFrom(content, Exact, edits, i).Ok? ==>
              CoverOldTexts(content, edits, i, SpansFrom(content, Exact, edits, i).value)
    decreases |edits| - i
  {
    hide NormalizeToLf, ExactSpan, OldText, CoverOldTexts;
    if i == |edits| {
      NothingLeftToCover(content, edits);
    } else if SpansFrom(content, Exact, edits, i).Ok? {
      ExactSpansCoverOldTexts(content, edits, i + 1);
      ExactSpanCovers(content, edits[i], i);
      CoverCons(content, edits, i, ExactSpan(content, edits[i], i).value, SpansFrom(content, Exact, edits, i + 1).value);
    }
  }

  lemma NothingLeftToCover(content: string, edits: seq<Replacement>)
    requires NoEmptyOldText(edits)
    ensures CoverOldTexts(content, edits, |edits|, [])
  {
  }

  lemma CoveringSpansAreWellFormed(content: string, edits: seq<Replacement>, spans: seq<Span>)
    requires NoEmptyOldText(edits) && CoverOldTexts(content, edits, 0, spans)
    ensures WellFormed(spans, |content|) && NonEmpty(spans)
  {
    hide OldText, NormalizeToLf;
  }

  /** A successful exact edit replaces each old text, all at once, and nothing else. */
  lemma ExactEditIsSimultaneous(content: string, edits: seq<Replacement>)
    requires NoEmptyOldText(edits) && Apply(content, Exact, edits).Ok?
    ensures var spans := MatchedSpans(content, Exact, edits).value;
            var ordered := Ascending(spans);
            && CoverOldTexts(content, edits, 0, spans) && PairwiseDisjoint(spans) && WellFormed(spans, |content|)
            && WellFormed(ordered, |content|) && Chained(ordered)
            && Apply(content, Exact, edits).value == Simultaneous(content, ordered, 0)
            && |Apply(content, Exact, edits).value| == |content| + Growth(spans)
  {
    hide SpanFor, SpansFrom, Splice, CoverOldTexts, PairwiseDisjoint, WellFormed, NonEmpty, Ascending, FirstOverlap;
    var spans := MatchedSpans(content, Exact, edits).value;
    ExactSpansCoverOldTexts(content, edits, 0);
    CoveringSpansAreWellFormed(content, edits, spans);
    AdjacentCheckIsPairwise(spans);
    SpliceIsSimultaneous(content, spans);
    SpliceLength(content, spans);
  }

  // ---------- The two paths ----------

  /** The normalizer leaves these lines alone. */
  predicate LeavesAlone(normalize: Normalizer, lines: seq<string>) {
    forall i :: 0 <= i < |lines| ==> normalize(lines[i]) == lines[i]
  }

  lemma LeftAlone(normalize: Normalizer, lines: seq<string>)
    requires LeavesAlone(normalize, lines)
    ensures Normalized(lines, normalize) == lines
  {
  }

  /** Where line `i` of the content starts. */
  function StartOfLine(content: string, i: nat): nat
    requires i < |TerminatedLines(content)|
  {
    Offset(TerminatedLines(content), i)
  }

  /** The line windows that match an old text when nothing is normalized. */
  function PlainStarts(content: string, old_: string): seq<nat>
    requires old_ != ""
  {
    TerminatedNonempty(old_);
    WindowStarts(TerminatedLines(content), TerminatedLines(old_), 0)
  }

  lemma PlainStartsAre(content: string, old_: string, i: nat)
    requires old_ != ""
    ensures i in PlainStarts(content, old_)
       <==> i < |TerminatedLines(content)| && LineAligned(content, old_, StartOfLine(content, i))
  {
    TerminatedNonempty(old_);
    WindowStartsAre(TerminatedLines(content), TerminatedLines(old_), 0, i);
    hide TerminatedLines, WindowStarts, WindowMatchesAt, LineAligned, Offset;
    if i < |TerminatedLines(content)| {
      WindowMatchIsAlignedOccurrence(content, old_, i);
    }
  }

  /** `p` is the only place where the old text stands on whole lines. */
  ghost predicate AlignedOnlyAt(content: string, old_: string, p: nat) {
    LineAligned(content, old_, p) && forall q: nat :: LineAligned(content, old_, q) ==> q == p
  }

  /** One window matches, and it starts there. */
  lemma OnePlainStart(content: string, old_: string, p: nat) returns (i: nat)
    requires old_ != "" && AlignedOnlyAt(content, old_, p)
    ensures PlainStarts(content, old_) == [i]
    ensures i < |TerminatedLines(content)| && StartOfLine(content, i) == p
  {
    AlignedFacts(content, old_, p);
    TerminatedNonempty(old_);
    TerminatedLinesJoin(content);
    hide TerminatedLines, LineAligned, Offset, WindowStarts, WindowMatchesAt, AreLines;
    i := LineStartIsOffset(content, p);
    var lines, window := TerminatedLines(content), TerminatedLines(old_);
    WindowMatchIsAlignedOccurrence(content, old_, i);
    forall j: nat | MatchesWithin(lines, window, j) ensures j == i {
      WindowMatchIsAlignedOccurrence(content, old_, j);
      if j < i {
        OffsetsIncrease(lines, j, i);
      } else if i < j {
        OffsetsIncrease(lines, i, j);
      }
    }
    SingleWindow(lines, window, 0, i);
  }

  /** The span both paths report for an old text at `p`. */
  function SpanAt(edit: Replacement, index: nat, p: nat): Span
    requires edit.oldText != ""
  {
    Span(index, p, p + |OldText(edit)|, NormalizeToLf(edit.newText))
  }

  lemma ExactSpanAt(content: string, edit: Replacement, index: nat, p: nat)
    requires edit.oldText != "" && Occurs(content, OldText(edit), p)
    requires forall q: nat :: Occurs(content, OldText(edit), q) ==> p <= q < p + |OldText(edit)|
    ensures ExactSpan(content, edit, index) == Ok(SpanAt(edit, index, p))
  {
    hide TextStarts, OldText, NormalizeToLf, Occurs;
    UniqueStart(content, OldText(edit), p);
  }

  /** What the fuzzy path finds when nothing is normalized. */
  function PlainSpan(content: string, edit: Replacement, index: nat): Result<Span, EditError>
    requires edit.oldText != ""
  {
    TerminatedNonempty(OldText(edit));
    WindowSpan(TerminatedLines(content), TerminatedLines(content), TerminatedLines(OldText(edit)), edit.newText, index)
  }

  lemma FuzzySpanIsPlain(content: string, normalize: Normalizer, edit: Replacement, index: nat)
    requires edit.oldText != ""
    requires LeavesAlone(normalize, TerminatedLines(content))
    requires LeavesAlone(normalize, TerminatedLines(OldText(edit)))
    ensures FuzzySpan(content, normalize, edit, index) == PlainSpan(content, edit, index)
  {
    hide TerminatedLines, OldText, WindowSpan, Normalized;
    LeftAlone(normalize, TerminatedLines(content));
    LeftAlone(normalize, TerminatedLines(OldText(edit)));
  }

  /** A match among the plain lines is reported as the occurrence it is. */
  lemma PlainSpanIsOccurrence(content: string, edit: Replacement, index: nat, i: nat)
    requires edit.oldText != "" && i < |TerminatedLines(content)|
    ensures PlainSpan(content, edit, index).Ok? <==> |PlainStarts(content, OldText(edit))| == 1
    ensures PlainStarts(content, OldText(edit)) == [i] ==>
              PlainSpan(content, edit, index) == Ok(SpanAt(edit, index, StartOfLine(content, i)))
  {
    hide TerminatedLines, OldText, NormalizeToLf, WindowStarts, WindowCharSpan, EndsWithNewline, Offset, WindowMatchesAt;
    var old_ := OldText(edit);
    TerminatedNonempty(old_);
    WindowStartsAre(TerminatedLines(content), TerminatedLines(old_), 0, i);
    WindowSpanIsOccurrence(content, old_, i);
  }

  lemma PlainSpanAt(content: string, edit: Replacement, index: nat, p: nat)
    requires edit.oldText != "" && AlignedOnlyAt(content, OldText(edit), p)
    ensures PlainSpan(content, edit, index) == Ok(SpanAt(edit, index, p))
  {
    hide TerminatedLines, OldText, AlignedOnlyAt, PlainStarts, StartOfLine, PlainSpan, SpanAt;
    var i := OnePlainStart(content, OldText(edit), p);
    PlainSpanIsOccurrence(content, edit, index, i);
  }

  /** An old text that occurs once, on whole lines, is found by both paths as the same span. */
  lemma SameSpan(content: string, normalize: Normalizer, edit: Replacement, index: nat, p: nat)
    requires edit.oldText != ""
    requires LeavesAlone(normalize, TerminatedLines(content))
    requires LeavesAlone(normalize, TerminatedLines(OldText(edit)))
    requires OccursOnlyAt(content, OldText(edit), p) && LineAligned(content, OldText(edit), p)
    ensures ExactSpan(content, edit, index) == FuzzySpan(content, normalize, edit, index) == Ok(SpanAt(edit, index, p))
  {
    FuzzySpanIsPlain(content, normalize, edit, index);
    hide TerminatedLines, OldText, LeavesAlone, ExactSpan, FuzzySpan, PlainSpan, SpanAt, Occurs, EndAligned;
    ExactSpanAt(content, edit, index, p);
    PlainSpanAt(content, edit, index, p);
  }

  ghost predicate OnceOnWholeLines(content: string, old_: string) {
    exists p: nat :: OccursOnlyAt(content, old_, p) && LineAligned(content, old_, p)
  }

  lemma {:induction false} SameSpans(content: string, normalize: Normalizer, edits: seq<Replacement>, i: nat)
    requires i <= |edits| && NoEmptyOldText(edits)
    requires LeavesAlone(normalize, TerminatedLines(content))
    requires forall j :: 0 <= j < |edits| ==> LeavesAlone(normalize, TerminatedLines(OldText(edits[j])))
    requires forall j :: 0 <= j < |edits| ==> OnceOnWholeLines(content, OldText(edits[j]))
    ensures SpansFrom(content, Fuzzy(normalize), edits, i) == SpansFrom(content, Exact, edits, i)
    decreases |edits| - i
  {
    hide ExactSpan, FuzzySpan, OldText, TerminatedLines, LineAligned;
    if i < |edits| {
      assert OnceOnWholeLines(content, OldText(edits[i]));
      var p: nat :| OccursOnlyAt(content, OldText(edits[i]), p) && LineAligned(content, OldText(edits[i]), p);
      SameSpan(content, normalize, edits[i], i, p);
      SameSpans(content, normalize, edits, i + 1);
    }
  }

  /**
   * When every old text occurs once and on whole lines, and there is nothing to normalize, the
   * fuzzy path and the exact path give the same result, errors included.
   */
  lemma FuzzyEqualsExact(content: string, normalize: Normalizer, edits: seq<Replacement>)
    requires NoEmptyOldText(edits)
    requires LeavesAlone(normalize, TerminatedLines(content))
    requires forall j :: 0 <= j < |edits| ==> LeavesAlone(normalize, TerminatedLines(OldText(edits[j])))
    requires forall j :: 0 <= j < |edits| ==> OnceOnWholeLines(content, OldText(edits[j]))
    ensures Apply(content, Fuzzy(normalize), edits) == Apply(content, Exact, edits)
  {
    SameSpans(content, normalize, edits, 0);
  }

  /**
   * With nothing to normalize, the fuzzy path finds what the exact path found exactly when the exact match
   * is the only place where the old text stands on whole lines.
   */
  lemma BothPathsAgreeIffAligned(content: string, normalize: Normalizer, edit: Replacement, index: nat)
    requires edit.oldText != ""
    requires LeavesAlone(normalize, TerminatedLines(content))
    requires LeavesAlone(normalize, TerminatedLines(OldText(edit)))
    ensures ExactSpan(content, edit, index).Ok? ==>
              (FuzzySpan(content, normalize, edit, index) == ExactSpan(content, edit, index)
               <==> AlignedOnlyAt(content, OldText(edit), ExactSpan(content, edit, index).value.start))
  {
    hide TerminatedLines, OldText, LeavesAlone, ExactSpan, FuzzySpan, PlainSpan, AlignedOnlyAt;
    FuzzySpanIsPlain(content, normalize, edit, index);
    if ExactSpan(content, edit, index).Ok? {
      PlainAgreesIffAligned(content, edit, index);
    }
  }

  lemma PlainAgreesIffAligned(content: string, edit: Replacement, index: nat)
    requires edit.oldText != "" && ExactSpan(content, edit, index).Ok?
    ensures PlainSpan(content, edit, index) == ExactSpan(content, edit, index)
       <==> AlignedOnlyAt(content, OldText(edit), ExactSpan(content, edit, index).value.start)
  {
    ExactSpanCovers(content, edit, index);
    hide NormalizeToLf, TerminatedLines, OldText, LineAligned, PlainStarts, StartOfLine, ExactSpan, PlainSpan, TextStarts,
      Occurs;
    var p := ExactSpan(content, edit, index).value.start;
    if AlignedOnlyAt(content, OldText(edit), p) {
      PlainSpanAt(content, edit, index, p);
    } else if PlainSpan(content, edit, index).Ok? {
      PlainSpanIsAlignedOnly(content, edit, index);
    }
  }

  /** What the plain search finds is the only place where the old text stands on whole lines. */
  lemma PlainSpanIsAlignedOnly(content: string, edit: Replacement, index: nat)
    requires edit.oldText != "" && PlainSpan(content, edit, index).Ok?
    ensures AlignedOnlyAt(content, OldText(edit), PlainSpan(content, edit, index).value.start)
  {
    hide TerminatedLines, OldText, LineAligned, PlainStarts, StartOfLine, PlainSpan;
    var old_ := OldText(edit);
    var i := TheStart(content, edit, index);
    PlainSpanIsOccurrence(content, edit, index, i);
    PlainStartsAre(content, old_, i);
    forall q: nat | LineAligned(content, old_, q) ensures q == StartOfLine(content, i) {
      LineOfAligned(content, old_, q);
    }
  }

  lemma SomeStartIsFound(content: string, edit: Replacement, index: nat)
    requires edit.oldText != "" && PlainStarts(content, OldText(edit)) != []
    ensures PlainSpan(content, edit, index).Ok? || PlainSpan(content, edit, index).error.Duplicate?
  {
    hide TerminatedLines, OldText, WindowStarts, WindowCharSpan, NormalizeToLf;
  }

  ghost predicate AllAlignedOnly(content: string, edits: seq<Replacement>, i: nat, spans: seq<Span>)
    requires NoEmptyOldText(edits)
  {
    && i + |spans| == |edits|
    && forall j {:trigger spans[j]} :: 0 <= j < |spans| ==> AlignedOnlyAt(content, OldText(edits[i + j]), spans[j].start)
  }

  lemma AlignedOnlyCons(content: string, edits: seq<Replacement>, i: nat, span: Span, rest: seq<Span>)
    requires NoEmptyOldText(edits) && i < |edits|
    ensures AllAlignedOnly(content, edits, i, [span] + rest)
       <==> AlignedOnlyAt(content, OldText(edits[i]), span.start) && AllAlignedOnly(content, edits, i + 1, rest)
  {
    hide AlignedOnlyAt, OldText;
    var spans := [span] + rest;
    assert forall j {:trigger rest[j]} :: 0 <= j < |rest| ==> spans[j + 1] == rest[j];
    assert forall j {:trigger spans[j]} :: 1 <= j < |spans| ==> spans[j] == rest[j - 1];
    assert spans[0] == span;
  }

  lemma {:induction false} SpansAgreeIffAligned(content: string, normalize: Normalizer, edits: seq<Replacement>, i: nat)
    requires i <= |edits| && NoEmptyOldText(edits)
    requires LeavesAlone(normalize, TerminatedLines(content))
    requires forall j :: 0 <= j < |edits| ==> LeavesAlone(normalize, TerminatedLines(OldText(edits[j])))
    ensures SpansFrom(content, Exact, edits, i).Ok? ==>
              (SpansFrom(content, Fuzzy(normalize), edits, i) == SpansFrom(content, Exact, edits, i)
               <==> AllAlignedOnly(content, edits, i, SpansFrom(content, Exact, edits, i).value))
    decreases |edits| - i
  {
    hide ExactSpan, FuzzySpan, OldText, TerminatedLines, AlignedOnlyAt, AllAlignedOnly, LeavesAlone;
    if i == |edits| {
      NothingLeftToAlign(content, edits);
    } else if SpansFrom(content, Exact, edits, i).Ok? {
      var span, rest := ExactSpan(content, edits[i], i).value, SpansFrom(content, Exact, edits, i + 1).value;
      BothPathsAgreeIffAligned(content, normalize, edits[i], i);
      SpansAgreeIffAligned(content, normalize, edits, i + 1);
      AlignedOnlyCons(content, edits, i, span, rest);
      forall x, more: seq<Span> ensures [x] + more == [span] + rest <==> x == span && more == rest {
        Parts([x], more);
        Parts([span], rest);
      }
    }
  }

  lemma NothingLeftToAlign(content: string, edits: seq<Replacement>)
    requires NoEmptyOldText(edits)
    ensures AllAlignedOnly(content, edits, |edits|, [])
  {
  }

  /**
   * With nothing to normalize and every old text found exactly, the fuzzy path finds the same spans exactly
   * when each is the only place where its old text stands on whole lines; then the results are the same.
   */
  lemma AllEditsAgreeIffAligned(content: string, normalize: Normalizer, edits: seq<Replacement>)
    requires NoEmptyOldText(edits)
    requires LeavesAlone(normalize, TerminatedLines(content))
    requires forall j :: 0 <= j < |edits| ==> LeavesAlone(normalize, TerminatedLines(OldText(edits[j])))
    ensures SpansFrom(content, Exact, edits, 0).Ok? ==>
              var aligned := AllAlignedOnly(content, edits, 0, SpansFrom(content, Exact, edits, 0).value);
              && (SpansFrom(content, Fuzzy(normalize), edits, 0) == SpansFrom(content, Exact, edits, 0) <==> aligned)
              && (aligned ==> Apply(content, Fuzzy(normalize), edits) == Apply(content, Exact, edits))
  {
    hide SpansFrom, AllAlignedOnly, LeavesAlone, OldText, TerminatedLines, Splice, FirstOverlap, Ascending;
    SpansAgreeIffAligned(content, normalize, edits, 0);
  }

  lemma TheStart(content: string, edit: Replacement, index: nat) returns (i: nat)
    requires edit.oldText != "" && PlainSpan(content, edit, index).Ok?
    ensures i < |TerminatedLines(content)| && PlainStarts(content, OldText(edit)) == [i]
  {
    TerminatedNonempty(OldText(edit));
    hide TerminatedLines, OldText, NormalizeToLf, WindowStarts, WindowCharSpan, EndsWithNewline, Offset, WindowMatchesAt;
    i := PlainStarts(content, OldText(edit))[0];
    WindowStartsAre(TerminatedLines(content), TerminatedLines(OldText(edit)), 0, i);
  }

  lemma LineOfAligned(content: string, old_: string, p: nat)
    requires old_ != "" && LineAligned(content, old_, p)
    ensures exists i: nat :: i in PlainStarts(content, old_) && i < |TerminatedLines(content)| && StartOfLine(content, i) == p
  {
    AlignedFacts(content, old_, p);
    hide TerminatedLines, LineAligned, PlainStarts;
    var i := LineStartIsOffset(content, p);
    PlainStartsAre(content, old_, i);
  }

  lemma AlignedFacts(content: string, old_: string, p: nat)
    requires old_ != "" && LineAligned(content, old_, p)
    ensures Occurs(content, old_, p) && p < |content| && (p == 0 || content[p - 1] == '\n')
  {
  }

  // ---------- The place differs: an overlapping copy before the whole-line one ----------

  /** Neither path reports a second match, yet they replace different places. */
  lemma OverlappingCopiesPartThePaths(edit: Replacement, index: nat)
    requires edit.oldText == "a\na"
    ensures ExactSpan("ba\na\na", edit, index) == Ok(Span(index, 1, 4, NormalizeToLf(edit.newText)))
    ensures PlainSpan("ba\na\na", edit, index) == Ok(Span(index, 3, 6, NormalizeToLf(edit.newText)))
  {
    hide NormalizeToLf, TerminatedLines, PlainSpan, ExactSpan, StartOfLine, PlainStarts, TextStarts;
    var content, old_ := "ba\na\na", "a\na";
    NormalizeCrFree(old_);
    assert Occurs(content, old_, 1) && LineAligned(content, old_, 3);
    assert content[0] == 'b' && content[2] == '\n';
    forall q: nat | Occurs(content, old_, q) ensures 1 <= q < 4 {
      assert content[q..q + 3][0] == 'a';
    }
    forall q: nat | LineAligned(content, old_, q) ensures q == 3 {
      assert content[q..q + 3][0] == 'a';
    }
    ExactSpanAt(content, edit, index, 1);
    PlainSpanAt(content, edit, index, 3);
  }

  /** The exact match stands on whole lines, but so does the copy that begins inside it. */
  lemma RepeatedLinesPartThePaths(edit: Replacement, index: nat)
    requires edit.oldText == "a\na\n"
    ensures ExactSpan("a\na\na\n", edit, index) == Ok(Span(index, 0, 4, NormalizeToLf(edit.newText)))
    ensures LineAligned("a\na\na\n", OldText(edit), 0)
    ensures PlainSpan("a\na\na\n", edit, index).Err? && PlainSpan("a\na\na\n", edit, index).error.Duplicate?
  {
    hide NormalizeToLf, TerminatedLines, ExactSpan, StartOfLine, PlainStarts, TextStarts, WindowStarts, WindowCharSpan;
    var content, old_ := "a\na\na\n", "a\na\n";
    NormalizeCrFree(old_);
    assert content[0..4] == old_ && content[2..6] == old_;
    assert LineAligned(content, old_, 0) && LineAligned(content, old_, 2);
    assert content[1] == content[3] == content[5] == '\n';
    forall q: nat | Occurs(content, old_, q) ensures 0 <= q < 4 {
    }
    ExactSpanAt(content, edit, index, 0);
    LineOfAligned(content, old_, 0);
    if PlainSpan(content, edit, index).Ok? {
      PlainSpanIsAlignedOnly(content, edit, index);
      assert false;
    }
    SomeStartIsFound(content, edit, index);
  }

  // ---------- Fuzzy edits ----------

  /** The old text is one unterminated line of which normalization leaves nothing. */
  predicate BlankOldText(normalize: Normalizer, edit: Replacement)
    requires edit.oldText != ""
  {
    Normalized(TerminatedLines(OldText(edit)), normalize) == [""]
  }

  /** The text of `n` lines from line `k` on, without a final newline that the old text does not claim. */
  function TextOfLines(lines: seq<string>, k: nat, n: nat, claimed: bool): string
    requires k + n <= |lines|
  {
    var text := Concat(lines[k..k + n]);
    if !claimed && EndsWithNewline(text) then text[..|text| - 1] else text
  }

  /** Line `k` is the one place where the window matches, and the span covers the text of the matched lines. */
  ghost predicate CoversLines(lines: seq<string>, normalized: seq<string>, window: seq<string>, k: nat, span: Span)
    requires |normalized| == |lines| && window != []
  {
    && WindowStarts(normalized, window, 0) == [k] && k + |window| <= |lines|
    && var claimed := EndsWithNewline(window[|window| - 1]);
       && (span.start, span.end) == WindowCharSpan(lines, k, k + |window| - 1, claimed)
       && span.start <= span.end <= |Concat(lines)|
       && Concat(lines)[span.start..span.end] == TextOfLines(lines, k, |window|, claimed)
  }

  lemma {:induction false} ConcatEnd(lines: seq<string>)
    requires lines != [] && AreLines(lines)
    ensures Concat(lines) != "" && EndsWithNewline(Concat(lines)) == EndsWithNewline(lines[|lines| - 1])
    decreases lines
  {
    var front, last := lines[..|lines| - 1], lines[|lines| - 1];
    assert lines == front + [last];
    ConcatOfBoth(front, [last]);
    assert Concat([last]) == last by { assert Concat([last]) == last + Concat([last][1..]); }
  }

  lemma SpanCoversLines(lines: seq<string>, k: nat, n: nat, claimed: bool)
    requires 0 < n && k + n <= |lines| && AreLines(lines)
    ensures var (from, to) := WindowCharSpan(lines, k, k + n - 1, claimed);
            from <= to <= |Concat(lines)| && Concat(lines)[from..to] == TextOfLines(lines, k, n, claimed)
  {
    hide Offset, Concat, EndsWithNewline;
    LinesBetween(lines, k, k + n);
    ConcatEnd(lines[k..k + n]);
    assert Offset(lines, k + n) == Offset(lines, k + n - 1) + |lines[k + n - 1]| by { OffsetStep(lines, k + n); }
    hide AreLines;
    assert lines[k..k + n][n - 1] == lines[k + n - 1];
    AllButLast(Concat(lines), Offset(lines, k), Offset(lines, k + n));
  }

  lemma OffsetStep(lines: seq<string>, i: nat)
    requires 0 < i <= |lines|
    ensures Offset(lines, i) == Offset(lines, i - 1) + |lines[i - 1]|
  {
  }

  lemma AllButLast(text: string, p: nat, q: nat)
    requires p <= q <= |text|
    ensures p < q ==> text[p..q][..q - p - 1] == text[p..q - 1]
  {
  }

  /** The window's span covers its lines, and characters at all unless blank text is matched with an empty line. */
  lemma WindowSpanCovers(lines: seq<string>, normalized: seq<string>, window: seq<string>, newText: string, index: nat)
    requires |normalized| == |lines| && window != [] && AreLines(lines)
    requires WindowSpan(lines, normalized, window, newText, index).Ok?
    ensures var span, starts := WindowSpan(lines, normalized, window, newText, index).value, WindowStarts(normalized, window, 0);
            && span.editIndex == index && span.replacement == NormalizeToLf(newText)
            && starts != [] && CoversLines(lines, normalized, window, starts[0], span)
            && (span.start == span.end ==>
                  |window| == 1 && starts[0] < |lines| && lines[starts[0]] == "\n"
                  && LastLineMatches(normalized[starts[0]], window[0]) && !EndsWithNewline(window[0]))
  {
    hide NormalizeToLf, AreLines, WindowStarts, WindowCharSpan, Concat, EndsWithNewline, TextOfLines, LastLineMatches,
      WindowSpan, RequireUniqueMatch;
    var k := WindowSpanIs(lines, normalized, window, newText, index);
    var claimed := EndsWithNewline(window[|window| - 1]);
    SpanCoversLines(lines, k, |window|, claimed);
    CharSpanShape(lines, k, k + |window| - 1, claimed);
  }

  lemma WindowSpanIs(lines: seq<string>, normalized: seq<string>, window: seq<string>, newText: string, index: nat)
    returns (k: nat)
    requires |normalized| == |lines| && window != []
    requires WindowSpan(lines, normalized, window, newText, index).Ok?
    ensures WindowStarts(normalized, window, 0) == [k] && k + |window| <= |lines|
    ensures LastLineMatches(normalized[k + |window| - 1], window[|window| - 1])
    ensures var (from, to) := WindowCharSpan(lines, k, k + |window| - 1, EndsWithNewline(window[|window| - 1]));
            WindowSpan(lines, normalized, window, newText, index) == Ok(Span(index, from, to, NormalizeToLf(newText)))
  {
    hide NormalizeToLf, WindowStarts, WindowCharSpan, EndsWithNewline, LastLineMatches;
    k := TheWindow(normalized, window, index);
  }

  /** The one start behind an accepted match, and the match of its last line. */
  lemma TheWindow(normalized: seq<string>, window: seq<string>, index: nat) returns (k: nat)
    requires window != [] && RequireUniqueMatch(WindowStarts(normalized, window, 0), index).Ok?
    ensures WindowStarts(normalized, window, 0) == [k] && k + |window| <= |normalized|
    ensures LastLineMatches(normalized[k + |window| - 1], window[|window| - 1])
    ensures RequireUniqueMatch(WindowStarts(normalized, window, 0), index) == Ok(k)
  {
    hide WindowStarts, LastLineMatches;
    k := WindowStarts(normalized, window, 0)[0];
    WindowStartsAre(normalized, window, 0, k);
  }

  lemma BlankWindow(normalized: string, old_: string)
    requires LastLineMatches(normalized, old_) && normalized == "\n" && !EndsWithNewline(old_)
    ensures old_ == ""
  {
  }

  lemma CharSpanShape(lines: seq<string>, first: nat, last: nat, terminated: bool)
    requires first <= last < |lines| && AreLines(lines)
    ensures var (from, to) := WindowCharSpan(lines, first, last, terminated);
            && from <= to <= |Concat(lines)|
            && (from == to ==> first == last && lines[first] == "\n" && !terminated)
  {
    OffsetCuts(lines, last + 1);
    if first < last {
      OffsetsIncrease(lines, first, last);
    }
    assert Offset(lines, last + 1) == Offset(lines, last) + |lines[last]|;
    hide Offset, Concat;
  }

  /** The span replaces exactly the lines whose normalized form is the edit's normalized old text. */
  ghost predicate CoversWindow(content: string, normalize: Normalizer, edit: Replacement, index: nat, span: Span)
    requires edit.oldText != ""
  {
    var lines := TerminatedLines(content);
    var window := Normalized(TerminatedLines(OldText(edit)), normalize);
    && span.editIndex == index && span.replacement == NormalizeToLf(edit.newText)
    && window != []
    && exists k: nat :: CoversLines(lines, Normalized(lines, normalize), window, k, span)
  }

  lemma FuzzySpanCovers(content: string, normalize: Normalizer, edit: Replacement, index: nat)
    requires edit.oldText != "" && FuzzySpan(content, normalize, edit, index).Ok?
    ensures var span := FuzzySpan(content, normalize, edit, index).value;
            && CoversWindow(content, normalize, edit, index, span)
            && span.start <= span.end <= |content|
            && (normalize("\n") == "\n" && !BlankOldText(normalize, edit) ==> span.start < span.end)
  {
    hide TerminatedLines, OldText, WindowSpan, NormalizeToLf, Concat, AreLines, CoversLines, LastLineMatches, EndsWithNewline,
      WindowStarts;
    var lines := TerminatedLines(content);
    TerminatedLinesJoin(content);
    TerminatedNonempty(OldText(edit));
    var normalized, window := Normalized(lines, normalize), Normalized(TerminatedLines(OldText(edit)), normalize);
    WindowSpanCovers(lines, normalized, window, edit.newText, index);
    var span, k := FuzzySpan(content, normalize, edit, index).value, WindowStarts(normalized, window, 0)[0];
    CoveredText(lines, normalized, window, k, span);
    if normalize("\n") == "\n" && span.start == span.end {
      BlankWindow(normalized[k], window[0]);
      assert window == [""];
    }
  }

  lemma CoveredText(lines: seq<string>, normalized: seq<string>, window: seq<string>, k: nat, span: Span)
    requires |normalized| == |lines| && window != [] && CoversLines(lines, normalized, window, k, span)
    ensures span.start <= span.end <= |Concat(lines)|
  {
  }

  ghost predicate CoverWindows(content: string, normalize: Normalizer, edits: seq<Replacement>, i: nat, spans: seq<Span>)
    requires NoEmptyOldText(edits)
  {
    && i + |spans| == |edits|
    && forall j {:trigger spans[j]} :: 0 <= j < |spans| ==>
         CoversWindow(content, normalize, edits[i + j], i + j, spans[j])
  }

  predicate NoBlankOldText(normalize: Normalizer, edits: seq<Replacement>)
    requires NoEmptyOldText(edits)
  {
    normalize("\n") == "\n" && forall j :: 0 <= j < |edits| ==> !BlankOldText(normalize, edits[j])
  }

  lemma {:induction false} FuzzySpansCover(content: string, normalize: Normalizer, edits: seq<Replacement>, i: nat)
    requires i <= |edits| && NoEmptyOldText(edits)
    ensures SpansFrom(content, Fuzzy(normalize), edits, i).Ok? ==>
              var spans := SpansFrom(content, Fuzzy(normalize), edits, i).value;
              && CoverWindows(content, normalize, edits, i, spans) && WellFormed(spans, |content|)
              && (NoBlankOldText(normalize, edits) ==> NonEmpty(spans))
    decreases |edits| - i
  {
    hide FuzzySpan, BlankOldText, CoversWindow;
    if i < |edits| && SpansFrom(content, Fuzzy(normalize), edits, i).Ok? {
      FuzzySpansCover(content, normalize, edits, i + 1);
      FuzzySpanCovers(content, normalize, edits[i], i);
      var span, rest := FuzzySpan(content, normalize, edits[i], i).value,
                        SpansFrom(content, Fuzzy(normalize), edits, i + 1).value;
      var spans := [span] + rest;
      assert forall j {:trigger spans[j]} :: 1 <= j < |spans| ==> spans[j] == rest[j - 1];
    }
  }

  /** What simultaneous replacement of the spans leaves of the content. */
  predicate AppliedAtOnce(content: string, path: Path, edits: seq<Replacement>, spans: seq<Span>)
    requires NoEmptyOldText(edits)
  {
    var ordered := Ascending(spans);
    && WellFormed(spans, |content|) && WellFormed(ordered, |content|) && Chained(ordered)
    && var edited := Simultaneous(content, ordered, 0);
       && |edited| == |content| + Growth(spans)
       && Apply(content, path, edits) == if edited == content then Err(NoChange) else Ok(edited)
  }

  /**
   * A fuzzy edit whose spans pass the check covers, for each edit, exactly the lines it matched; it replaces
   * them all at once if no two of them start at one place, and for all new texts only then.
   */
  lemma FuzzyEditIsSimultaneous(content: string, normalize: Normalizer, edits: seq<Replacement>)
    requires NoEmptyOldText(edits) && MatchedSpans(content, Fuzzy(normalize), edits).Ok?
    ensures var spans := MatchedSpans(content, Fuzzy(normalize), edits).value;
            && CoverWindows(content, normalize, edits, 0, spans) && WellFormed(spans, |content|)
            && |Splice(content, spans)| == |content| + Growth(spans)
            && (DistinctStarts(spans) ==> AppliedAtOnce(content, Fuzzy(normalize), edits, spans))
            && ((forall texts: seq<string> :: |texts| == |spans| ==> SplicedAtOnce(content, Replaced(spans, texts)))
                <==> DistinctStarts(spans))
  {
    hide SpanFor, SpansFrom, Splice, Ascending, FirstOverlap, CoverWindows, SplicedAtOnce, DistinctStarts;
    var spans := MatchedSpans(content, Fuzzy(normalize), edits).value;
    FuzzySpansCover(content, normalize, edits, 0);
    SimultaneousIffDistinctStarts(content, spans);
    DistinctIsStrict(spans);
    SpliceLength(content, spans);
    if DistinctStarts(spans) {
      SpliceIsSimultaneous(content, spans);
    }
  }

  /** Without blank old texts no two windows start at one place, so the edit is simultaneous. */
  lemma FuzzyEditWithoutBlanks(content: string, normalize: Normalizer, edits: seq<Replacement>)
    requires NoEmptyOldText(edits) && NoBlankOldText(normalize, edits)
    requires MatchedSpans(content, Fuzzy(normalize), edits).Ok?
    ensures var spans := MatchedSpans(content, Fuzzy(normalize), edits).value;
            PairwiseDisjoint(spans) && AppliedAtOnce(content, Fuzzy(normalize), edits, spans)
  {
    hide SpanFor, SpansFrom, Splice, Ascending, FirstOverlap, CoverWindows, NoBlankOldText, AppliedAtOnce, PairwiseDisjoint,
      DistinctStarts, SplicedAtOnce;
    var spans := MatchedSpans(content, Fuzzy(normalize), edits).value;
    FuzzySpansCover(content, normalize, edits, 0);
    AdjacentCheckIsPairwise(spans);
    DistinctIsStrict(spans);
    FuzzyEditIsSimultaneous(content, normalize, edits);
  }

  // ---------- Blank old text: an empty span beside the span of the same line ----------

  lemma TieLines()
    ensures TerminatedLines("\nfoo") == ["\n", "foo"] && TerminatedLines("  ") == ["  "]
  {
    hide TerminatedLines;
    TerminatedLinesStep("\nfoo");
    TerminatedLinesStep("foo");
    TerminatedLinesStep("  ");
    assert "\nfoo"[1..] == "foo" && "\nfoo"[..1] == "\n";
    assert FirstNewline("foo").None? && FirstNewline("  ").None?;
  }

  lemma TieNormalized(normalize: Normalizer)
    requires normalize("\n") == "\n" && normalize("foo") == "foo" && normalize("  ") == ""
    ensures Normalized(["\n", "foo"], normalize) == ["\n", "foo"] && Normalized(["  "], normalize) == [""]
  {
  }

  lemma TieExact(newText: string)
    ensures ExactSpan("\nfoo", Replacement("  ", newText), 0) == Err(NotFound(0))
  {
    hide TextStarts, NormalizeToLf;
    NormalizeCrFree("  ");
    NoStart("\nfoo", "  ");
    forall q: nat ensures !Occurs("\nfoo", "  ", q) {
      if q + 2 <= 4 {
        assert "\nfoo"[q..q + 2][1] == "\nfoo"[q + 1];
      }
    }
  }

  lemma TieBlank(newText: string)
    ensures WindowSpan(["\n", "foo"], ["\n", "foo"], [""], newText, 0) == Ok(Span(0, 0, 0, NormalizeToLf(newText)))
  {
    hide NormalizeToLf, WindowStarts, WindowMatchesAt;
    var lines := ["\n", "foo"];
    assert MatchesWithin(lines, [""], 0) by { OneLineMatches(lines, ""); }
    forall j: nat | MatchesWithin(lines, [""], j) ensures j == 0 {
      MatchesWithinShift(lines, [""], j);
      OneLineMatches(lines[j..], "");
    }
    SingleWindow(lines, [""], 0, 0);
  }

  lemma TieOther(newText: string)
    ensures WindowSpan(["\n", "foo"], ["\n", "foo"], ["\n", "foo"], newText, 1) == Ok(Span(1, 0, 4, NormalizeToLf(newText)))
  {
    hide NormalizeToLf, WindowStarts;
    var lines := ["\n", "foo"];
    assert lines[0..0 + 1] == lines[..1];
    SingleWindow(lines, lines, 0, 0);
    assert Offset(lines, 1) == 1;
  }

  lemma TieFuzzy(normalize: Normalizer)
    requires normalize("\n") == "\n" && normalize("foo") == "foo" && normalize("  ") == ""
    ensures FuzzySpan("\nfoo", normalize, Replacement("  ", "A"), 0) == Ok(Span(0, 0, 0, "A"))
    ensures FuzzySpan("\nfoo", normalize, Replacement("\nfoo", "B"), 1) == Ok(Span(1, 0, 4, "B"))
  {
    hide TerminatedLines, NormalizeToLf, WindowSpan, Normalized;
    TieLines();
    TieNormalized(normalize);
    NormalizeCrFree("  ");
    NormalizeCrFree("\nfoo");
    NormalizeCrFree("A");
    NormalizeCrFree("B");
    TieBlank("A");
    TieOther("B");
  }

  /** One blank edit and one other edit of the same place pass the overlap check and garble each other. */
  lemma BlankOldTextGarbles(normalize: Normalizer)
    requires normalize("\n") == "\n" && normalize("foo") == "foo" && normalize("  ") == ""
    ensures ApplyWithFallback("\nfoo", [Replacement("  ", "A"), Replacement("\nfoo", "B")], normalize) == Ok("Bo")
  {
    hide ExactSpan, FuzzySpan, Splice;
    var content, edits := "\nfoo", [Replacement("  ", "A"), Replacement("\nfoo", "B")];
    TieExact("A");
    TieFuzzy(normalize);
    var a, b := Span(0, 0, 0, "A"), Span(1, 0, 4, "B");
    TwoSpansFound(content, Fuzzy(normalize), edits, a, b);
    TwoSpans(content, a, b);
    assert ApplySpan(content, a) == "A\nfoo";
    assert ApplySpan("A\nfoo", b) == "Bo";
  }

  lemma TwoSpansFound(content: string, path: Path, edits: seq<Replacement>, a: Span, b: Span)
    requires NoEmptyOldText(edits) && |edits| == 2
    requires SpanFor(content, path, edits[0], 0) == Ok(a) && SpanFor(content, path, edits[1], 1) == Ok(b)
    requires a.end <= b.start && a.start <= a.end
    ensures MatchedSpans(content, path, edits) == Ok([a, b])
  {
    hide SpanFor;
    assert SpansFrom(content, path, edits, 2) == Ok([]);
    assert [b] + [] == [b] && [a] + [b] == [a, b];
    assert SpansFrom(content, path, edits, 1) == Ok([b]);
    assert [a, b][1..] == [b] && [b][1..] == [];
    assert Ascending([b]) == [b];
    assert Ascending([a, b]) == InsertAscending(a, [b]) == [a] + [b];
    assert FirstOverlap([a, b]).None?;
    assert SpansFrom(content, path, edits, 0) == Ok([a, b]);
  }

  // ---------- Files ----------

  lemma {:induction false} AppliedIsCrFree(text: string, spans: seq<Span>)
    requires CrFree(text) && forall x :: x in spans ==> CrFree(x.replacement)
    ensures CrFree(ApplyInOrder(text, spans))
    decreases spans
  {
    if spans != [] {
      assert spans[0] in spans && forall x :: x in spans[1..] ==> x in spans;
      AppliedIsCrFree(ApplySpan(text, spans[0]), spans[1..]);
    }
  }

  lemma SpanIsCrFree(content: string, path: Path, edit: Replacement, index: nat)
    requires edit.oldText != "" && SpanFor(content, path, edit, index).Ok?
    ensures CrFree(SpanFor(content, path, edit, index).value.replacement)
  {
    hide CrFree, NormalizeToLf, TextStarts, OldText, TerminatedLines, Normalized, WindowStarts, WindowCharSpan, MatchesWithin;
    NormalizedIsCrFree(edit.newText);
  }

  lemma {:induction false} ReplacementsAreCrFree(content: string, path: Path, edits: seq<Replacement>, i: nat)
    requires i <= |edits| && NoEmptyOldText(edits)
    ensures SpansFrom(content, path, edits, i).Ok? ==>
              forall x :: x in SpansFrom(content, path, edits, i).value ==> CrFree(x.replacement)
    decreases |edits| - i
  {
    hide CrFree, SpanFor;
    if i < |edits| && SpansFrom(content, path, edits, i).Ok? {
      ReplacementsAreCrFree(content, path, edits, i + 1);
      SpanIsCrFree(content, path, edits[i], i);
      var span, rest := SpanFor(content, path, edits[i], i).value, SpansFrom(content, path, edits, i + 1).value;
      forall x | x in [span] + rest ensures CrFree(x.replacement) {
        InConcat([span], rest, x);
      }
    }
  }

  lemma EditedIsCrFree(content: string, path: Path, edits: seq<Replacement>)
    requires NoEmptyOldText(edits) && CrFree(content) && Apply(content, path, edits).Ok?
    ensures CrFree(Apply(content, path, edits).value)
  {
    hide CrFree, SpansFrom, FirstOverlap, Descending, ApplyInOrder;
    var spans := MatchedSpans(content, path, edits).value;
    ReplacementsAreCrFree(content, path, edits, 0);
    DescendingMembers(spans);
    AppliedIsCrFree(content, Descending(spans));
  }

  /**
   * A file written by the tool, loaded again, has the edited content and the same BOM and style,
   * exactly when it had a BOM or the edited content does not start with one.
   */
  lemma EditedFileReloads(raw: string, edits: seq<Replacement>, normalize: Normalizer)
    requires EditFile(raw, edits, normalize).Ok?
    ensures var file := LoadFile(raw);
            var edited := ApplyWithFallback(file.content, edits, normalize).value;
            var reloaded := LoadFile(EditFile(raw, edits, normalize).value);
            && (reloaded.content == edited <==> file.hasBom || edited == "" || edited[0] != BOM)
            && (reloaded.content == edited ==>
                  && reloaded.hasBom == file.hasBom
                  && reloaded.lineEnding == if '\n' in edited then file.lineEnding else Lf)
  {
    hide Apply, WriteLoadedFile, NormalizeToLf, DetectLineEnding, CrFree;
    var file := LoadFile(raw);
    FirstEmptyFindsIt(edits, 0);
    NormalizedIsCrFree(if file.hasBom then raw[1..] else raw);
    if Apply(file.content, Exact, edits).Ok? {
      EditedIsCrFree(file.content, Exact, edits);
    } else {
      EditedIsCrFree(file.content, Fuzzy(normalize), edits);
    }
    ReloadGivesEditedText(file, ApplyWithFallback(file.content, edits, normalize).value);
  }
}

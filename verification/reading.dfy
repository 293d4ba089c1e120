/** Reading a text file page by page: each cut page advertises the offset of the next one. */
module PagedReading {
  import opened Wrappers
  import opened Sequences
  import opened Utf8
  import opened Lines
  import opened Truncation

  datatype Selection = Selection(content: string, startLine: nat, totalLines: nat)

  datatype ReadResult =
    | BeyondEnd(totalLines: nat)
    | FirstLineTooLarge(line: nat)
    | CutPage(content: string, startLine: nat, endLine: nat, nextOffset: nat, cutBy: Reason)
    | LastPage(content: string)

  /** Offsets count from 1; a missing, zero or negative offset reads from the first line. */
  function StartIndex(offset: Option<int>): nat {
    match offset
    case None => 0
    case Some(n) => if n - 1 > 0 then n - 1 else 0
  }

  function SelectContent(content: string, offset: Option<int>): Result<Selection, ReadResult> {
    var lines := Split(content);
    var start := StartIndex(offset);
    if start >= |lines| then Err(BeyondEnd(|lines|))
    else Ok(Selection(Join(lines[start..]), start + 1, |lines|))
  }

  function BuildResult(content: string, offset: Option<int>, limit: nat, maxBytes: nat): ReadResult {
    match SelectContent(content, offset)
    case Err(error) => error
    case Ok(selection) =>
      var t := Truncate(selection.content, Head, limit, maxBytes);
      if t.edgeLineExceedsLimit then FirstLineTooLarge(selection.startLine)
      else if t.truncated then
        var endLine: int := selection.startLine + t.outputLines - 1;
        CutPage(t.content, selection.startLine, endLine, endLine + 1, t.truncatedBy.GetOr(ByBytes))
      else LastPage(t.content)
  }

  /** The limit on lines that a request means: at least one. */
  function LineLimit(limit: int): (max: nat)
    ensures max >= 1 && (limit >= 1 ==> max == limit) && (limit < 1 ==> max == 1)
  {
    if limit > 1 then limit else 1
  }

  /** The tool's entry. */
  function Read(content: string, offset: Option<int>, limit: int, maxBytes: nat): ReadResult {
    BuildResult(content, offset, LineLimit(limit), maxBytes)
  }

  lemma SelectsFromLine(content: string, offset: nat)
    requires 1 <= offset <= |Split(content)|
    ensures var rest := Split(content)[offset - 1..];
            && SelectContent(content, Some(offset)) == Ok(Selection(Join(rest), offset, |Split(content)|))
            && NewlineFree(rest) && Split(Join(rest)) == rest
  {
    SplitNewlineFree(content);
    hide Split, Join;
    NewlineFreeSlice(Split(content), offset - 1, |Split(content)|);
    SplitJoin(Split(content)[offset - 1..]);
  }

  /** The three ways a page over the lines `rest`, starting at line `offset`, can turn out. */
  ghost predicate IsPageOf(page: ReadResult, rest: seq<string>, offset: nat, n: nat, max: nat, maxBytes: nat)
    requires rest != [] && n <= |rest|
  {
    if Size(rest[0]) > maxBytes then page == FirstLineTooLarge(offset)
    else if n < |rest| then
      && n >= 1 && page.CutPage? && page.startLine == offset && page.nextOffset == offset + n
      && page.endLine == offset + n - 1 && page.content == Join(rest[..n])
      && page.cutBy == (if n < max then ByBytes else ByLines)
    else page == LastPage(Join(rest))
  }

  lemma PageOfSelection(content: string, offset: nat, limit: int, maxBytes: nat)
    requires 1 <= offset <= |Split(content)|
    ensures var rest := Split(content)[offset - 1..];
            var n := Selected(rest, Head, LineLimit(limit), maxBytes);
            IsPageOf(Read(content, Some(offset), limit, maxBytes), rest, offset, n, LineLimit(limit), maxBytes)
  {
    hide Split, Size, Selected, Join, Truncate, SelectContent;
    var rest := Split(content)[offset - 1..];
    var max := LineLimit(limit);
    SelectsFromLine(content, offset);
    TruncateReportsSelection(Join(rest), Head, max, maxBytes);
    OversizedEdgeSelectsNothing(rest, Head, max, maxBytes);
    EdgeFlag(Join(rest), Head, max, maxBytes);
    TruncateTellsReason(Join(rest), Head, max, maxBytes);
    TruncateKeepsData(Join(rest), Head, max, maxBytes);
    assert EdgeLine(rest, Head) == rest[0];
    var n := Selected(rest, Head, max, maxBytes);
    assert EdgeLines(rest, Head, n) == rest[..n];
    if n == |rest| {
      assert rest[..n] == rest;
    }
  }

  /**
   * What a page shows of the file's lines, starting at index `i`, where it says to go on, and which limit one
   * more line would have broken.
   */
  ghost predicate ShowsLines(page: ReadResult, lines: seq<string>, i: nat, n: nat, max: nat, maxBytes: nat)
    requires i < |lines| && i + n <= |lines|
  {
    if Size(lines[i]) > maxBytes then page == FirstLineTooLarge(i + 1)
    else if i + n < |lines| then
      && n >= 1 && page.CutPage? && page.startLine == i + 1 && page.endLine == i + n && page.nextOffset == i + n + 1
      && Split(page.content) == lines[i..i + n]
      && (page.cutBy == ByLines ==> n == max) && (page.cutBy == ByBytes ==> n < max && JoinedBytes(lines[i..i + n + 1]) > maxBytes)
    else page.LastPage? && Split(page.content) == lines[i..|lines|]
  }

  lemma PageLines(page: ReadResult, lines: seq<string>, i: nat, n: nat, max: nat, maxBytes: nat)
    requires NewlineFree(lines) && i < |lines| && n == Selected(lines[i..], Head, max, maxBytes)
    requires IsPageOf(page, lines[i..], i + 1, n, max, maxBytes)
    ensures ShowsLines(page, lines, i, n, max, maxBytes)
  {
    hide Split, Size, Join, NewlineFree, Selected, JoinedBytes;
    SelectionStops(lines, i, n, max, maxBytes);
    if Size(lines[i]) <= maxBytes {
      if i + n < |lines| {
        SplitOfSlice(lines, i, n);
      } else {
        SplitOfSlice(lines, i, |lines| - i);
        assert lines[i..][..|lines| - i] == lines[i..];
      }
    }
  }

  lemma SelectionStops(lines: seq<string>, i: nat, n: nat, max: nat, maxBytes: nat)
    requires i < |lines| && n == Selected(lines[i..], Head, max, maxBytes)
    ensures n <= max && (n < max && i + n < |lines| ==> JoinedBytes(lines[i..i + n + 1]) > maxBytes)
  {
    hide Selected, JoinedBytes, RunningBytes;
    SelectedStops(lines[i..], Head, max, maxBytes);
    if i + n < |lines| {
      RunningBytesAreJoinedBytes(lines[i..], Head, n + 1);
      assert lines[i..][..n + 1] == lines[i..i + n + 1];
    }
  }

  /** Reading at a line shows the longest run of lines from there that is within both limits. */
  lemma PageShowsLines(content: string, offset: nat, limit: int, maxBytes: nat)
    requires 1 <= offset <= |Split(content)|
    ensures var lines := Split(content);
            var n := Selected(lines[offset - 1..], Head, LineLimit(limit), maxBytes);
            ShowsLines(Read(content, Some(offset), limit, maxBytes), lines, offset - 1, n, LineLimit(limit), maxBytes)
  {
    SplitNewlineFree(content);
    hide Split, Size, Selected, Join, Read, NewlineFree, SelectContent, IsPageOf, ShowsLines;
    var lines := Split(content);
    var n := Selected(lines[offset - 1..], Head, LineLimit(limit), maxBytes);
    PageOfSelection(content, offset, limit, maxBytes);
    PageLines(Read(content, Some(offset), limit, maxBytes), lines, offset - 1, n, LineLimit(limit), maxBytes);
  }

  lemma SplitOfSlice(lines: seq<string>, i: nat, n: nat)
    requires NewlineFree(lines) && i + n <= |lines| && n >= 1
    ensures Split(Join(lines[i..][..n])) == lines[i..i + n]
  {
    hide Split, Join;
    NewlineFreeSlice(lines, i, i + n);
    assert lines[i..][..n] == lines[i..i + n];
    SplitJoin(lines[i..i + n]);
  }

  lemma NewlineFreeSlice(lines: seq<string>, i: nat, j: nat)
    requires NewlineFree(lines) && i <= j <= |lines|
    ensures NewlineFree(lines[i..j]) && lines[i..|lines|] == lines[i..]
  {
    forall k | 0 <= k < j - i ensures !HasNewline(lines[i..j][k]) {
      assert lines[i..j][k] == lines[i + k];
    }
  }

  /** The advertised offset is a valid line further on, so following it never fails and makes progress. */
  lemma NextOffsetAdvances(content: string, offset: nat, limit: int, maxBytes: nat)
    requires 1 <= offset <= |Split(content)|
    ensures var page := Read(content, Some(offset), limit, maxBytes);
            && !page.BeyondEnd?
            && (page.CutPage? ==> offset < page.nextOffset <= |Split(content)|)
  {
    PageShowsLines(content, offset, limit, maxBytes);
    hide Split, Size, Read, Selected;
  }

  /** Any other offset reads as the first line or is beyond the end. */
  lemma OtherOffsets(content: string, offset: Option<int>, limit: int, maxBytes: nat)
    ensures offset.None? || offset.value < 1 ==>
              Read(content, offset, limit, maxBytes) == Read(content, Some(1), limit, maxBytes)
    ensures Read(content, offset, limit, maxBytes).BeyondEnd? <==> offset.Some? && offset.value > |Split(content)|
    ensures Read(content, offset, limit, maxBytes).BeyondEnd? ==>
              Read(content, offset, limit, maxBytes).totalLines == |Split(content)|
  {
    hide Truncate, Split;
  }

  // ---------- Reading a whole file ----------

  datatype Session = Session(pages: seq<string>, stuckAt: Option<nat>)

  /** Reads from `offset`, following every advertised offset. */
  function ReadOn(content: string, offset: nat, limit: int, maxBytes: nat): Session
    requires 1 <= offset <= |Split(content)|
    decreases |Split(content)| - offset
  {
    NextOffsetAdvances(content, offset, limit, maxBytes);
    match Read(content, Some(offset), limit, maxBytes)
    case CutPage(page, _, _, next, _) =>
      var rest := ReadOn(content, next, limit, maxBytes);
      Session([page] + rest.pages, rest.stuckAt)
    case LastPage(page) => Session([page], None)
    case FirstLineTooLarge(line) => Session([], Some(line))
    case BeyondEnd(_) => Session([], None)
  }

  /** The lines shown by a sequence of pages, in reading order. */
  function ShownLines(pages: seq<string>): seq<string> {
    if pages == [] then [] else Split(pages[0]) + ShownLines(pages[1..])
  }

  /** The number of lines from `i` on before the first one over the byte limit. */
  function FirstOversized(lines: seq<string>, i: nat, maxBytes: nat): (j: nat)
    requires i <= |lines|
    ensures i <= j <= |lines|
    ensures forall k :: i <= k < j ==> Size(lines[k]) <= maxBytes
    ensures j < |lines| ==> Size(lines[j]) > maxBytes
    decreases |lines| - i
  {
    if i == |lines| || Size(lines[i]) > maxBytes then i else FirstOversized(lines, i + 1, maxBytes)
  }

  lemma {:induction false} FirstOversizedSkips(lines: seq<string>, i: nat, j: nat, maxBytes: nat)
    requires i <= j <= |lines|
    requires forall k :: i <= k < j ==> Size(lines[k]) <= maxBytes
    ensures FirstOversized(lines, i, maxBytes) == FirstOversized(lines, j, maxBytes)
    decreases j - i
  {
    if i < j {
      FirstOversizedSkips(lines, i + 1, j, maxBytes);
    }
  }

  lemma {:induction false} JoinedBound(lines: seq<string>, n: nat, k: nat)
    requires k < n <= |lines|
    ensures Size(lines[k]) <= RunningBytes(lines, Head, n)
    decreases n
  {
    hide Size;
    if k < n - 1 {
      JoinedBound(lines, n - 1, k);
    }
  }

  /** Lines on a page are within the byte limit. */
  lemma SelectedLinesFit(lines: seq<string>, maxLines: nat, maxBytes: nat, k: nat)
    requires k < Selected(lines, Head, maxLines, maxBytes)
    ensures Size(lines[k]) <= maxBytes
  {
    hide Size, RunningBytes, Selected;
    SelectedStops(lines, Head, maxLines, maxBytes);
    JoinedBound(lines, Selected(lines, Head, maxLines, maxBytes), k);
  }

  /**
   * Reading on from a line shows exactly the lines up to the first one over the byte limit, with
   * no gap or repeat, and stops there if there is one.
   */
  lemma {:induction false} ReadOnShows(content: string, offset: nat, limit: int, maxBytes: nat)
    requires 1 <= offset <= |Split(content)|
    ensures var lines := Split(content);
            var stop := FirstOversized(lines, offset - 1, maxBytes);
            var session := ReadOn(content, offset, limit, maxBytes);
            && ShownLines(session.pages) == lines[offset - 1..stop]
            && session.stuckAt == if stop < |lines| then Some(stop + 1) else None
    decreases |Split(content)| - offset
  {
    hide Split, Size, Read, Selected, FirstOversized, ReadOn, ShownLines, ShowsLines;
    var lines := Split(content);
    var max := LineLimit(limit);
    var page := Read(content, Some(offset), limit, maxBytes);
    var n := Selected(lines[offset - 1..], Head, max, maxBytes);
    PageShowsLines(content, offset, limit, maxBytes);
    NextOffsetAdvances(content, offset, limit, maxBytes);
    ReadOnStep(content, offset, limit, maxBytes);
    PageLinesFit(lines, offset - 1, n, max, maxBytes);
    if page.CutPage? {
      ReadOnShows(content, page.nextOffset, limit, maxBytes);
    }
    PageThenRest(page, lines, offset - 1, n, max, maxBytes);
  }

  /** A page followed by the lines after it, up to the first oversized line. */
  lemma PageThenRest(page: ReadResult, lines: seq<string>, i: nat, n: nat, max: nat, maxBytes: nat)
    requires i < |lines| && i + n <= |lines| && ShowsLines(page, lines, i, n, max, maxBytes)
    requires FirstOversized(lines, i, maxBytes) == FirstOversized(lines, i + n, maxBytes)
    ensures var stop := FirstOversized(lines, i, maxBytes);
            && !page.BeyondEnd?
            && (page.CutPage? ==>
                  && page.nextOffset == i + n + 1 && i + n < |lines|
                  && Split(page.content) + lines[i + n..FirstOversized(lines, i + n, maxBytes)] == lines[i..stop])
            && (page.LastPage? ==> Split(page.content) == lines[i..stop] && stop == |lines|)
            && (page.FirstLineTooLarge? ==> [] == lines[i..stop] && stop < |lines| && page.line == stop + 1)
  {
    hide Split, Size, FirstOversized;
    OversizedHere(lines, i, maxBytes);
    if page.LastPage? {
      OversizedHere(lines, i + n, maxBytes);
      OversizedHere(lines, |lines|, maxBytes);
    } else if page.CutPage? {
      SliceConcat(lines, i, i + n, FirstOversized(lines, i + n, maxBytes));
    }
  }

  lemma ReadOnStep(content: string, offset: nat, limit: int, maxBytes: nat)
    requires 1 <= offset <= |Split(content)|
    ensures var page := Read(content, Some(offset), limit, maxBytes);
            var session := ReadOn(content, offset, limit, maxBytes);
            && (page.CutPage? ==>
                  && 1 <= page.nextOffset <= |Split(content)|
                  && ShownLines(session.pages)
                     == Split(page.content) + ShownLines(ReadOn(content, page.nextOffset, limit, maxBytes).pages)
                  && session.stuckAt == ReadOn(content, page.nextOffset, limit, maxBytes).stuckAt)
            && (page.LastPage? ==> ShownLines(session.pages) == Split(page.content) && session.stuckAt.None?)
            && (page.FirstLineTooLarge? ==> ShownLines(session.pages) == [] && session.stuckAt == Some(page.line))
  {
    hide Split, Size, Read;
    NextOffsetAdvances(content, offset, limit, maxBytes);
    var page := Read(content, Some(offset), limit, maxBytes);
    if page.CutPage? {
      Cons(page.content, ReadOn(content, page.nextOffset, limit, maxBytes).pages);
    } else if page.LastPage? {
      assert Split(page.content) + ShownLines([page.content][1..]) == Split(page.content);
    }
  }

  lemma OversizedHere(lines: seq<string>, i: nat, maxBytes: nat)
    requires i <= |lines|
    ensures FirstOversized(lines, i, maxBytes) == i <==> i == |lines| || Size(lines[i]) > maxBytes
  {
  }

  /** The first oversized line is beyond a page of `n` selected lines. */
  lemma PageLinesFit(lines: seq<string>, i: nat, n: nat, max: nat, maxBytes: nat)
    requires i <= |lines| && n == Selected(lines[i..], Head, max, maxBytes)
    ensures FirstOversized(lines, i, maxBytes) == FirstOversized(lines, i + n, maxBytes)
  {
    hide Size, Selected, FirstOversized;
    forall k | i <= k < i + n ensures Size(lines[k]) <= maxBytes {
      SelectedLinesFit(lines[i..], max, maxBytes, k - i);
    }
    FirstOversizedSkips(lines, i, i + n, maxBytes);
  }

  lemma SliceConcat(lines: seq<string>, i: nat, j: nat, k: nat)
    requires i <= j <= k <= |lines|
    ensures lines[i..j] + lines[j..k] == lines[i..k]
  {
  }

  /** A whole file is reconstructed exactly when no line is over the byte limit. */
  lemma ReadingReconstructsFile(content: string, limit: int, maxBytes: nat)
    ensures var session := ReadOn(content, 1, limit, maxBytes);
            && (session.stuckAt.None? <==> forall k :: 0 <= k < |Split(content)| ==> Size(Split(content)[k]) <= maxBytes)
            && (session.stuckAt.None? ==>
                  ShownLines(session.pages) == Split(content) && Join(ShownLines(session.pages)) == content)
  {
    ReadOnShows(content, 1, limit, maxBytes);
    JoinSplit(content);
    hide Size, Split, Join, ReadOn, ShownLines;
    var lines := Split(content);
    var stop := FirstOversized(lines, 0, maxBytes);
    if stop == |lines| {
      assert lines[0..stop] == lines;
    }
  }
}

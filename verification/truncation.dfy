/** Keeping one edge of a text within a line limit and a byte limit. */
module Truncation {
  import opened Wrappers
  import opened Utf8
  import opened Lines
  import opened Sequences

  datatype Keep = Head | Tail

  datatype Reason = ByLines | ByBytes

  datatype Truncation = Truncation(
    content: string, truncated: bool, truncatedBy: Option<Reason>, keep: Keep,
    totalLines: nat, totalBytes: nat, outputLines: nat, outputBytes: nat,
    edgeLineExceedsLimit: bool, maxLines: nat, maxBytes: nat)

  // ---------- Selecting lines from the retained edge ----------

  /** The `n` lines next to the retained edge, in text order. */
  function EdgeLines(lines: seq<string>, keep: Keep, n: nat): (edge: seq<string>)
    requires n <= |lines|
  {
    if keep == Head then lines[..n] else lines[|lines| - n..]
  }

  function EdgeLine(lines: seq<string>, keep: Keep): string
    requires lines != []
  {
    if keep == Head then lines[0] else lines[|lines| - 1]
  }

  /** The line a selection of `n` lines would take next. */
  function NextLine(lines: seq<string>, keep: Keep, n: nat): string
    requires n < |lines|
  {
    if keep == Head then lines[n] else lines[|lines| - 1 - n]
  }

  function JoinedBytes(lines: seq<string>): nat {
    Size(Join(lines))
  }

  lemma SizeOfJoined(a: seq<string>, b: seq<string>)
    requires a != [] && b != []
    ensures JoinedBytes(a + b) == JoinedBytes(a) + 1 + JoinedBytes(b)
  {
    JoinConcat(a, b);
    EncodeConcat(Join(a), "\n" + Join(b));
    EncodeConcat("\n", Join(b));
    SizeSingle('\n');
  }

  lemma EdgeGrows(lines: seq<string>, keep: Keep, n: nat)
    requires n < |lines|
    ensures var edge, next := EdgeLines(lines, keep, n), NextLine(lines, keep, n);
            EdgeLines(lines, keep, n + 1) == if keep == Head then edge + [next] else [next] + edge
  {
  }

  /** Joining one more line at either end costs the line and, between lines, one separator byte. */
  lemma JoinedBytesGrow(lines: seq<string>, keep: Keep, n: nat)
    requires n < |lines|
    ensures JoinedBytes(EdgeLines(lines, keep, n + 1))
         == JoinedBytes(EdgeLines(lines, keep, n)) + (if n == 0 then 0 else 1) + Size(NextLine(lines, keep, n))
  {
    var edge, next := EdgeLines(lines, keep, n), NextLine(lines, keep, n);
    EdgeGrows(lines, keep, n);
    assert JoinedBytes([next]) == Size(next) && JoinedBytes([]) == 0;
    hide JoinedBytes, Size;
    if n == 0 {
      assert EdgeLines(lines, keep, n + 1) == [next];
    } else if keep == Head {
      SizeOfJoined(edge, [next]);
    } else {
      SizeOfJoined([next], edge);
    }
  }

  /** The byte count the loops keep: each further line adds itself and a separator. */
  function RunningBytes(lines: seq<string>, keep: Keep, n: nat): nat
    requires n <= |lines|
  {
    if n == 0 then 0
    else RunningBytes(lines, keep, n - 1) + (if n == 1 then 0 else 1) + Size(NextLine(lines, keep, n - 1))
  }

  lemma NothingAtTheEdge(lines: seq<string>, keep: Keep)
    ensures EdgeLines(lines, keep, 0) == [] && JoinedBytes([]) == 0
  {
  }

  /** The running count is the encoded length of the joined selection. */
  lemma {:induction false} RunningBytesAreJoinedBytes(lines: seq<string>, keep: Keep, n: nat)
    requires n <= |lines|
    ensures RunningBytes(lines, keep, n) == JoinedBytes(EdgeLines(lines, keep, n))
  {
    hide JoinedBytes, EdgeLines, Size, NextLine;
    if n == 0 {
      NothingAtTheEdge(lines, keep);
    } else {
      RunningBytesAreJoinedBytes(lines, keep, n - 1);
      JoinedBytesGrow(lines, keep, n - 1);
    }
  }

  lemma {:induction false} RunningBytesMonotone(lines: seq<string>, keep: Keep, m: nat, n: nat)
    requires m <= n <= |lines|
    ensures RunningBytes(lines, keep, m) <= RunningBytes(lines, keep, n)
    decreases n - m
  {
    hide Size, NextLine;
    if m < n {
      RunningBytesMonotone(lines, keep, m, n - 1);
    }
  }

  /** The `n` lines at the edge, joined, are within both limits. */
  predicate WithinLimits(lines: seq<string>, keep: Keep, n: nat, maxLines: nat, maxBytes: nat)
    requires n <= |lines|
  {
    n <= maxLines && JoinedBytes(EdgeLines(lines, keep, n)) <= maxBytes
  }

  /** The number of lines kept, counted as the loop counts. */
  function SelectedFrom(lines: seq<string>, keep: Keep, maxLines: nat, maxBytes: nat, n: nat): (m: nat)
    requires n <= |lines|
    ensures n <= m <= |lines|
    decreases |lines| - n
  {
    if n < |lines| && n < maxLines && RunningBytes(lines, keep, n + 1) <= maxBytes
    then SelectedFrom(lines, keep, maxLines, maxBytes, n + 1)
    else n
  }

  function Selected(lines: seq<string>, keep: Keep, maxLines: nat, maxBytes: nat): (n: nat)
    ensures n <= |lines|
  {
    SelectedFrom(lines, keep, maxLines, maxBytes, 0)
  }

  lemma {:induction false} SelectedFromStops(lines: seq<string>, keep: Keep, maxLines: nat, maxBytes: nat, n: nat)
    requires n <= |lines| && n <= maxLines && RunningBytes(lines, keep, n) <= maxBytes
    ensures var m := SelectedFrom(lines, keep, maxLines, maxBytes, n);
            && m <= maxLines && RunningBytes(lines, keep, m) <= maxBytes
            && (m < |lines| ==> m == maxLines || RunningBytes(lines, keep, m + 1) > maxBytes)
    decreases |lines| - n
  {
    hide RunningBytes;
    if n < |lines| && n < maxLines && RunningBytes(lines, keep, n + 1) <= maxBytes {
      SelectedFromStops(lines, keep, maxLines, maxBytes, n + 1);
    }
  }

  lemma SelectedStops(lines: seq<string>, keep: Keep, maxLines: nat, maxBytes: nat)
    ensures var m := Selected(lines, keep, maxLines, maxBytes);
            && m <= maxLines && RunningBytes(lines, keep, m) <= maxBytes
            && (m < |lines| ==> m == maxLines || RunningBytes(lines, keep, m + 1) > maxBytes)
  {
    SelectedFromStops(lines, keep, maxLines, maxBytes, 0);
  }

  /** The limit that stopped the selection; the line limit is looked at first. */
  function StoppedBy(lines: seq<string>, keep: Keep, maxLines: nat, maxBytes: nat): Reason {
    var n := Selected(lines, keep, maxLines, maxBytes);
    if n < |lines| && n < maxLines then ByBytes else ByLines
  }

  /** The kept lines are the longest run at the edge within both limits. */
  lemma SelectedIsMaximal(lines: seq<string>, keep: Keep, maxLines: nat, maxBytes: nat, m: nat)
    requires m <= |lines|
    ensures WithinLimits(lines, keep, m, maxLines, maxBytes) <==> m <= Selected(lines, keep, maxLines, maxBytes)
  {
    hide RunningBytes, JoinedBytes, EdgeLines, Selected;
    var n := Selected(lines, keep, maxLines, maxBytes);
    SelectedStops(lines, keep, maxLines, maxBytes);
    RunningBytesAreJoinedBytes(lines, keep, m);
    if m <= n {
      RunningBytesMonotone(lines, keep, m, n);
    } else {
      RunningBytesMonotone(lines, keep, n + 1, m);
    }
  }

  /** The reported reason is a limit that one more line really breaks. */
  lemma StoppedByTellsTheLimit(lines: seq<string>, keep: Keep, maxLines: nat, maxBytes: nat)
    ensures var n := Selected(lines, keep, maxLines, maxBytes);
            n < |lines| ==>
              match StoppedBy(lines, keep, maxLines, maxBytes)
              case ByLines => n == maxLines
              case ByBytes => n < maxLines && JoinedBytes(EdgeLines(lines, keep, n + 1)) > maxBytes
  {
    hide RunningBytes, JoinedBytes, EdgeLines, Selected;
    var n := Selected(lines, keep, maxLines, maxBytes);
    SelectedStops(lines, keep, maxLines, maxBytes);
    if n < |lines| {
      RunningBytesAreJoinedBytes(lines, keep, n + 1);
    }
  }

  /** The kept lines in the order the loop meets them. */
  function InLoopOrder(lines: seq<string>, keep: Keep): seq<string> {
    if keep == Head then lines else Reversed(lines)
  }

  lemma LoopOrderStarts(keep: Keep)
    ensures InLoopOrder([], keep) == []
  {
  }

  lemma LoopOrderGrows(lines: seq<string>, keep: Keep, n: nat)
    requires n < |lines|
    ensures InLoopOrder(EdgeLines(lines, keep, n + 1), keep)
         == InLoopOrder(EdgeLines(lines, keep, n), keep) + [NextLine(lines, keep, n)]
  {
    EdgeGrows(lines, keep, n);
    var edge, next := EdgeLines(lines, keep, n), NextLine(lines, keep, n);
    if keep == Tail {
      hide EdgeLines, NextLine;
      assert Reversed([next] + edge) == Reversed(edge) + [next];
    }
  }

  lemma UndoLoopOrder(edge: seq<string>, keep: Keep)
    ensures var looped := InLoopOrder(edge, keep);
            (if keep == Tail then Reversed(looped) else looped) == edge
  {
    if keep == Tail {
      assert Reversed(Reversed(edge)) == edge;
    }
  }

  /** The accumulating loop with its running byte count; a tail is collected backwards, then reversed. */
  method SelectOutputLines(lines: seq<string>, keep: Keep, maxLines: nat, maxBytes: nat)
    returns (outputLines: seq<string>, truncatedBy: Reason)
    ensures outputLines == EdgeLines(lines, keep, Selected(lines, keep, maxLines, maxBytes))
    ensures truncatedBy == StoppedBy(lines, keep, maxLines, maxBytes)
  {
    hide Size, EdgeLines, NextLine, InLoopOrder;
    outputLines := [];
    var outputBytes := 0;
    truncatedBy := ByLines;
    var i := 0;
    NothingAtTheEdge(lines, keep);
    LoopOrderStarts(keep);
    while i < |lines|
      invariant 0 <= i <= |lines| && |outputLines| == i
      invariant outputLines == InLoopOrder(EdgeLines(lines, keep, i), keep)
      invariant outputBytes == RunningBytes(lines, keep, i)
      invariant Selected(lines, keep, maxLines, maxBytes) == SelectedFrom(lines, keep, maxLines, maxBytes, i)
      invariant truncatedBy == ByLines
    {
      var line := NextLine(lines, keep, i);
      if |outputLines| >= maxLines {
        break;
      }
      var separatorBytes := if outputLines != [] then 1 else 0;
      var lineBytes := Size(line);
      if outputBytes + separatorBytes + lineBytes > maxBytes {
        truncatedBy := ByBytes;
        break;
      }
      LoopOrderGrows(lines, keep, i);
      outputLines := outputLines + [line];
      outputBytes := outputBytes + separatorBytes + lineBytes;
      i := i + 1;
    }
    UndoLoopOrder(EdgeLines(lines, keep, i), keep);
    if keep == Tail {
      outputLines := Reversed(outputLines);
    }
  }

  // ---------- Truncating a text ----------

  predicate FitsLimits(text: string, maxLines: nat, maxBytes: nat) {
    |Split(text)| <= maxLines && Size(text) <= maxBytes
  }

  predicate EdgeLineExceedsLimit(lines: seq<string>, keep: Keep, maxBytes: nat)
    requires lines != []
  {
    Size(EdgeLine(lines, keep)) > maxBytes
  }

  function Truncate(text: string, keep: Keep, maxLines: nat, maxBytes: nat): Truncation {
    var lines := Split(text);
    var total := Size(text);
    if FitsLimits(text, maxLines, maxBytes) then
      Truncation(text, false, None, keep, |lines|, total, |lines|, total, false, maxLines, maxBytes)
    else if EdgeLineExceedsLimit(lines, keep, maxBytes) then
      Truncation("", true, Some(ByBytes), keep, |lines|, total, 0, 0, true, maxLines, maxBytes)
    else
      var kept := EdgeLines(lines, keep, Selected(lines, keep, maxLines, maxBytes));
      Truncation(Join(kept), true, Some(StoppedBy(lines, keep, maxLines, maxBytes)), keep,
                 |lines|, total, |kept|, JoinedBytes(kept), false, maxLines, maxBytes)
  }

  method TruncateText(text: string, keep: Keep, maxLines: nat, maxBytes: nat) returns (t: Truncation)
    ensures t == Truncate(text, keep, maxLines, maxBytes)
  {
    var lines := Split(text);
    var totalBytes := Size(text);
    if |lines| <= maxLines && totalBytes <= maxBytes {
      return Truncation(text, false, None, keep, |lines|, totalBytes, |lines|, totalBytes, false, maxLines, maxBytes);
    }
    if EdgeLineExceedsLimit(lines, keep, maxBytes) {
      return Truncation("", true, Some(ByBytes), keep, |lines|, totalBytes, 0, 0, true, maxLines, maxBytes);
    }
    var outputLines, truncatedBy := SelectOutputLines(lines, keep, maxLines, maxBytes);
    var content := Join(outputLines);
    t := Truncation(content, true, Some(truncatedBy), keep, |lines|, totalBytes,
                    |outputLines|, Size(content), false, maxLines, maxBytes);
  }

  lemma AllLinesAreTheText(text: string, keep: Keep)
    ensures var lines := Split(text);
            EdgeLines(lines, keep, |lines|) == lines && JoinedBytes(lines) == Size(text)
  {
    JoinSplit(text);
    hide Join, Size, Split;
  }

  /** A text over the limits never has all its lines selected. */
  lemma TruncatedPathDropsALine(text: string, keep: Keep, maxLines: nat, maxBytes: nat)
    ensures FitsLimits(text, maxLines, maxBytes) <==>
              Selected(Split(text), keep, maxLines, maxBytes) == |Split(text)|
  {
    AllLinesAreTheText(text, keep);
    SelectedIsMaximal(Split(text), keep, maxLines, maxBytes, |Split(text)|);
  }

  /** An oversized edge line leaves nothing selected. */
  lemma OversizedEdgeSelectsNothing(lines: seq<string>, keep: Keep, maxLines: nat, maxBytes: nat)
    requires lines != []
    ensures EdgeLineExceedsLimit(lines, keep, maxBytes) ==> Selected(lines, keep, maxLines, maxBytes) == 0
    ensures Selected(lines, keep, maxLines, maxBytes) == 0 ==>
              maxLines == 0 || EdgeLineExceedsLimit(lines, keep, maxBytes)
  {
    JoinedBytesGrow(lines, keep, 0);
    SelectedIsMaximal(lines, keep, maxLines, maxBytes, 1);
  }

  /** Every branch reports the selected lines and their measurements. */
  lemma TruncateReportsSelection(text: string, keep: Keep, maxLines: nat, maxBytes: nat)
    ensures var t := Truncate(text, keep, maxLines, maxBytes);
            var lines := Split(text);
            && t.outputLines == Selected(lines, keep, maxLines, maxBytes)
            && t.content == Join(EdgeLines(lines, keep, t.outputLines))
            && t.outputBytes == Size(t.content)
            && (t.truncated <==> t.outputLines < |lines|)
            && (t.truncated <==> t.truncatedBy.Some?)
  {
    hide Selected, Size, Split;
    var lines := Split(text);
    AllLinesAreTheText(text, keep);
    JoinSplit(text);
    TruncatedPathDropsALine(text, keep, maxLines, maxBytes);
    OversizedEdgeSelectsNothing(lines, keep, maxLines, maxBytes);
    NothingAtTheEdge(lines, keep);
    hide EdgeLines;
  }

  /** The oversized-edge flag does not depend on the branch taken. */
  lemma EdgeFlag(text: string, keep: Keep, maxLines: nat, maxBytes: nat)
    ensures Truncate(text, keep, maxLines, maxBytes).edgeLineExceedsLimit
       <==> EdgeLineExceedsLimit(Split(text), keep, maxBytes)
  {
    hide Split, Size, Selected;
    var lines := Split(text);
    TruncatedPathDropsALine(text, keep, maxLines, maxBytes);
    OversizedEdgeSelectsNothing(lines, keep, maxLines, maxBytes);
  }

  /** The reason that is true of a text cut to `n` of its lines: the byte limit, unless all allowed lines are kept. */
  predicate ReasonIsTrue(lines: seq<string>, t: Truncation)
    requires lines != []
  {
    t.truncatedBy == if !t.truncated then None
                     else if Size(EdgeLine(lines, t.keep)) > t.maxBytes || t.outputLines < t.maxLines then Some(ByBytes)
                     else Some(ByLines)
  }

  lemma TruncateTellsReason(text: string, keep: Keep, maxLines: nat, maxBytes: nat)
    ensures ReasonIsTrue(Split(text), Truncate(text, keep, maxLines, maxBytes))
  {
    TruncateReportsSelection(text, keep, maxLines, maxBytes);
    SelectedStops(Split(text), keep, maxLines, maxBytes);
    hide Split, Size, Selected, RunningBytes;
  }

  /**
   * What truncation reports, whatever branch it took: the content is the longest run of complete
   * lines at the edge that is within both limits, the measurements are those of the content, the totals
   * those of the text, and flag and reason say what stood in the way of one more line.
   */
  lemma TruncateKeepsMaximalRun(text: string, keep: Keep, maxLines: nat, maxBytes: nat)
    ensures var t := Truncate(text, keep, maxLines, maxBytes);
            var lines := Split(text);
            && t.outputLines <= |lines| && t.content == Join(EdgeLines(lines, keep, t.outputLines))
            && t.outputBytes == Size(t.content)
            && (forall m :: 0 <= m <= |lines| ==>
                  (WithinLimits(lines, keep, m, maxLines, maxBytes) <==> m <= t.outputLines))
            && (t.truncated <==> t.outputLines < |lines|)
            && t.totalLines == |lines| && t.totalBytes == Size(text)
            && t.keep == keep && t.maxLines == maxLines && t.maxBytes == maxBytes
            && (t.edgeLineExceedsLimit <==> Size(EdgeLine(lines, keep)) > maxBytes)
            && ReasonIsTrue(lines, t)
  {
    TruncateReportsSelection(text, keep, maxLines, maxBytes);
    TruncateTellsReason(text, keep, maxLines, maxBytes);
    EdgeFlag(text, keep, maxLines, maxBytes);
    TruncateKeepsData(text, keep, maxLines, maxBytes);
    hide Truncate, Selected, Split, WithinLimits, Join, EdgeLines, Size, ReasonIsTrue;
    var lines := Split(text);
    forall m | 0 <= m <= |lines|
      ensures WithinLimits(lines, keep, m, maxLines, maxBytes) <==> m <= Selected(lines, keep, maxLines, maxBytes)
    {
      SelectedIsMaximal(lines, keep, maxLines, maxBytes, m);
    }
  }

  lemma TruncateKeepsData(text: string, keep: Keep, maxLines: nat, maxBytes: nat)
    ensures var t := Truncate(text, keep, maxLines, maxBytes);
            && t.totalLines == |Split(text)| && t.totalBytes == Size(text)
            && t.keep == keep && t.maxLines == maxLines && t.maxBytes == maxBytes
  {
    hide Size, Split, Selected;
  }

  // ---------- The byte-only variant ----------

  /** Capping a text by bytes alone is head truncation with a line limit it cannot reach. */
  lemma ByteLimitIsHeadTruncation(text: string, byteLimit: nat)
    ensures var lines := Split(text);
            var t := Truncate(text, Head, |lines|, byteLimit);
            && (t.truncated <==> Size(text) > byteLimit)
            && t.content == if t.truncated then Join(lines[..Selected(lines, Head, |lines|, byteLimit)]) else text
  {
    var lines := Split(text);
    TruncateReportsSelection(text, Head, |lines|, byteLimit);
    JoinSplit(text);
    hide Size, Split, Join, Selected;
  }

  method TruncateToByteLimit(text: string, byteLimit: nat) returns (content: string, truncated: bool)
    ensures var t := Truncate(text, Head, |Split(text)|, byteLimit);
            content == t.content && truncated == t.truncated
  {
    var lines := Split(text);
    ByteLimitIsHeadTruncation(text, byteLimit);
    hide Truncate, Size, EdgeLines, Split, Join;
    if Size(text) <= byteLimit {
      return text, false;
    }
    var outputLines := [];
    var outputBytes := 0;
    var i := 0;
    while i < |lines|
      invariant 0 <= i <= |lines|
      invariant outputLines == lines[..i]
      invariant outputBytes == RunningBytes(lines, Head, i)
      invariant Selected(lines, Head, |lines|, byteLimit) == SelectedFrom(lines, Head, |lines|, byteLimit, i)
    {
      var separatorBytes := if outputLines != [] then 1 else 0;
      var lineBytes := Size(lines[i]);
      if outputBytes + separatorBytes + lineBytes > byteLimit {
        break;
      }
      outputLines := outputLines + [lines[i]];
      outputBytes := outputBytes + separatorBytes + lineBytes;
      i := i + 1;
    }
    return Join(outputLines), true;
  }
}

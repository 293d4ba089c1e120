/** Streaming output with a bounded byte tail, and what it reports about the whole stream. */
module OutputAccumulation {
  import opened Wrappers
  import opened Sequences
  import opened Utf8
  import opened Lines
  import opened Truncation

  // ---------- The retained tail as a function of the whole text ----------

  /** Where the longest suffix of whole characters of at most `cap` encoded bytes starts. */
  function TailStart(text: string, cap: nat): (k: nat)
    ensures k <= |text| && Size(text[k..]) <= cap
  {
    if Size(text) <= cap then 0 else 1 + TailStart(text[1..], cap)
  }

  function RetainedTail(text: string, cap: nat): string {
    text[TailStart(text, cap)..]
  }

  predicate StartsLine(text: string, k: nat)
    requires k <= |text|
  {
    k == 0 || text[k - 1] == '\n'
  }

  /** One character more would not fit; so at most three bytes of the cap are unused. */
  lemma {:induction false} TailIsLongest(text: string, cap: nat)
    ensures var k := TailStart(text, cap);
            k > 0 ==> Size(text[k - 1..]) > cap && Size(text[k..]) >= cap - 3
  {
    if Size(text) > cap {
      var k := TailStart(text, cap);
      TailIsLongest(text[1..], cap);
      if k == 1 {
        assert text[0..] == text;
      } else {
        DropDrop(text, 1, k - 2);
        DropDrop(text, 1, k - 1);
      }
    }
  }

  /** Trimming may be done piece by piece: nothing trimmed earlier is missed later. */
  lemma {:induction false} TailStartIncremental(old_: string, piece: string, cap: nat)
    ensures TailStart(old_ + piece, cap)
         == TailStart(old_, cap) + TailStart(RetainedTail(old_, cap) + piece, cap)
  {
    if Size(old_) > cap {
      EncodeConcat(old_, piece);
      ConcatTail(old_, piece);
      TailStartIncremental(old_[1..], piece, cap);
      DropDrop(old_, 1, TailStart(old_[1..], cap));
    }
  }

  lemma TailIncremental(old_: string, piece: string, cap: nat)
    ensures RetainedTail(old_ + piece, cap) == RetainedTail(RetainedTail(old_, cap) + piece, cap)
  {
    var k, text := TailStart(old_, cap), RetainedTail(old_, cap) + piece;
    TailStartIncremental(old_, piece, cap);
    Cut(old_, k);
    Assoc(old_[..k], old_[k..], piece);
    Parts(old_[..k], text);
    DropDrop(old_ + piece, k, TailStart(text, cap));
  }

  // ---------- Trimming at a character boundary ----------

  /** The scan stops at the first byte at or after `start` that does not continue a character. */
  ghost predicate IsBoundaryAtOrAfter(content: seq<Byte>, start: nat, b: nat) {
    && start <= b
    && (start <= |content| ==> b <= |content|)
    && (forall i :: start <= i < b && i < |content| ==> IsContinuation(content[i]))
    && (b < |content| ==> !IsContinuation(content[b]))
  }

  method Utf8BoundaryAtOrAfter(content: seq<Byte>, start: nat) returns (b: nat)
    requires start <= |content|
    ensures IsBoundaryAtOrAfter(content, start, b)
  {
    b := start;
    while b < |content| && IsContinuation(content[b])
      invariant start <= b <= |content|
      invariant forall i :: start <= i < b ==> IsContinuation(content[i])
    {
      b := b + 1;
    }
  }

  method TrimStart(content: seq<Byte>, maxBytes: nat) returns (b: nat)
    ensures b <= |content|
    ensures if |content| <= maxBytes then b == 0 else IsBoundaryAtOrAfter(content, |content| - maxBytes, b)
  {
    if |content| <= maxBytes {
      return 0;
    }
    b := Utf8BoundaryAtOrAfter(content, |content| - maxBytes);
  }

  lemma EncodeHead(s: string)
    requires s != ""
    ensures Encode(s) == EncodeChar(s[0]) + Encode(s[1..])
  {
  }

  /** The encoding of a text, cut before and after the character that precedes position `k`. */
  lemma EncodeAround(text: string, k: nat)
    requires 0 < k <= |text|
    ensures var before, c, after := Encode(text[..k - 1]), EncodeChar(text[k - 1]), Encode(text[k..]);
            && Encode(text) == before + (c + after)
            && Encode(text[k - 1..]) == c + after
            && Encode(text[..k]) == before + c
  {
    hide Encode, EncodeChar;
    EncodeSplit(text, k - 1);
    DropDrop(text, k - 1, 1);
    EncodeHead(text[k - 1..]);
    EncodeSplit(text[..k], k - 1);
    TakeTake(text, k, k - 1);
    OneLong(text, k - 1);
    SizeSingle(text[k - 1]);
  }

  lemma LeadByte(s: string)
    requires s != ""
    ensures |Encode(s)| > 0 && !IsContinuation(Encode(s)[0])
  {
  }

  lemma BytesAround(before: seq<Byte>, c: char, after: seq<Byte>)
    ensures var content, p := before + (EncodeChar(c) + after), |before| + |EncodeChar(c)|;
            && content[p..] == after
            && (forall i :: |before| < i < p ==> IsContinuation(content[i]))
            && (content[p - 1] == 0x0A <==> c == '\n')
  {
    var bytes := EncodeChar(c);
    hide EncodeChar;
    assert forall i :: 0 <= i < |bytes| ==> (before + (bytes + after))[|before| + i] == bytes[i];
  }

  /** The bytes around position `k`: the continuation bytes before it, and what follows. */
  lemma AroundCharacter(text: string, k: nat)
    requires 0 < k <= |text|
    ensures var content, prev, p := Encode(text), Size(text[..k - 1]), Size(text[..k]);
            && prev < p <= |content| && content[p..] == Encode(text[k..])
            && |content| - prev == Size(text[k - 1..])
            && (forall i :: prev < i < p ==> IsContinuation(content[i]))
            && (p < |content| ==> !IsContinuation(content[p]))
            && (content[p - 1] == 0x0A <==> text[k - 1] == '\n')
  {
    EncodeAround(text, k);
    BytesAround(Encode(text[..k - 1]), text[k - 1], Encode(text[k..]));
    if k < |text| {
      LeadByte(text[k..]);
      assert Encode(text)[Size(text[..k])..][0] == Encode(text)[Size(text[..k])];
    }
    hide EncodeChar, Encode, IsContinuation;
  }

  lemma WholeTextIsLonger(text: string, cap: nat)
    requires Size(text) > cap
    ensures TailStart(text, cap) > 0
  {
  }

  /** Scanning bytes finds exactly the start of the longest tail of whole characters. */
  lemma BoundaryIsTailStart(text: string, cap: nat, b: nat)
    requires Size(text) > cap && IsBoundaryAtOrAfter(Encode(text), Size(text) - cap, b)
    ensures var k := TailStart(text, cap);
            && k > 0 && 0 < b <= Size(text) && b == Size(text[..k])
            && Encode(text)[b..] == Encode(RetainedTail(text, cap))
            && (Encode(text)[b - 1] == 0x0A <==> text[k - 1] == '\n')
  {
    hide TailStart, Encode, IsContinuation, EncodeChar;
    var k := TailStart(text, cap);
    assert k > 0 by { WholeTextIsLonger(text, cap); }
    TailIsLongest(text, cap);
    AroundCharacter(text, k);
    var prev, p := Size(text[..k - 1]), Size(text[..k]);
    assert prev < Size(text) - cap <= p;
  }

  /** The line-boundary flag can be kept up to date from the bytes at hand. */
  lemma FlagIncremental(old_: string, piece: string, cap: nat)
    ensures var text := RetainedTail(old_, cap) + piece;
            var j := TailStart(text, cap);
            StartsLine(old_ + piece, TailStart(old_ + piece, cap))
            <==> if j == 0 then StartsLine(old_, TailStart(old_, cap)) else text[j - 1] == '\n'
  {
    TailStartIncremental(old_, piece, cap);
    hide TailStart, Size;
  }

  // ---------- What a snapshot reports, as a function of the whole text ----------

  /** The retained text from its first line boundary, when it has one. */
  function FromLineBoundary(tail: string, startsLine: bool): string {
    if startsLine then tail
    else
      match FirstNewline(tail)
      case None => tail
      case Some(i) => tail[i + 1..]
  }

  function SnapshotText(text: string, maxBytes: nat): string {
    var cap := 2 * maxBytes;
    FromLineBoundary(RetainedTail(text, cap), StartsLine(text, TailStart(text, cap)))
  }

  function TotalLines(text: string): nat {
    if text == "" then 0 else 1 + CountNewlines(text)
  }

  function EffectiveReason(t: Truncation, totalLines: nat, totalBytes: nat): Option<Reason> {
    if t.truncatedBy.Some? then t.truncatedBy
    else if totalLines > t.maxLines then Some(ByLines)
    else if totalBytes > t.maxBytes then Some(ByBytes)
    else None
  }

  function WithTotals(t: Truncation, totalLines: nat, totalBytes: nat): Truncation {
    var reason := EffectiveReason(t, totalLines, totalBytes);
    t.(truncated := reason.Some?, truncatedBy := reason, totalLines := totalLines, totalBytes := totalBytes)
  }

  function Report(text: string, maxLines: nat, maxBytes: nat): Truncation {
    WithTotals(Truncate(SnapshotText(text, maxBytes), Keep.Tail, maxLines, maxBytes), TotalLines(text), Size(text))
  }

  /** The report's totals are the stream's: its encoded bytes, and its lines, of which an empty stream has none. */
  predicate TotalsOf(text: string, t: Truncation) {
    t.totalBytes == Size(text) && t.totalLines == if text == "" then 0 else |Split(text)|
  }

  lemma ReportTellsTotals(text: string, maxLines: nat, maxBytes: nat)
    ensures var t := Report(text, maxLines, maxBytes);
            TotalsOf(text, t) && t.keep == Keep.Tail && t.maxLines == maxLines && t.maxBytes == maxBytes
  {
    SplitCount(text);
    TruncateKeepsData(SnapshotText(text, maxBytes), Keep.Tail, maxLines, maxBytes);
    hide Split, Size, Truncate, SnapshotText, CountNewlines;
  }

  // ---------- The accumulator ----------

  datatype OutputSnapshot = OutputSnapshot(content: string, truncation: Truncation)

  datatype AccumulateError = AlreadyFinished

  class OutputAccumulator {
    const maxLines: nat
    const maxBytes: nat
    var tailBuffer: seq<Byte>
    var tailStartsAtLineBoundary: bool
    var totalBytes: nat
    var totalLines: nat
    var finished: bool
    ghost var text: string  // everything decoded so far

    /** Every field is a function of the whole text, however it was cut into pieces. */
    ghost predicate Valid()
      reads this
    {
      var cap := 2 * maxBytes;
      && tailBuffer == Encode(RetainedTail(text, cap))
      && tailStartsAtLineBoundary == StartsLine(text, TailStart(text, cap))
      && totalBytes == Size(text)
      && totalLines == TotalLines(text)
    }

    constructor (maxLines: nat, maxBytes: nat)
      ensures Valid() && !finished && text == ""
      ensures this.maxLines == maxLines && this.maxBytes == maxBytes
    {
      this.maxLines := maxLines;
      this.maxBytes := maxBytes;
      tailBuffer := [];
      tailStartsAtLineBoundary := true;
      totalBytes := 0;
      totalLines := 0;
      finished := false;
      text := "";
    }

    /** Appends one decoded piece; the decoder hands over a chunk's text and keeps split characters. */
    method Accumulate(decoded: string) returns (result: Result<(), AccumulateError>)
      requires Valid()
      modifies this
      ensures Valid() && finished == old(finished)
      ensures result == if finished then Err(AlreadyFinished) else Ok(())
      ensures text == if finished then old(text) else old(text) + decoded
    {
      if finished {
        return Err(AlreadyFinished);
      }
      AppendDecodedText(decoded);
      return Ok(());
    }

    /** The first call appends what the decoder still held; later calls only take a snapshot. */
    method Finish(flushed: string) returns (snapshot: OutputSnapshot)
      requires Valid()
      modifies this
      ensures Valid() && finished
      ensures text == if old(finished) then old(text) else old(text) + flushed
      ensures snapshot.truncation == Report(text, maxLines, maxBytes) && TotalsOf(text, snapshot.truncation)
      ensures snapshot.content == snapshot.truncation.content
    {
      if !finished {
        AppendDecodedText(flushed);
        finished := true;
      }
      snapshot := Snapshot();
    }

    method Snapshot() returns (snapshot: OutputSnapshot)
      requires Valid()
      ensures snapshot.truncation == Report(text, maxLines, maxBytes) && TotalsOf(text, snapshot.truncation)
      ensures snapshot.content == snapshot.truncation.content
    {
      DecodeEncode(RetainedTail(text, 2 * maxBytes));
      ReportTellsTotals(text, maxLines, maxBytes);
      var tailText := Decode(tailBuffer).value;
      hide Decode, Encode, TailStart, TotalsOf;
      var snapshotText := FromLineBoundary(tailText, tailStartsAtLineBoundary);
      var truncation := TruncateText(snapshotText, Keep.Tail, maxLines, maxBytes);
      return OutputSnapshot(truncation.content, WithTotals(truncation, totalLines, totalBytes));
    }

    method AppendDecodedText(piece: string)
      requires Valid()
      modifies this`tailBuffer, this`tailStartsAtLineBoundary, this`totalBytes, this`totalLines, this`text
      ensures Valid() && text == old(text) + piece
    {
      hide Encode, TailStart, StartsLine, RetainedTail, IsBoundaryAtOrAfter, TotalLines, CountNewlines, Size;
      if piece == "" {
        assert text + piece == text;
        return;
      }
      var pieceBytes := Encode(piece);
      EncodeConcat(RetainedTail(text, 2 * maxBytes), piece);
      TotalsIncremental(text, piece);

      totalBytes := totalBytes + |pieceBytes|;
      if totalLines == 0 {
        totalLines := 1;
      }
      totalLines := totalLines + CountNewlines(piece);

      var content := tailBuffer + pieceBytes;
      var start := TrimStart(content, maxBytes * 2);
      TrimmedState(text, piece, 2 * maxBytes, start);
      tailBuffer := content[start..];
      tailStartsAtLineBoundary := if start == 0 then tailStartsAtLineBoundary else content[start - 1] == 0x0A;
      text := text + piece;
    }
  }

  lemma TotalsIncremental(text: string, piece: string)
    requires piece != ""
    ensures Size(text + piece) == Size(text) + |Encode(piece)|
    ensures text == "" <==> TotalLines(text) == 0
    ensures TotalLines(text + piece) == (if text == "" then 1 else TotalLines(text)) + CountNewlines(piece)
  {
    EncodeConcat(text, piece);
    CountNewlinesConcat(text, piece);
  }

  /** `TrimStart` on the encoded window, in terms of its characters. */
  lemma TrimmedWindow(window: string, cap: nat, start: nat)
    requires start <= Size(window)
    requires if Size(window) <= cap then start == 0
             else IsBoundaryAtOrAfter(Encode(window), Size(window) - cap, start)
    ensures var j := TailStart(window, cap);
            && Encode(window)[start..] == Encode(RetainedTail(window, cap))
            && (j == 0 <==> start == 0)
            && (start > 0 ==> (Encode(window)[start - 1] == 0x0A <==> window[j - 1] == '\n'))
  {
    if Size(window) <= cap {
      assert window[0..] == window;
    } else {
      BoundaryIsTailStart(window, cap, start);
    }
  }

  /** Trimming the buffered bytes plus a piece gives the buffer and the flag of the longer text. */
  lemma TrimmedState(text: string, piece: string, cap: nat, start: nat)
    requires var content := Encode(RetainedTail(text, cap) + piece);
             && start <= |content|
             && if |content| <= cap then start == 0 else IsBoundaryAtOrAfter(content, |content| - cap, start)
    ensures var content := Encode(RetainedTail(text, cap) + piece);
            && content[start..] == Encode(RetainedTail(text + piece, cap))
            && (StartsLine(text + piece, TailStart(text + piece, cap))
                <==> if start == 0 then StartsLine(text, TailStart(text, cap)) else content[start - 1] == 0x0A)
  {
    TrimmedWindow(RetainedTail(text, cap) + piece, cap, start);
    TailIncremental(text, piece, cap);
    FlagIncremental(text, piece, cap);
    hide Encode, TailStart, StartsLine, RetainedTail, IsBoundaryAtOrAfter;
  }

  // ---------- A snapshot reports what truncating the whole stream would ----------

  predicate SameReport(a: Truncation, b: Truncation) {
    && a.content == b.content && a.outputLines == b.outputLines && a.outputBytes == b.outputBytes
    && a.edgeLineExceedsLimit == b.edgeLineExceedsLimit && a.truncated == b.truncated
  }

  /** The stream's last line was cut, and what is left of it fits the byte limit by itself. */
  predicate LostLineStart(text: string, maxBytes: nat) {
    var k := TailStart(text, 2 * maxBytes);
    var tail := RetainedTail(text, 2 * maxBytes);
    !StartsLine(text, k) && !HasNewline(tail) && Size(tail) <= maxBytes
  }

  lemma LostLineStartNeedsTinyLimit(text: string, maxBytes: nat)
    ensures LostLineStart(text, maxBytes) ==> maxBytes <= 3
  {
    TailIsLongest(text, 2 * maxBytes);
    hide TailStart, Size;
  }

  function LastLine(text: string): string {
    Split(text)[|Split(text)| - 1]
  }

  lemma {:induction false} SameRunningBytes(before: seq<string>, lines: seq<string>, n: nat)
    requires n <= |lines|
    ensures RunningBytes(before + lines, Keep.Tail, n) == RunningBytes(lines, Keep.Tail, n)
  {
    hide Size;
    if n > 0 {
      SameRunningBytes(before, lines, n - 1);
    }
  }

  lemma {:induction false} SameSelection(before: seq<string>, lines: seq<string>, maxLines: nat, maxBytes: nat, n: nat)
    requires before != [] && n <= |lines|
    requires RunningBytes(before + lines, Keep.Tail, |lines| + 1) > maxBytes
    ensures SelectedFrom(before + lines, Keep.Tail, maxLines, maxBytes, n)
         == SelectedFrom(lines, Keep.Tail, maxLines, maxBytes, n)
    decreases |lines| - n
  {
    hide RunningBytes;
    if n < |lines| {
      SameRunningBytes(before, lines, n + 1);
      SameSelection(before, lines, maxLines, maxBytes, n + 1);
    }
  }

  /** Lines before a suffix do not matter once the line before it is too much for the byte limit. */
  lemma TruncateSuffix(before: string, suffix: string, maxLines: nat, maxBytes: nat)
    requires Size(LastLine(before)) + 1 + Size(suffix) > maxBytes
    ensures var whole := Truncate(before + ("\n" + suffix), Keep.Tail, maxLines, maxBytes);
            var part := Truncate(suffix, Keep.Tail, maxLines, maxBytes);
            && whole.content == part.content && whole.outputLines == part.outputLines
            && whole.outputBytes == part.outputBytes
            && whole.edgeLineExceedsLimit == part.edgeLineExceedsLimit
  {
    hide Split, Size, Truncate, RunningBytes, SelectedFrom, Join;
    var text := before + ("\n" + suffix);
    var pre, lines := Split(before), Split(suffix);
    SplitConcat(before, suffix);
    SuffixBytes(before, suffix);
    SameSelection(pre, lines, maxLines, maxBytes, 0);
    TruncateReportsSelection(text, Keep.Tail, maxLines, maxBytes);
    TruncateReportsSelection(suffix, Keep.Tail, maxLines, maxBytes);
    EdgeFlag(text, Keep.Tail, maxLines, maxBytes);
    EdgeFlag(suffix, Keep.Tail, maxLines, maxBytes);
    SameEdge(pre, lines, Selected(lines, Keep.Tail, maxLines, maxBytes));
  }

  lemma SuffixBytes(before: string, suffix: string)
    ensures var pre, lines := Split(before), Split(suffix);
            RunningBytes(pre + lines, Keep.Tail, |lines| + 1) == Size(LastLine(before)) + 1 + Size(suffix)
  {
    var pre, lines := Split(before), Split(suffix);
    hide Split, Size;
    SameRunningBytes(pre, lines, |lines|);
    RunningBytesAreJoinedBytes(lines, Keep.Tail, |lines|);
    AllLinesAreTheText(suffix, Keep.Tail);
    hide JoinedBytes, EdgeLines;
    assert NextLine(pre + lines, Keep.Tail, |lines|) == LastLine(before);
  }

  lemma SameEdge(pre: seq<string>, lines: seq<string>, n: nat)
    requires lines != [] && n <= |lines|
    ensures EdgeLines(pre + lines, Keep.Tail, n) == EdgeLines(lines, Keep.Tail, n)
    ensures EdgeLine(pre + lines, Keep.Tail) == EdgeLine(lines, Keep.Tail)
  {
  }

  lemma CutBefore(text: string, k: nat)
    requires 0 < k <= |text|
    ensures text[k - 1..] == [text[k - 1]] + text[k..]
    ensures text == text[..k - 1] + ([text[k - 1]] + text[k..])
  {
    HeadTail(text[k - 1..]);
    DropDrop(text, k - 1, 1);
    Cut(text, k - 1);
  }

  lemma ConsNewlineFree(c: char, s: string)
    requires c != '\n' && !HasNewline(s)
    ensures !HasNewline([c] + s)
  {
  }

  /** Where the snapshot starts at a line boundary, and what precedes it. */
  lemma SnapshotAfterNewline(text: string, maxBytes: nat) returns (before: string)
    requires TailStart(text, 2 * maxBytes) > 0
    requires StartsLine(text, TailStart(text, 2 * maxBytes)) || HasNewline(RetainedTail(text, 2 * maxBytes))
    ensures var snapshot := SnapshotText(text, maxBytes);
            text == before + ("\n" + snapshot) && Size(LastLine(before)) + 1 + Size(snapshot) > maxBytes
  {
    hide TailStart, Encode, Split, HasNewline, EncodeChar;
    var k := TailStart(text, 2 * maxBytes);
    TailIsLongest(text, 2 * maxBytes);
    var tail := text[k..];
    CutBefore(text, k);
    if StartsLine(text, k) {
      before := text[..k - 1];
      EncodeConcat("\n", tail);
      SizeSingle('\n');
      NewlineByte();
    } else {
      var i := FirstNewline(tail).value;
      before := LineCutAt(text[..k - 1], text[k - 1], tail, i);
    }
  }

  /** The text before the first newline of the tail, and the bytes of the line that ends there. */
  lemma LineCutAt(start: string, c: char, tail: string, i: nat) returns (before: string)
    requires i < |tail| && tail[i] == '\n' && !HasNewline(tail[..i]) && c != '\n'
    ensures var after := tail[i + 1..];
            && start + ([c] + tail) == before + ("\n" + after)
            && Size(LastLine(before)) + 1 + Size(after) >= Size([c] + tail)
  {
    var line, after := [c] + tail[..i], tail[i + 1..];
    ConsNewlineFree(c, tail[..i]);
    hide Size, LastLine, HasNewline;
    before := start + line;
    Cut(tail, i);
    CutBefore(tail, i + 1);
    Assoc([c], tail[..i], "\n" + after);
    Assoc(start, line, "\n" + after);
    PartialLineBytes(start, line, after);
  }

  lemma LastLineAtLeast(before: string, line: string)
    requires !HasNewline(line)
    ensures Size(LastLine(before + line)) >= Size(line)
  {
    hide Split, Encode, EncodeChar;
    LastLineSuffix(before, line);
    var last := LastLine(before + line);
    EncodeSplit(last, |last| - |line|);
  }

  lemma PartialLineBytes(before: string, line: string, after: string)
    requires !HasNewline(line)
    ensures Size(LastLine(before + line)) + 1 + Size(after) >= Size(line + ("\n" + after))
  {
    hide LastLine, Encode, EncodeChar, HasNewline;
    LastLineAtLeast(before, line);
    EncodeConcat(line, "\n" + after);
    EncodeConcat("\n", after);
    SizeSingle('\n');
    NewlineByte();
  }

  lemma NewlineByte()
    ensures |EncodeChar('\n')| == 1
  {
  }

  /** A stream cut inside its last line: the whole stream's last line is over the limit. */
  lemma SnapshotInsideLastLine(text: string, maxLines: nat, maxBytes: nat)
    requires TailStart(text, 2 * maxBytes) > 0
    requires !StartsLine(text, TailStart(text, 2 * maxBytes)) && !HasNewline(RetainedTail(text, 2 * maxBytes))
    ensures EdgeLineExceedsLimit(Split(text), Keep.Tail, maxBytes)
    ensures SnapshotText(text, maxBytes) == RetainedTail(text, 2 * maxBytes)
  {
    var cap := 2 * maxBytes;
    var k := TailStart(text, cap);
    TailIsLongest(text, cap);
    hide TailStart, Size, Split, HasNewline, FirstNewline;
    CutBefore(text, k);
    ConsNewlineFree(text[k - 1], text[k..]);
    LastLineAtLeast(text[..k - 1], text[k - 1..]);
    FirstNewlineIsNone(text[k..]);
  }

  lemma FirstNewlineIsNone(s: string)
    requires !HasNewline(s)
    ensures FirstNewline(s).None?
  {
  }

  /** With nothing trimmed the snapshot is the text itself. */
  lemma NothingTrimmed(text: string, maxBytes: nat)
    ensures TailStart(text, 2 * maxBytes) == 0 ==> SnapshotText(text, maxBytes) == text
    ensures TailStart(text, 2 * maxBytes) > 0 ==> Size(text) > 2 * maxBytes
  {
    assert text[0..] == text;
  }

  lemma TruncatedFlag(text: string, snapshot: string, maxLines: nat, maxBytes: nat)
    requires Size(text) > maxBytes || snapshot == text
    ensures var t := Truncate(snapshot, Keep.Tail, maxLines, maxBytes);
            WithTotals(t, TotalLines(text), Size(text)).truncated
            == Truncate(text, Keep.Tail, maxLines, maxBytes).truncated
  {
    SplitCount(text);
    hide Split, Size, Selected, CountNewlines;
  }

  /**
   * The snapshot of a stream agrees with truncating the whole stream at once, except when the
   * last line lost its start and what is left of it fits the byte limit.
   */
  lemma SnapshotAgrees(text: string, maxLines: nat, maxBytes: nat)
    ensures SameReport(Report(text, maxLines, maxBytes), Truncate(text, Keep.Tail, maxLines, maxBytes))
       <==> !LostLineStart(text, maxBytes)
    ensures maxBytes >= 4 ==> !LostLineStart(text, maxBytes)
  {
    hide Truncate, TailStart, SnapshotText, TotalLines, Encode, Split, HasNewline;
    var k, tail := TailStart(text, 2 * maxBytes), RetainedTail(text, 2 * maxBytes);
    var snapshot := SnapshotText(text, maxBytes);
    LostLineStartNeedsTinyLimit(text, maxBytes);
    NothingTrimmed(text, maxBytes);
    TruncatedFlag(text, snapshot, maxLines, maxBytes);
    if k == 0 {
    } else if StartsLine(text, k) || HasNewline(tail) {
      var before := SnapshotAfterNewline(text, maxBytes);
      TruncateSuffix(before, snapshot, maxLines, maxBytes);
    } else {
      SnapshotInsideLastLine(text, maxLines, maxBytes);
      OneLineReport(tail, maxLines, maxBytes);
      EdgeFlag(text, Keep.Tail, maxLines, maxBytes);
      OversizedEdgeReport(text, maxLines, maxBytes);
    }
  }

  lemma OneLineReport(line: string, maxLines: nat, maxBytes: nat)
    requires !HasNewline(line)
    ensures var t := Truncate(line, Keep.Tail, maxLines, maxBytes);
            && (t.edgeLineExceedsLimit <==> Size(line) > maxBytes)
            && (Size(line) > maxBytes ==>
                  t.content == "" && t.outputLines == t.outputBytes == 0 && t.truncatedBy == Some(ByBytes))
  {
    SplitLine(line);
    hide Size, Split, Selected;
  }

  lemma OversizedEdgeReport(text: string, maxLines: nat, maxBytes: nat)
    requires EdgeLineExceedsLimit(Split(text), Keep.Tail, maxBytes)
    ensures var t := Truncate(text, Keep.Tail, maxLines, maxBytes);
            && t.content == "" && t.outputLines == t.outputBytes == 0
            && t.edgeLineExceedsLimit && t.truncatedBy == Some(ByBytes)
  {
    EdgeFlag(text, Keep.Tail, maxLines, maxBytes);
    hide Size, Split, Selected;
  }

  // ---------- The reported reason ----------

  /** Whether the whole stream's line total hides that bytes, not lines, cut the output. */
  predicate ReasonMasked(text: string, maxLines: nat, maxBytes: nat) {
    var snapshot := SnapshotText(text, maxBytes);
    && TailStart(text, 2 * maxBytes) > 0
    && maxLines < TotalLines(text)
    && (LostLineStart(text, maxBytes) ||
          (FitsLimits(snapshot, maxLines, maxBytes) && |Split(snapshot)| < maxLines))
  }

  lemma ReasonByBranch(text: string, keep: Keep, maxLines: nat, maxBytes: nat)
    ensures var lines := Split(text);
            Truncate(text, keep, maxLines, maxBytes).truncatedBy
            == if FitsLimits(text, maxLines, maxBytes) then None
               else if EdgeLineExceedsLimit(lines, keep, maxBytes) then Some(ByBytes)
               else Some(StoppedBy(lines, keep, maxLines, maxBytes))
  {
  }

  lemma SuffixReason(before: string, suffix: string, maxLines: nat, maxBytes: nat)
    requires Size(LastLine(before)) + 1 + Size(suffix) > maxBytes
    ensures var whole := Truncate(before + ("\n" + suffix), Keep.Tail, maxLines, maxBytes);
            whole.truncatedBy == if FitsLimits(suffix, maxLines, maxBytes)
                                 then Some(if |Split(suffix)| < maxLines then ByBytes else ByLines)
                                 else Truncate(suffix, Keep.Tail, maxLines, maxBytes).truncatedBy
  {
    hide Truncate, FitsLimits, Split, Size, RunningBytes, SelectedFrom, EdgeLine, LastLine;
    var text := before + ("\n" + suffix);
    var pre, lines := Split(before), Split(suffix);
    SplitConcat(before, suffix);
    SuffixBytes(before, suffix);
    SameSelection(pre, lines, maxLines, maxBytes, 0);
    SameEdge(pre, lines, 0);
    ReasonByBranch(text, Keep.Tail, maxLines, maxBytes);
    ReasonByBranch(suffix, Keep.Tail, maxLines, maxBytes);
    TruncatedPathDropsALine(text, Keep.Tail, maxLines, maxBytes);
    TruncatedPathDropsALine(suffix, Keep.Tail, maxLines, maxBytes);
    OversizedEdgeSelectsNothing(lines, Keep.Tail, maxLines, maxBytes);
  }

  /** The reasons agree exactly when the line total does not mask them. */
  lemma ReasonAgrees(text: string, maxLines: nat, maxBytes: nat)
    ensures Report(text, maxLines, maxBytes).truncatedBy
            == Truncate(text, Keep.Tail, maxLines, maxBytes).truncatedBy
       <==> !ReasonMasked(text, maxLines, maxBytes)
  {
    hide Truncate, TailStart, SnapshotText, Encode, Split, HasNewline, CountNewlines, LastLine;
    var k, tail := TailStart(text, 2 * maxBytes), RetainedTail(text, 2 * maxBytes);
    var snapshot := SnapshotText(text, maxBytes);
    NothingTrimmed(text, maxBytes);
    SplitCount(text);
    FitsIffNoReason(snapshot, maxLines, maxBytes);
    if k == 0 {
    } else if StartsLine(text, k) || HasNewline(tail) {
      var before := SnapshotAfterNewline(text, maxBytes);
      SuffixReason(before, snapshot, maxLines, maxBytes);
      SplitConcat(before, snapshot);
    } else {
      SnapshotInsideLastLine(text, maxLines, maxBytes);
      OneLineReport(tail, maxLines, maxBytes);
      if Size(tail) <= maxBytes {
        OneLineReason(tail, maxLines, maxBytes);
      }
      OversizedEdgeReport(text, maxLines, maxBytes);
    }
  }

  /** One line within the byte limit is only cut by a line limit of 0. */
  lemma OneLineReason(line: string, maxLines: nat, maxBytes: nat)
    requires !HasNewline(line) && Size(line) <= maxBytes
    ensures Truncate(line, Keep.Tail, maxLines, maxBytes).truncatedBy == if maxLines == 0 then Some(ByLines) else None
  {
    SplitLine(line);
    ReasonByBranch(line, Keep.Tail, maxLines, maxBytes);
    StoppedByTellsTheLimit(Split(line), Keep.Tail, maxLines, maxBytes);
    SelectedIsMaximal(Split(line), Keep.Tail, maxLines, maxBytes, 1);
    hide Split, Size, Selected, Truncate;
  }

  lemma FitsIffNoReason(text: string, maxLines: nat, maxBytes: nat)
    ensures Truncate(text, Keep.Tail, maxLines, maxBytes).truncatedBy.None? <==> FitsLimits(text, maxLines, maxBytes)
    ensures Truncate(text, Keep.Tail, maxLines, maxBytes).maxLines == maxLines
    ensures Truncate(text, Keep.Tail, maxLines, maxBytes).maxBytes == maxBytes
  {
  }

  /** With a one-byte limit a stream can report a character that truncation would drop. */
  lemma TinyLimitExample()
    ensures LostLineStart("\U{1F600}a", 1)
    ensures Report("\U{1F600}a", 5, 1).content == "a"
    ensures Truncate("\U{1F600}a", Keep.Tail, 5, 1).content == ""
  {
    var text := "\U{1F600}a";
    EncodeHead(text);
    assert text[1..] == "a";
    EncodeHead("a");
    assert Size("a") == 1 && Size(text) == 5;
    assert TailStart(text, 2) == 1 by { assert TailStart("a", 2) == 0; }
    SplitLine(text);
    SplitLine("a");
  }

  const MASKED: string := "\n\nbb\na"

  lemma MaskedSnapshot()
    ensures TailStart(MASKED, 2) == 4 && RetainedTail(MASKED, 2) == "\na" && Size("a") == 1
  {
    assert MASKED[1..] == "\nbb\na" && "\nbb\na"[1..] == "bb\na";
    assert "bb\na"[1..] == "b\na" && "b\na"[1..] == "\na" && "\na"[1..] == "a";
    assert Size("a") == 1 && Size("\na") == 2 && Size("b\na") == 3 && Size("bb\na") == 4;
    assert Size("\nbb\na") == 5 && Size(MASKED) == 6;
    assert TailStart("\na", 2) == 0 && TailStart("b\na", 2) == 1 && TailStart("bb\na", 2) == 2;
    assert TailStart("\nbb\na", 2) == 3;
    assert MASKED[4..] == "\na";
  }

  lemma MaskedTotal()
    ensures TotalLines(MASKED) == 4 && Split("a") == ["a"]
  {
    assert MASKED == "\n\n" + ("bb" + ("\n" + "a"));
    CountNewlinesConcat("\n\n", "bb" + ("\n" + "a"));
    CountNewlinesConcat("bb", "\n" + "a");
    CountNewlinesConcat("\n", "a");
    CountNewlinesConcat("\n", "\n");
    CountNewlinesConcat("b", "b");
    assert "bb" == "b" + "b" && "\n\n" == "\n" + "\n";
    assert CountNewlines("a") == 0 && CountNewlines("b") == 0 && CountNewlines("\n") == 1;
    SplitLine("a");
  }

  /** The line total of a stream can replace the reason that truncation would give. */
  lemma MaskedReasonExample()
    ensures Report(MASKED, 2, 1).truncatedBy == Some(ByLines)
    ensures Truncate(MASKED, Keep.Tail, 2, 1).truncatedBy == Some(ByBytes)
  {
    MaskedSnapshot();
    MaskedTotal();
    hide TailStart, Encode, CountNewlines, Split, Truncate;
    assert FirstNewline("\na") == Some(0) && "\na"[1..] == "a";
    assert SnapshotText(MASKED, 1) == "a";
    assert MASKED == "\n\nbb" + ("\n" + "a");
    SuffixReason("\n\nbb", "a", 2, 1);
    FitsIffNoReason("a", 2, 1);
  }
}

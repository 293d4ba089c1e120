/** Finding old texts: exact substrings, and windows of fuzzily normalized lines. */
module Matching {
  import opened Wrappers
  import opened Sequences
  import opened Lines

  // ---------- Exact search ----------

  /** `old` stands at position `p`. */
  predicate Occurs(content: string, old_: string, p: nat) {
    p + |old_| <= |content| && content[p..p + |old_|] == old_
  }

  /** The first occurrence at or after `from`, as `str.find` returns it. */
  function Find(content: string, old_: string, from: nat): (p: Option<nat>)
    ensures p.Some? ==> from <= p.value && Occurs(content, old_, p.value)
    ensures p.Some? ==> forall q: nat :: from <= q < p.value ==> !Occurs(content, old_, q)
    ensures p.None? ==> forall q: nat :: from <= q ==> !Occurs(content, old_, q)
    decreases |content| - from
  {
    if from + |old_| > |content| then None
    else if Occurs(content, old_, from) then Some(from)
    else Find(content, old_, from + 1)
  }

  /** The starts the search loop collects: each search goes on behind the last match. */
  function TextStarts(content: string, old_: string, from: nat): seq<nat>
    requires old_ != ""
    decreases |content| - from
  {
    match Find(content, old_, from)
    case None => []
    case Some(p) => [p] + TextStarts(content, old_, p + |old_|)
  }

  method FindTextStarts(content: string, old_: string) returns (starts: seq<nat>)
    requires old_ != ""
    ensures starts == TextStarts(content, old_, 0)
  {
    hide Occurs;
    starts := [];
    var offset := Find(content, old_, 0);
    ghost var from := 0;
    assert [] + TextStarts(content, old_, 0) == TextStarts(content, old_, 0);
    while offset.Some?
      invariant offset == Find(content, old_, from)
      invariant starts + TextStarts(content, old_, from) == TextStarts(content, old_, 0)
      decreases |content| - from
    {
      from := offset.value + |old_|;
      Assoc(starts, [offset.value], TextStarts(content, old_, from));
      starts := starts + [offset.value];
      offset := Find(content, old_, offset.value + |old_|);
    }
    assert starts + [] == starts;
  }

  /** `p` is the only position where the old text occurs, overlapping occurrences included. */
  ghost predicate OccursOnlyAt(content: string, old_: string, p: nat) {
    Occurs(content, old_, p) && forall q: nat :: Occurs(content, old_, q) ==> q == p
  }

  /** The search reports one match exactly when every occurrence starts inside the first one. */
  lemma UniqueStart(content: string, old_: string, p: nat)
    requires old_ != ""
    ensures TextStarts(content, old_, 0) == [p]
       <==> && Occurs(content, old_, p)
            && forall q: nat :: Occurs(content, old_, q) ==> p <= q < p + |old_|
    ensures OccursOnlyAt(content, old_, p) ==> TextStarts(content, old_, 0) == [p]
  {
    hide Occurs;
    var first := Find(content, old_, 0);
    if first.None? {
      assert !Occurs(content, old_, p);
    } else {
      var f := first.value;
      var rest, next := TextStarts(content, old_, f + |old_|), Find(content, old_, f + |old_|);
      Cons(f, rest);
      assert rest == [] <==> next.None?;
      if next.Some? {
        assert Occurs(content, old_, f) && Occurs(content, old_, next.value);
      }
    }
  }

  lemma NoStart(content: string, old_: string)
    requires old_ != ""
    ensures TextStarts(content, old_, 0) == [] <==> forall q: nat :: !Occurs(content, old_, q)
  {
  }

  // ---------- Terminated lines ----------

  function Terminate(parts: seq<string>): seq<string> {
    if parts == [] then [] else [parts[0] + "\n"] + Terminate(parts[1..])
  }

  /** The lines of a text, each with its own trailing newline. */
  function TerminatedLines(text: string): seq<string> {
    LinesOfParts(Split(text))
  }

  function Concat(lines: seq<string>): string {
    if lines == [] then "" else lines[0] + Concat(lines[1..])
  }

  predicate EndsWithNewline(s: string) {
    s != "" && s[|s| - 1] == '\n'
  }

  function LinesOfParts(parts: seq<string>): seq<string>
    requires parts != []
  {
    var lastPart := parts[|parts| - 1];
    Terminate(parts[..|parts| - 1]) + if lastPart != "" then [lastPart] else []
  }

  lemma LinesOfPartsStep(line: string, parts: seq<string>)
    requires parts != []
    ensures LinesOfParts([line] + parts) == [line + "\n"] + LinesOfParts(parts)
  {
    var all, front := [line] + parts, parts[..|parts| - 1];
    assert all[..|all| - 1] == [line] + front;
    Cons(line, front);
    Assoc([line + "\n"], Terminate(front), if parts[|parts| - 1] != "" then [parts[|parts| - 1]] else []);
  }

  lemma LineAndRest(text: string, k: nat)
    requires k < |text| && text[k] == '\n'
    ensures text == text[..k] + ("\n" + text[k + 1..]) && text[..k + 1] == text[..k] + "\n"
  {
    Cut(text, k);
    HeadTail(text[k..]);
    DropDrop(text, k, 1);
  }

  /** The first line with its terminator, and what follows it. */
  lemma TerminatedLinesStep(text: string)
    ensures match FirstNewline(text)
            case None => TerminatedLines(text) == if text == "" then [] else [text]
            case Some(k) => TerminatedLines(text) == [text[..k + 1]] + TerminatedLines(text[k + 1..])
  {
    hide Split, Terminate;
    var first := FirstNewline(text);
    if first.None? {
      SplitLine(text);
      OnePart(text);
    } else {
      var k := first.value;
      LineAndRest(text, k);
      SplitConcat(text[..k], text[k + 1..]);
      SplitLine(text[..k]);
      LinesOfPartsStep(text[..k], Split(text[k + 1..]));
    }
  }

  lemma OnePart(text: string)
    ensures LinesOfParts([text]) == if text == "" then [] else [text]
  {
    assert Terminate([text][..0]) == [];
  }

  /** Each line is nonempty and has no newline but possibly its last character; only the last may lack one. */
  predicate AreLines(lines: seq<string>) {
    && (forall i :: 0 <= i < |lines| ==> lines[i] != "" && !HasNewline(lines[i][..|lines[i]| - 1]))
    && (forall i :: 0 <= i < |lines| - 1 ==> EndsWithNewline(lines[i]))
  }

  lemma {:induction false} TerminatedLinesJoin(text: string)
    ensures Concat(TerminatedLines(text)) == text
    ensures AreLines(TerminatedLines(text))
    decreases |text|
  {
    TerminatedLinesStep(text);
    hide TerminatedLines;
    var first := FirstNewline(text);
    if first.Some? {
      var k := first.value;
      TerminatedLinesJoin(text[k + 1..]);
      var rest := TerminatedLines(text[k + 1..]);
      Cons(text[..k + 1], rest);
      Cut(text, k + 1);
      assert EndsWithNewline(text[..k + 1]);
      assert forall i :: 1 <= i < |rest| + 1 ==> TerminatedLines(text)[i] == rest[i - 1];
    } else if text != "" {
      assert Concat([text]) == text + Concat([text][1..]);
    }
  }

  // ---------- Line offsets ----------

  /** Where line `i` starts. */
  function Offset(lines: seq<string>, i: nat): nat
    requires i <= |lines|
  {
    if i == 0 then 0 else Offset(lines, i - 1) + |lines[i - 1]|
  }

  method LineStartOffsets(lines: seq<string>) returns (offsets: seq<nat>)
    ensures |offsets| == |lines|
    ensures forall i {:trigger offsets[i]} :: 0 <= i < |lines| ==> offsets[i] == Offset(lines, i)
  {
    offsets := [];
    var offset := 0;
    var i := 0;
    while i < |lines|
      invariant 0 <= i <= |lines| && |offsets| == i && offset == Offset(lines, i)
      invariant forall j {:trigger offsets[j]} :: 0 <= j < i ==> offsets[j] == Offset(lines, j)
    {
      offsets := offsets + [offset];
      offset := offset + |lines[i]|;
      i := i + 1;
    }
  }

  lemma {:induction false} OffsetCuts(lines: seq<string>, i: nat)
    requires i <= |lines|
    ensures Offset(lines, i) <= |Concat(lines)|
    ensures Concat(lines)[Offset(lines, i)..] == Concat(lines[i..])
  {
    if i == 0 {
      assert lines[0..] == lines && Concat(lines)[0..] == Concat(lines);
    } else {
      OffsetCuts(lines, i - 1);
      var text, p, line := Concat(lines), Offset(lines, i - 1), lines[i - 1];
      DropDrop(lines, i - 1, 1);
      Parts(line, Concat(lines[i..]));
      assert Concat(lines[i - 1..]) == line + Concat(lines[i..]);
      DropDrop(text, p, |line|);
    }
  }

  lemma {:induction false} ConcatOfBoth(a: seq<string>, b: seq<string>)
    ensures Concat(a + b) == Concat(a) + Concat(b)
    decreases a
  {
    if a == [] {
      assert [] + b == b && "" + Concat(b) == Concat(b);
    } else {
      ConcatTail(a, b);
      ConcatOfBoth(a[1..], b);
      Assoc(a[0], Concat(a[1..]), Concat(b));
    }
  }

  /** The text between two line starts is the lines between them. */
  lemma LinesBetween(lines: seq<string>, i: nat, j: nat)
    requires i <= j <= |lines|
    ensures Offset(lines, i) <= Offset(lines, j) <= |Concat(lines)|
    ensures Concat(lines)[Offset(lines, i)..Offset(lines, j)] == Concat(lines[i..j])
  {
    hide Offset, Concat;
    OffsetCuts(lines, i);
    OffsetCuts(lines, j);
    Cut(lines[i..], j - i);
    TakeOfDrop(lines, i, j);
    DropDrop(lines, i, j - i);
    ConcatOfBoth(lines[i..j], lines[j..]);
    Middle(Concat(lines), Offset(lines, i), Offset(lines, j), Concat(lines[i..j]), Concat(lines[j..]));
  }

  lemma Middle(text: string, p: nat, q: nat, middle: string, after: string)
    requires p <= |text| && q <= |text| && text[p..] == middle + after && text[q..] == after
    ensures p <= q && text[p..q] == middle
  {
    assert |text| - p == |middle| + (|text| - q);
    Parts(middle, after);
    assert text[p..q] == text[p..][..q - p];
  }

  lemma TakeOfDrop(lines: seq<string>, i: nat, j: nat)
    requires i <= j <= |lines|
    ensures lines[i..][..j - i] == lines[i..j]
  {
  }

  lemma {:induction false} OffsetsIncrease(lines: seq<string>, i: nat, j: nat)
    requires i < j <= |lines| && AreLines(lines)
    ensures Offset(lines, i) < Offset(lines, j)
    decreases j
  {
    if i < j - 1 {
      OffsetsIncrease(lines, i, j - 1);
    }
  }

  // ---------- Windows of lines ----------

  predicate LastLineMatches(fileLine: string, oldLine: string) {
    if EndsWithNewline(oldLine) then fileLine == oldLine
    else fileLine == oldLine || fileLine == oldLine + "\n"
  }

  predicate WindowMatchesAt(lines: seq<string>, window: seq<string>, start: nat)
    requires window != [] && start + |window| <= |lines|
  {
    var n := |window| - 1;
    lines[start..start + n] == window[..n] && LastLineMatches(lines[start + n], window[n])
  }

  /** The starts, in order, at or after `from`. */
  function WindowStarts(lines: seq<string>, window: seq<string>, from: nat): seq<nat>
    requires window != []
    decreases |lines| - from
  {
    if from + |window| > |lines| then []
    else (if WindowMatchesAt(lines, window, from) then [from] else []) + WindowStarts(lines, window, from + 1)
  }

  /** The character span of a matched window; an unclaimed final newline stays outside. */
  function WindowCharSpan(lines: seq<string>, startLine: nat, lastLine: nat, oldTerminated: bool): (nat, nat)
    requires startLine <= lastLine < |lines|
  {
    var end := Offset(lines, lastLine) + |lines[lastLine]|;
    (Offset(lines, startLine),
     if !oldTerminated && EndsWithNewline(lines[lastLine]) then end - 1 else end)
  }

  predicate MatchesWithin(lines: seq<string>, window: seq<string>, i: nat)
    requires window != []
  {
    i + |window| <= |lines| && WindowMatchesAt(lines, window, i)
  }

  lemma {:induction false} WindowStartsAre(lines: seq<string>, window: seq<string>, from: nat, i: nat)
    requires window != []
    ensures i in WindowStarts(lines, window, from) <==> from <= i && MatchesWithin(lines, window, i)
    decreases |lines| - from
  {
    if from + |window| <= |lines| {
      var here := if WindowMatchesAt(lines, window, from) then [from] else [];
      var rest := WindowStarts(lines, window, from + 1);
      WindowStartsAre(lines, window, from + 1, i);
      assert WindowStarts(lines, window, from) == here + rest;
      assert i in here <==> i == from && WindowMatchesAt(lines, window, from);
      InConcat(here, rest, i);
    } else {
      assert WindowStarts(lines, window, from) == [];
    }
  }

  lemma {:induction false} SingleWindow(lines: seq<string>, window: seq<string>, from: nat, i: nat)
    requires window != [] && from <= i && MatchesWithin(lines, window, i)
    requires forall j :: from <= j && MatchesWithin(lines, window, j) ==> j == i
    ensures WindowStarts(lines, window, from) == [i]
    decreases |lines| - from
  {
    hide WindowMatchesAt;
    if from < i {
      assert !MatchesWithin(lines, window, from);
      SingleWindow(lines, window, from + 1, i);
      assert [] + [i] == [i];
    } else {
      var rest := WindowStarts(lines, window, from + 1);
      if rest != [] {
        WindowStartsAre(lines, window, from + 1, rest[0]);
        assert false;
      }
      assert [i] + [] == [i];
    }
  }

  // ---------- Window matches are line-aligned occurrences ----------

  predicate EndAligned(content: string, old_: string, p: nat)
    requires Occurs(content, old_, p)
  {
    EndsWithNewline(old_) || p + |old_| == |content| || content[p + |old_|] == '\n'
  }

  /** The old text stands at `p`, starting at a line start and ending at a line end. */
  predicate LineAligned(content: string, old_: string, p: nat) {
    Occurs(content, old_, p) && (p == 0 || content[p - 1] == '\n') && EndAligned(content, old_, p)
  }

  predicate AlignedPrefix(text: string, old_: string) {
    Occurs(text, old_, 0) && EndAligned(text, old_, 0)
  }

  lemma {:induction false} FirstNewlineAt(s: string, k: nat)
    requires k < |s| && s[k] == '\n' && !HasNewline(s[..k])
    ensures FirstNewline(s) == Some(k)
  {
    if k > 0 {
      assert s[0] == s[..k][0];
      assert s[1..][..k - 1] == s[..k][1..];
      FirstNewlineAt(s[1..], k - 1);
    }
  }

  lemma PrefixFirstNewline(text: string, old_: string)
    requires Occurs(text, old_, 0) && FirstNewline(old_).Some?
    ensures FirstNewline(text) == FirstNewline(old_)
  {
    var k := FirstNewline(old_).value;
    assert text[..k] == old_[..k] && text[k] == old_[k];
    FirstNewlineAt(text, k);
  }

  lemma WindowCons(line: string, lines: seq<string>, first: string, window: seq<string>)
    requires window != []
    ensures MatchesWithin([line] + lines, [first] + window, 0)
       <==> line == first && MatchesWithin(lines, window, 0)
  {
    hide LastLineMatches;
    var n := |window| - 1;
    if |window| <= |lines| {
      assert ([line] + lines)[0..0 + n + 1] == [line] + lines[..n];
      assert ([first] + window)[..n + 1] == [first] + window[..n];
      Cons(line, lines[..n]);
      Cons(first, window[..n]);
      assert lines[0..0 + n] == lines[..n];
    }
  }

  lemma OneLineMatches(lines: seq<string>, old_: string)
    ensures MatchesWithin(lines, [old_], 0) <==> lines != [] && LastLineMatches(lines[0], old_)
  {
    hide LastLineMatches;
    if lines != [] {
      assert lines[0..0] == [] && [old_][..0] == [];
    }
  }

  lemma AlignedLineIsMatched(text: string, old_: string)
    requires old_ != "" && !HasNewline(old_[..|old_| - 1]) && AlignedPrefix(text, old_)
    ensures TerminatedLines(text) != [] && LastLineMatches(TerminatedLines(text)[0], old_)
  {
    hide TerminatedLines, FirstNewline;
    TerminatedLinesStep(text);
    var n := |old_|;
    assert text[..n] == old_ && text[..n - 1] == old_[..n - 1] && text[n - 1] == old_[n - 1];
    if EndsWithNewline(old_) {
      FirstNewlineAt(text, n - 1);
    } else if n == |text| {
      assert text == old_;
    } else {
      NewlineFreeSnoc(old_);
      FirstNewlineAt(text, n);
      LineAndRest(text, n);
    }
  }

  lemma NewlineFreeSnoc(s: string)
    requires s != "" && !HasNewline(s[..|s| - 1]) && s[|s| - 1] != '\n'
    ensures !HasNewline(s)
  {
    forall i | 0 <= i < |s| ensures s[i] != '\n' {
      assert i < |s| - 1 ==> s[i] == s[..|s| - 1][i];
    }
  }

  lemma MatchedLineIsAligned(text: string, old_: string)
    requires old_ != ""
    requires TerminatedLines(text) != [] && LastLineMatches(TerminatedLines(text)[0], old_)
    ensures AlignedPrefix(text, old_)
  {
    hide TerminatedLines;
    TerminatedLinesStep(text);
    var line := TerminatedLines(text)[0];
    assert line == text[..|line|];
    if line == old_ + "\n" {
      assert text[|old_|] == line[|old_|] && text[0..0 + |old_|] == line[..|old_|];
    } else {
      assert text[0..0 + |old_|] == line;
    }
  }

  lemma OneLineWindow(text: string, old_: string)
    requires old_ != "" && (FirstNewline(old_).None? || FirstNewline(old_).value == |old_| - 1)
    ensures AlignedPrefix(text, old_) <==> MatchesWithin(TerminatedLines(text), [old_], 0)
  {
    OneLineMatches(TerminatedLines(text), old_);
    hide TerminatedLines, AlignedPrefix, MatchesWithin, LastLineMatches;
    if AlignedPrefix(text, old_) {
      AlignedLineIsMatched(text, old_);
    }
    if TerminatedLines(text) != [] && LastLineMatches(TerminatedLines(text)[0], old_) {
      MatchedLineIsAligned(text, old_);
    }
  }

  /** At the start of a text: a window of its lines matches exactly at an aligned occurrence. */
  lemma {:induction false} WindowIsAlignedPrefix(text: string, old_: string)
    requires old_ != ""
    ensures TerminatedLines(old_) != []
    ensures AlignedPrefix(text, old_) <==> MatchesWithin(TerminatedLines(text), TerminatedLines(old_), 0)
    decreases |old_|
  {
    TerminatedLinesStep(old_);
    hide TerminatedLines, MatchesWithin, AlignedPrefix;
    var first := FirstNewline(old_);
    if first.None? {
      OneLineWindow(text, old_);
    } else if first.value == |old_| - 1 {
      assert old_[..first.value + 1] == old_;
      TerminatedLinesStep("");
      assert old_[first.value + 1..] == "" && [old_] + [] == [old_];
      OneLineWindow(text, old_);
    } else {
      LongWindow(text, old_, first.value);
      if FirstNewline(text) == first {
        WindowIsAlignedPrefix(text[first.value + 1..], old_[first.value + 1..]);
      } else {
        TerminatedNonempty(old_[first.value + 1..]);
      }
    }
  }

  lemma TerminatedNonempty(text: string)
    requires text != ""
    ensures TerminatedLines(text) != []
  {
    TerminatedLinesStep(text);
  }

  /** Peeling the first line off a text and an old text of several lines. */
  lemma LongWindow(text: string, old_: string, k: nat)
    requires FirstNewline(old_) == Some(k) && k < |old_| - 1
    ensures TerminatedLines(old_) == [old_[..k + 1]] + TerminatedLines(old_[k + 1..])
    ensures TerminatedLines(old_[k + 1..]) != []
    ensures FirstNewline(text) != Some(k) ==>
              !AlignedPrefix(text, old_) && !MatchesWithin(TerminatedLines(text), TerminatedLines(old_), 0)
    ensures FirstNewline(text) == Some(k) ==>
              && (AlignedPrefix(text, old_) <==>
                    text[..k + 1] == old_[..k + 1] && AlignedPrefix(text[k + 1..], old_[k + 1..]))
              && (MatchesWithin(TerminatedLines(text), TerminatedLines(old_), 0) <==>
                    && text[..k + 1] == old_[..k + 1]
                    && MatchesWithin(TerminatedLines(text[k + 1..]), TerminatedLines(old_[k + 1..]), 0))
  {
    hide FirstNewline, TerminatedLines, MatchesWithin;
    TerminatedLinesStep(old_);
    TerminatedLinesStep(text);
    TerminatedNonempty(old_[k + 1..]);
    if Occurs(text, old_, 0) {
      PrefixFirstNewline(text, old_);
    }
    var window := TerminatedLines(old_[k + 1..]);
    match FirstNewline(text)
    case None =>
      ShortText(text, old_[..k + 1], window);
    case Some(j) =>
      WindowCons(text[..j + 1], TerminatedLines(text[j + 1..]), old_[..k + 1], window);
      if j == k {
        PrefixPeel(text, old_, k + 1);
      } else {
        assert old_[..k + 1][k] == '\n' && text[..j + 1][j] == '\n';
        assert |text[..j + 1]| != |old_[..k + 1]|;
      }
  }

  lemma ShortText(text: string, first: string, window: seq<string>)
    requires window != []
    ensures !MatchesWithin(if text == "" then [] else [text], [first] + window, 0)
  {
  }

  lemma PrefixPeel(text: string, old_: string, n: nat)
    requires n <= |text| && n < |old_|
    ensures AlignedPrefix(text, old_) <==> text[..n] == old_[..n] && AlignedPrefix(text[n..], old_[n..])
  {
    Cut(old_, n);
    if |old_| <= |text| {
      Cut(text[..|old_|], n);
      TakeTake(text, |old_|, n);
      assert text[..|old_|] == text[0..0 + |old_|];
      assert text[n..][..|old_| - n] == text[n..|old_|] == text[n..][0..0 + |old_[n..]|];
    }
  }

  // ---------- From the start of the text to any line ----------

  lemma {:induction false} OffsetCons(line: string, lines: seq<string>, i: nat)
    requires i <= |lines|
    ensures Offset([line] + lines, i + 1) == |line| + Offset(lines, i)
  {
    if i > 0 {
      OffsetCons(line, lines, i - 1);
    }
  }

  /** Dropping lines is dropping text: the rest of the lines are the lines of the rest. */
  lemma {:induction false} LinesOfRest(text: string, i: nat)
    requires i <= |TerminatedLines(text)|
    ensures var p := Offset(TerminatedLines(text), i);
            p <= |text| && TerminatedLines(text[p..]) == TerminatedLines(text)[i..]
    decreases |text|
  {
    hide TerminatedLines, FirstNewline;
    TerminatedLinesStep(text);
    TerminatedLinesStep("");
    var lines, first := TerminatedLines(text), FirstNewline(text);
    if i == 0 {
      assert text[0..] == text && lines[0..] == lines;
    } else if first.None? {
      assert Offset(lines, 0) == 0 && Offset(lines, 1) == |text| && text[|text|..] == "" && lines[1..] == [];
    } else {
      var k := first.value;
      var rest := text[k + 1..];
      LinesOfRest(rest, i - 1);
      OffsetCons(text[..k + 1], TerminatedLines(rest), i - 1);
      DropDrop(text, k + 1, Offset(TerminatedLines(rest), i - 1));
      Cons(text[..k + 1], TerminatedLines(rest));
      DropDrop(lines, 1, i - 1);
    }
  }

  lemma MatchesWithinShift(lines: seq<string>, window: seq<string>, i: nat)
    requires window != [] && i <= |lines|
    ensures MatchesWithin(lines, window, i) <==> MatchesWithin(lines[i..], window, 0)
  {
    var n := |window| - 1;
    if i + n < |lines| {
      assert lines[i..][0..0 + n] == lines[i..i + n];
    }
  }

  lemma {:induction false} LineStartsAfterNewline(text: string, i: nat)
    requires 0 < i < |TerminatedLines(text)|
    ensures var p := Offset(TerminatedLines(text), i);
            0 < p <= |text| && text[p - 1] == '\n'
  {
    var lines := TerminatedLines(text);
    TerminatedLinesJoin(text);
    OffsetCuts(lines, i - 1);
    OffsetCuts(lines, i);
    hide TerminatedLines;
    var q, line := Offset(lines, i - 1), lines[i - 1];
    Cons(line, lines[i..]);
    DropDrop(lines, i - 1, 1);
    assert text[q..] == line + Concat(lines[i..]);
    assert EndsWithNewline(line) && text[q + |line| - 1] == text[q..][|line| - 1] == line[|line| - 1];
  }

  /** Every position where a line may start is the offset of a line. */
  lemma {:induction false} LineStartIsOffset(text: string, p: nat) returns (i: nat)
    requires p < |text| && (p == 0 || text[p - 1] == '\n')
    ensures i < |TerminatedLines(text)| && Offset(TerminatedLines(text), i) == p
    decreases |text|
  {
    hide TerminatedLines;
    TerminatedLinesStep(text);
    if p == 0 {
      i := 0;
    } else {
      var first := FirstNewline(text);
      assert first.Some? by { assert text[p - 1] == '\n'; }
      var k := first.value;
      assert forall j {:trigger text[j]} :: 0 <= j < k ==> text[j] == text[..k][j];
      var j := LineStartIsOffset(text[k + 1..], p - (k + 1));
      OffsetCons(text[..k + 1], TerminatedLines(text[k + 1..]), j);
      i := j + 1;
    }
  }

  /** A window of lines matches at a line exactly when the old text stands there, line-aligned. */
  lemma WindowMatchIsAlignedOccurrence(content: string, old_: string, i: nat)
    requires old_ != "" && i < |TerminatedLines(content)|
    ensures TerminatedLines(old_) != []
    ensures MatchesWithin(TerminatedLines(content), TerminatedLines(old_), i)
       <==> LineAligned(content, old_, Offset(TerminatedLines(content), i))
  {
    hide TerminatedLines, MatchesWithin;
    var lines := TerminatedLines(content);
    var p := Offset(lines, i);
    LinesOfRest(content, i);
    WindowIsAlignedPrefix(content[p..], old_);
    MatchesWithinShift(lines, TerminatedLines(old_), i);
    if i > 0 {
      LineStartsAfterNewline(content, i);
    }
    hide Offset;
    assert p + |old_| <= |content| ==> content[p..][0..0 + |old_|] == content[p..p + |old_|];
  }

  /** The span of a matching window is the occurrence itself. */
  lemma WindowSpanIsOccurrence(content: string, old_: string, i: nat)
    requires old_ != "" && i < |TerminatedLines(content)|
    ensures TerminatedLines(old_) != []
    ensures var lines, window := TerminatedLines(content), TerminatedLines(old_);
            MatchesWithin(lines, window, i) ==>
              var p := Offset(lines, i);
              && i + |window| <= |lines|
              && WindowCharSpan(lines, i, i + |window| - 1, EndsWithNewline(window[|window| - 1])) == (p, p + |old_|)
  {
    hide TerminatedLines, MatchesWithin, WindowMatchesAt, WindowCharSpan, Offset, EndsWithNewline;
    TerminatedNonempty(old_);
    LengthOfLines(old_);
    var lines, window := TerminatedLines(content), TerminatedLines(old_);
    if MatchesWithin(lines, window, i) {
      SpanOfMatch(lines, window, i);
    }
  }

  lemma SpanOfMatch(lines: seq<string>, window: seq<string>, i: nat)
    requires window != [] && MatchesWithin(lines, window, i)
    ensures i + |window| <= |lines|
    ensures var p := Offset(lines, i);
            WindowCharSpan(lines, i, i + |window| - 1, EndsWithNewline(window[|window| - 1]))
            == (p, p + Offset(window, |window|))
  {
    var n := |window| - 1;
    SameOffsets(lines, window, i, n);
    LastLineLength(lines[i + n], window[n]);
    hide LastLineMatches, EndsWithNewline;
    assert Offset(window, n + 1) == Offset(window, n) + |window[n]|;
  }

  lemma LengthOfLines(text: string)
    ensures Offset(TerminatedLines(text), |TerminatedLines(text)|) == |text|
  {
    var lines := TerminatedLines(text);
    TerminatedLinesJoin(text);
    hide TerminatedLines;
    OffsetCuts(lines, |lines|);
    assert |text[Offset(lines, |lines|)..]| == |Concat(lines[|lines|..])| == 0;
  }

  lemma LastLineLength(fileLine: string, oldLine: string)
    requires LastLineMatches(fileLine, oldLine)
    ensures |fileLine| - (if !EndsWithNewline(oldLine) && EndsWithNewline(fileLine) then 1 else 0) == |oldLine|
  {
  }

  lemma {:induction false} SameOffsets(lines: seq<string>, window: seq<string>, i: nat, n: nat)
    requires n <= |window| && i + n <= |lines| && lines[i..i + n] == window[..n]
    ensures Offset(lines, i + n) == Offset(lines, i) + Offset(window, n)
  {
    if n > 0 {
      assert lines[i..i + n - 1] == lines[i..i + n][..n - 1] && window[..n - 1] == window[..n][..n - 1];
      SameOffsets(lines, window, i, n - 1);
      assert lines[i..i + n][n - 1] == lines[i + n - 1] && window[..n][n - 1] == window[n - 1];
    }
  }

}

/** UTF-8 (RFC 3629, section 3) for texts of Unicode scalar values. */
module Utf8 {
  import opened Sequences
  import opened Wrappers

  type Byte = b: int | 0 <= b < 256

  // The mask test `b & 0xC0 == 0x80`: the two top bits of the byte are 10.
  predicate IsContinuation(b: Byte) {
    b / 64 == 2
  }

  function EncodeChar(c: char): (bytes: seq<Byte>)
    ensures 1 <= |bytes| <= 4
    ensures !IsContinuation(bytes[0])
    ensures forall i :: 1 <= i < |bytes| ==> IsContinuation(bytes[i])
    ensures bytes[|bytes| - 1] == 0x0A <==> c == '\n'
  {
    var n := c as int;
    if n < 0x80 then [n]
    else if n < 0x800 then [0xC0 + n / 64, 0x80 + n % 64]
    else if n < 0x1_0000 then [0xE0 + n / 4096, 0x80 + n / 64 % 64, 0x80 + n % 64]
    else [0xF0 + n / 262144, 0x80 + n / 4096 % 64, 0x80 + n / 64 % 64, 0x80 + n % 64]
  }

  /** The shortest form, by the ranges of RFC 3629, section 3. */
  lemma EncodingIsShortest(c: char)
    ensures var n, len := c as int, |EncodeChar(c)|;
            && (len == 1 <==> n <= 0x7F) && (len == 2 <==> 0x80 <= n <= 0x7FF)
            && (len == 3 <==> 0x800 <= n <= 0xFFFF) && (len == 4 <==> 0x1_0000 <= n <= 0x10_FFFF)
  {
    LengthOfEncoding(c);
  }

  lemma LengthOfEncoding(c: char)
    ensures 0 <= c as int <= 0x10_FFFF
  {
  }

  function Encode(s: string): seq<Byte> {
    if s == "" then [] else EncodeChar(s[0]) + Encode(s[1..])
  }

  function Size(s: string): nat {
    |Encode(s)|
  }

  lemma {:induction false} EncodeConcat(a: string, b: string)
    ensures Encode(a + b) == Encode(a) + Encode(b)
  {
    hide EncodeChar;
    if a == "" {
      assert a + b == b;
    } else {
      ConcatTail(a, b);
      EncodeConcat(a[1..], b);
      Assoc(EncodeChar(a[0]), Encode(a[1..]), Encode(b));
    }
  }

  lemma EncodeSplit(s: string, k: nat)
    requires k <= |s|
    ensures Encode(s) == Encode(s[..k]) + Encode(s[k..])
  {
    hide Encode;
    EncodeConcat(s[..k], s[k..]);
    Cut(s, k);
  }

  lemma SizeSingle(c: char)
    ensures Encode([c]) == EncodeChar(c)
  {
    assert Encode([c][1..]) == [];
  }

  // ---------- Strict decoding ----------

  function SequenceLength(lead: Byte): nat {
    if lead < 0x80 then 1
    else if lead < 0xE0 then 2
    else if lead < 0xF0 then 3
    else 4
  }

  function CodePoint(b: seq<Byte>): int
    requires 1 <= |b| <= 4
  {
    var lead: int := b[0];
    if |b| == 1 then lead
    else if |b| == 2 then (lead - 0xC0) * 64 + Payload(b[1])
    else if |b| == 3 then (lead - 0xE0) * 4096 + Payload(b[1]) * 64 + Payload(b[2])
    else (lead - 0xF0) * 262144 + Payload(b[1]) * 4096 + Payload(b[2]) * 64 + Payload(b[3])
  }

  // The low six bits of a continuation byte (any other byte is rejected by re-encoding).
  function Payload(b: Byte): int {
    var n: int := b;
    n - 0x80
  }

  predicate IsScalar(n: int) {
    0 <= n < 0xD800 || 0xE000 <= n < 0x11_0000
  }

  /** Strict decoding: `None` exactly where a lenient decoder would substitute U+FFFD. */
  function Decode(b: seq<Byte>): Option<string> {
    if b == [] then Some("")
    else
      var len := SequenceLength(b[0]);
      if |b| < len then None
      else
        var n := CodePoint(b[..len]);
        if !IsScalar(n) || EncodeChar(n as char) != b[..len] then None
        else
          match Decode(b[len..])
          case None => None
          case Some(rest) => Some([n as char] + rest)
  }

  lemma SixBitDigits(n: nat)
    ensures n == n / 64 * 64 + n % 64
    ensures n / 64 == n / 4096 * 64 + n / 64 % 64
    ensures n / 4096 == n / 262144 * 64 + n / 4096 % 64
  {
    assert n / 64 / 64 == n / 4096;
    assert n / 4096 / 64 == n / 262144;
  }

  lemma DecodeFirst(c: char)
    ensures SequenceLength(EncodeChar(c)[0]) == |EncodeChar(c)|
    ensures CodePoint(EncodeChar(c)) == c as int
  {
    SixBitDigits(c as int);
  }

  lemma {:induction false} DecodeEncode(s: string)
    ensures Decode(Encode(s)) == Some(s)
  {
    if s != "" {
      var e := EncodeChar(s[0]);
      var b := Encode(s);
      DecodeFirst(s[0]);
      assert b[..|e|] == e && b[|e|..] == Encode(s[1..]);
      DecodeEncode(s[1..]);
      assert s == [s[0]] + s[1..];
    }
  }

  lemma DecodeStep(b: seq<Byte>)
    requires b != [] && Decode(b).Some?
    ensures var len := SequenceLength(b[0]);
            && |b| >= len && Decode(b[len..]).Some?
            && exists c :: EncodeChar(c) == b[..len] && Decode(b).value == [c] + Decode(b[len..]).value
  {
    hide EncodeChar;
    var c := CodePoint(b[..SequenceLength(b[0])]) as char;
    assert EncodeChar(c) == b[..SequenceLength(b[0])];
  }

  /** The decoder accepts nothing but encodings. */
  lemma {:induction false} EncodeDecode(b: seq<Byte>)
    requires Decode(b).Some?
    ensures Encode(Decode(b).value) == b
    decreases |b|
  {
    hide EncodeChar;
    if b != [] {
      DecodeStep(b);
      hide Decode;
      var len := SequenceLength(b[0]);
      var rest := Decode(b[len..]).value;
      var c :| EncodeChar(c) == b[..len] && Decode(b).value == [c] + rest;
      EncodeDecode(b[len..]);
      Cons(c, rest);
      Cut(b, len);
    }
  }
}

/** Splitting text at newlines and joining it again, as `str.split("\n")` and `"\n".join` do. */
module Lines {
  import opened Wrappers
  import opened Sequences

  predicate HasNewline(s: string) {
    '\n' in s
  }

  /** Position of the first newline, as `find("\n")` returns it. */
  function FirstNewline(s: string): (k: Option<nat>)
    ensures k.None? ==> !HasNewline(s)
    ensures k.Some? ==> k.value < |s| && s[k.value] == '\n' && !HasNewline(s[..k.value])
  {
    if s == "" then None
    else if s[0] == '\n' then Some(0)
    else
      match FirstNewline(s[1..])
      case None => None
      case Some(k) => Some(k + 1)
  }

  function Split(s: string): (lines: seq<string>)
    ensures |lines| >= 1
  {
    if s == "" then [""]
    else
      var rest := Split(s[1..]);
      if s[0] == '\n' then [""] + rest else [[s[0]] + rest[0]] + rest[1..]
  }

  function Join(lines: seq<string>): string {
    if lines == [] then ""
    else if |lines| == 1 then lines[0]
    else lines[0] + ("\n" + Join(lines[1..]))
  }

  function CountNewlines(s: string): nat {
    if s == "" then 0 else (if s[0] == '\n' then 1 else 0) + CountNewlines(s[1..])
  }

  predicate NewlineFree(lines: seq<string>) {
    forall i :: 0 <= i < |lines| ==> !HasNewline(lines[i])
  }

  lemma {:induction false} SplitNewlineFree(s: string)
    ensures NewlineFree(Split(s))
  {
    if s != "" {
      SplitNewlineFree(s[1..]);
      var rest := Split(s[1..]);
      if s[0] != '\n' {
        assert !HasNewline(rest[0]);
      }
    }
  }

  lemma JoinCons(line: string, rest: seq<string>)
    requires rest != []
    ensures Join([line] + rest) == line + ("\n" + Join(rest))
  {
    Cons(line, rest);
  }

  lemma JoinPrepend(c: char, lines: seq<string>)
    requires lines != []
    ensures Join([[c] + lines[0]] + lines[1..]) == [c] + Join(lines)
  {
    if |lines| > 1 {
      JoinCons([c] + lines[0], lines[1..]);
      Assoc([c], lines[0], "\n" + Join(lines[1..]));
    }
  }

  lemma {:induction false} JoinSplit(s: string)
    ensures Join(Split(s)) == s
  {
    if s != "" {
      JoinSplit(s[1..]);
      var rest := Split(s[1..]);
      JoinCons("", rest);
      JoinPrepend(s[0], rest);
      HeadTail(s);
      assert "" + ("\n" + s[1..]) == "\n" + s[1..];
    }
  }

  lemma {:induction false} SplitLine(s: string)
    requires !HasNewline(s)
    ensures Split(s) == [s]
  {
    if s != "" {
      SplitLine(s[1..]);
      assert s == [s[0]] + s[1..];
    }
  }

  lemma {:induction false} SplitConcat(a: string, b: string)
    ensures Split(a + ("\n" + b)) == Split(a) + Split(b)
  {
    if a == "" {
      Cons('\n', b);
      assert a + ("\n" + b) == "\n" + b;
    } else {
      var tail := "\n" + b;
      ConcatTail(a, tail);
      SplitConcat(a[1..], b);
      var rest := Split(a[1..]);
      ConcatTail(rest, Split(b));
      Assoc([""], rest, Split(b));
      Assoc([[a[0]] + rest[0]], rest[1..], Split(b));
    }
  }

  lemma {:induction false} SplitJoin(lines: seq<string>)
    requires lines != [] && NewlineFree(lines)
    ensures Split(Join(lines)) == lines
  {
    SplitLine(lines[0]);
    if |lines| > 1 {
      assert NewlineFree(lines[1..]) by {
        forall i | 0 <= i < |lines[1..]| ensures !HasNewline(lines[1..][i]) {
          assert lines[1..][i] == lines[i + 1];
        }
      }
      SplitJoin(lines[1..]);
      SplitConcat(lines[0], Join(lines[1..]));
    }
  }

  lemma {:induction false} JoinConcat(a: seq<string>, b: seq<string>)
    requires a != [] && b != []
    ensures Join(a + b) == Join(a) + ("\n" + Join(b))
  {
    ConcatTail(a, b);
    if |a| == 1 {
      assert a[1..] + b == b;
    } else {
      JoinConcat(a[1..], b);
      Assoc(a[0], "\n" + Join(a[1..]), "\n" + Join(b));
      Assoc("\n", Join(a[1..]), "\n" + Join(b));
    }
  }

  lemma {:induction false} SplitCount(s: string)
    ensures |Split(s)| == 1 + CountNewlines(s)
  {
    if s != "" {
      SplitCount(s[1..]);
    }
  }

  lemma {:induction false} CountNewlinesConcat(a: string, b: string)
    ensures CountNewlines(a + b) == CountNewlines(a) + CountNewlines(b)
  {
    if a == "" {
      assert a + b == b;
    } else {
      CountNewlinesConcat(a[1..], b);
      assert (a + b)[1..] == a[1..] + b;
    }
  }

  /** The last line of a text ends with whatever newline-free text the whole text ends with. */
  lemma {:induction false} LastLineSuffix(a: string, b: string)
    requires !HasNewline(b)
    ensures var last := Split(a + b)[|Split(a + b)| - 1];
            |last| >= |b| && last[|last| - |b|..] == b
  {
    if a == "" {
      assert a + b == b;
      SplitLine(b);
    } else {
      LastLineSuffix(a[1..], b);
      assert (a + b)[1..] == a[1..] + b;
      var rest := Split(a[1..] + b);
      var lines := Split(a + b);
      if a[0] != '\n' && |rest| == 1 {
        assert lines[0] == [a[0]] + rest[0];
      }
    }
  }
}

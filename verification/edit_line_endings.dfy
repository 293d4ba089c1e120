/** Line endings and the byte-order mark of an edited file. */
module LineEndings {
  import opened Wrappers
  import opened Sequences
  import opened Lines

  const BOM: char := '\U{FEFF}'

  datatype LineEnding = Lf | Crlf

  datatype LoadedFile = LoadedFile(hasBom: bool, content: string, lineEnding: LineEnding)

  // ---------- The replacements ----------

  /** Replaces every CRLF by LF, scanning from the left. */
  function CrlfToLf(s: string): string {
    if |s| >= 2 && s[0] == '\r' && s[1] == '\n' then ['\n'] + CrlfToLf(s[2..])
    else if s == "" then ""
    else [s[0]] + CrlfToLf(s[1..])
  }

  function CrToLf(s: string): string {
    if s == "" then "" else [if s[0] == '\r' then '\n' else s[0]] + CrToLf(s[1..])
  }

  function LfToCrlf(s: string): string {
    if s == "" then ""
    else if s[0] == '\n' then ['\r', '\n'] + LfToCrlf(s[1..])
    else [s[0]] + LfToCrlf(s[1..])
  }

  function NormalizeToLf(s: string): string {
    CrToLf(CrlfToLf(s))
  }

  function RestoreLineEndings(s: string, ending: LineEnding): string {
    if ending == Crlf then LfToCrlf(s) else s
  }

  /** Position of the first CRLF pair. */
  function FindCrlf(s: string): (i: Option<nat>)
    ensures i.Some? ==> i.value + 1 < |s|
  {
    if |s| < 2 then None
    else if s[0] == '\r' && s[1] == '\n' then Some(0)
    else
      match FindCrlf(s[1..])
      case None => None
      case Some(i) => Some(i + 1)
  }

  function DetectLineEnding(s: string): LineEnding {
    var crlf, lf := FindCrlf(s), FirstNewline(s);
    if lf.None? || crlf.None? then Lf else if crlf.value < lf.value then Crlf else Lf
  }

  /** In one pass: a CRLF pair, or a CR by itself, becomes one LF; every other character stays. */
  lemma NormalizeInOnePass(c: char, s: string)
    ensures NormalizeToLf("") == ""
    ensures c != '\r' ==> NormalizeToLf([c] + s) == [c] + NormalizeToLf(s)
    ensures NormalizeToLf(['\r', '\n'] + s) == ['\n'] + NormalizeToLf(s)
    ensures (s == "" || s[0] != '\n') ==> NormalizeToLf(['\r'] + s) == ['\n'] + NormalizeToLf(s)
  {
    Cons(c, s);
    Cons('\r', s);
    assert (['\r', '\n'] + s)[2..] == s;
    Cons(c, CrlfToLf(s));
    Cons('\r', CrlfToLf(s));
    Cons('\n', CrlfToLf(s));
  }

  // ---------- Loading and writing ----------

  function LoadFile(raw: string): LoadedFile {
    var hasBom := raw != "" && raw[0] == BOM;
    var content := if hasBom then raw[1..] else raw;
    LoadedFile(hasBom, NormalizeToLf(content), DetectLineEnding(content))
  }

  function WriteLoadedFile(file: LoadedFile, content: string): string {
    (if file.hasBom then [BOM] else "") + RestoreLineEndings(content, file.lineEnding)
  }

  // ---------- Laws ----------

  predicate CrFree(s: string) {
    '\r' !in s
  }

  lemma {:induction false} CrToLfIsCrFree(s: string)
    ensures CrFree(CrToLf(s)) && |CrToLf(s)| == |s|
  {
    if s != "" {
      CrToLfIsCrFree(s[1..]);
    }
  }

  lemma NormalizedIsCrFree(s: string)
    ensures CrFree(NormalizeToLf(s))
    ensures s != "" ==> NormalizeToLf(s) != ""
  {
    CrToLfIsCrFree(CrlfToLf(s));
  }

  lemma {:induction false} NormalizeCrFree(s: string)
    requires CrFree(s)
    ensures NormalizeToLf(s) == s
  {
    if s != "" {
      NormalizeCrFree(s[1..]);
      HeadTail(s);
      Cons(s[0], CrlfToLf(s[1..]));
    }
  }

  lemma {:induction false} NormalizeCrlf(s: string)
    requires CrFree(s)
    ensures CrlfToLf(LfToCrlf(s)) == s && CrToLf(s) == s
  {
    if s != "" {
      NormalizeCrlf(s[1..]);
      HeadTail(s);
      var rest := LfToCrlf(s[1..]);
      if s[0] == '\n' {
        assert (['\r', '\n'] + rest)[2..] == rest;
      } else {
        Cons(s[0], rest);
      }
    }
  }

  /** Normalizing restored text gives the text back under either style. */
  lemma NormalizeRestored(s: string, ending: LineEnding)
    requires CrFree(s)
    ensures NormalizeToLf(RestoreLineEndings(s, ending)) == s
  {
    NormalizeCrlf(s);
    NormalizeCrFree(s);
  }

  /** Every LF ends a CRLF pair and every CR starts one. */
  predicate UniformCrlf(s: string) {
    forall i :: 0 <= i < |s| ==> PairedAt(s, i)
  }

  predicate PairedAt(s: string, i: nat)
    requires i < |s|
  {
    && (s[i] == '\n' ==> i > 0 && s[i - 1] == '\r')
    && (s[i] == '\r' ==> i + 1 < |s| && s[i + 1] == '\n')
  }

  predicate IsCrlfText(s: string) {
    if s == "" then true
    else if s[0] == '\r' then |s| >= 2 && s[1] == '\n' && IsCrlfText(s[2..])
    else s[0] != '\n' && IsCrlfText(s[1..])
  }

  lemma {:induction false} UniformIsCrlfText(s: string)
    ensures UniformCrlf(s) <==> IsCrlfText(s)
  {
    if s != "" {
      assert UniformCrlf(s) ==> PairedAt(s, 0);
      if s[0] == '\r' && |s| >= 2 && s[1] == '\n' {
        UniformIsCrlfText(s[2..]);
        UniformDrop(s, 2);
      } else if s[0] != '\r' && s[0] != '\n' {
        UniformIsCrlfText(s[1..]);
        UniformDrop(s, 1);
      }
    }
  }

  lemma UniformDrop(s: string, k: nat)
    requires (k == 1 && |s| >= 1 && s[0] != '\r' && s[0] != '\n')
          || (k == 2 && |s| >= 2 && s[0] == '\r' && s[1] == '\n')
    ensures UniformCrlf(s) <==> UniformCrlf(s[k..])
  {
    assert forall i :: k <= i < |s| ==> s[i] == s[k..][i - k];
    assert forall i :: 0 <= i < |s| - k ==> s[k..][i] == s[k + i];
    if UniformCrlf(s) {
      forall i | 0 <= i < |s| - k ensures PairedAt(s[k..], i) {
        assert PairedAt(s, k + i);
      }
    }
    if UniformCrlf(s[k..]) {
      forall i | 0 <= i < |s| ensures PairedAt(s, i) {
        if i >= k {
          assert PairedAt(s[k..], i - k);
        }
      }
    }
  }

  lemma {:induction false} RestoredIsCrlfText(s: string)
    requires CrFree(s)
    ensures IsCrlfText(LfToCrlf(s))
  {
    if s != "" {
      RestoredIsCrlfText(s[1..]);
      var rest := LfToCrlf(s[1..]);
      if s[0] == '\n' {
        assert (['\r', '\n'] + rest)[2..] == rest;
      } else {
        Cons(s[0], rest);
      }
    }
  }

  lemma {:induction false} RestoreCrlfText(s: string)
    requires IsCrlfText(s)
    ensures LfToCrlf(CrlfToLf(s)) == s && CrFree(CrlfToLf(s))
  {
    if s != "" {
      if s[0] == '\r' {
        RestoreCrlfText(s[2..]);
        assert s == ['\r', '\n'] + s[2..];
        Cons('\n', CrlfToLf(s[2..]));
      } else {
        RestoreCrlfText(s[1..]);
        HeadTail(s);
        Cons(s[0], CrlfToLf(s[1..]));
      }
    }
  }

  lemma {:induction false} DetectCrlfText(s: string)
    requires IsCrlfText(s)
    ensures FirstNewline(s).None? <==> FindCrlf(s).None?
    ensures FirstNewline(s).Some? ==> FindCrlf(s).value + 1 == FirstNewline(s).value
    ensures FirstNewline(s).None? ==> CrFree(s)
  {
    if s != "" {
      if s[0] == '\r' {
        assert s[1..][0] == '\n';
      } else {
        DetectCrlfText(s[1..]);
        HeadTail(s);
      }
    }
  }

  lemma {:induction false} DetectCrFree(s: string)
    requires CrFree(s)
    ensures FindCrlf(s).None?
  {
    if |s| >= 2 {
      DetectCrFree(s[1..]);
    }
  }

  /**
   * Restoring a file's normalized text in its detected style reproduces the file exactly when it
   * has no CR at all or uses CRLF throughout.
   */
  lemma RestoreIsExactForUniformFiles(s: string)
    ensures RestoreLineEndings(NormalizeToLf(s), DetectLineEnding(s)) == s <==> CrFree(s) || UniformCrlf(s)
  {
    NormalizedIsCrFree(s);
    UniformIsCrlfText(s);
    RestoredIsCrlfText(NormalizeToLf(s));
    if CrFree(s) {
      DetectCrFree(s);
      NormalizeCrFree(s);
    } else if IsCrlfText(s) {
      DetectCrlfText(s);
      RestoreCrlfText(s);
      NormalizeCrlf(CrlfToLf(s));
    }
  }

  lemma {:induction false} FirstCrlfIsFirst(s: string)
    ensures match FindCrlf(s)
            case None => forall i :: 0 <= i < |s| - 1 ==> !(s[i] == '\r' && s[i + 1] == '\n')
            case Some(k) => && s[k] == '\r' && s[k + 1] == '\n'
                            && forall i :: 0 <= i < k ==> !(s[i] == '\r' && s[i + 1] == '\n')
  {
    if |s| >= 2 {
      FirstCrlfIsFirst(s[1..]);
      assert forall i :: 1 <= i < |s| ==> s[i] == s[1..][i - 1];
    }
  }

  lemma NoNewlineBefore(s: string, i: nat)
    requires i <= |s|
    ensures !HasNewline(s[..i]) <==> forall k :: 0 <= k < i ==> s[k] != '\n'
  {
    assert forall k :: 0 <= k < i ==> s[..i][k] == s[k];
  }

  lemma FirstNewlineIsFirst(s: string)
    ensures match FirstNewline(s)
            case None => forall k :: 0 <= k < |s| ==> s[k] != '\n'
            case Some(i) => s[i] == '\n' && forall k :: 0 <= k < i ==> s[k] != '\n'
  {
    hide FirstNewline;
    if FirstNewline(s).Some? {
      NoNewlineBefore(s, FirstNewline(s).value);
    }
  }

  /** The first LF is at `i`, right behind a CR. */
  predicate FirstLfEndsCrlf(s: string, i: nat) {
    0 < i < |s| && s[i] == '\n' && s[i - 1] == '\r' && forall k :: 0 <= k < i ==> s[k] != '\n'
  }

  /** The detected style is that of the first line ending: CRLF exactly when a CR stands right before the first LF. */
  lemma DetectedIsFirst(s: string)
    ensures DetectLineEnding(s) == Crlf
       <==> exists i: nat :: FirstLfEndsCrlf(s, i)
  {
    FirstCrlfIsFirst(s);
    FirstNewlineIsFirst(s);
    hide FindCrlf, FirstNewline;
    if DetectLineEnding(s) == Crlf {
      var i := FirstNewline(s).value;
      assert FindCrlf(s).value + 1 == i;
      assert FirstLfEndsCrlf(s, i);
    }
    forall i: nat | FirstLfEndsCrlf(s, i)
      ensures FirstNewline(s) == Some(i) && FindCrlf(s) == Some(i - 1)
    {
    }
  }

  /** A restored text keeps its style as long as it has a line ending at all. */
  lemma DetectRestored(s: string, ending: LineEnding)
    requires CrFree(s)
    ensures DetectLineEnding(RestoreLineEndings(s, ending)) == if '\n' in s then ending else Lf
  {
    DetectCrFree(s);
    RestoredIsCrlfText(s);
    DetectCrlfText(LfToCrlf(s));
    RestoredHasLf(s);
  }

  lemma {:induction false} RestoredHasLf(s: string)
    ensures FirstNewline(LfToCrlf(s)).Some? <==> '\n' in s
  {
    if s != "" {
      RestoredHasLf(s[1..]);
      HeadTail(s);
      var rest := LfToCrlf(s[1..]);
      if s[0] == '\n' {
        assert LfToCrlf(s)[1..][0] == '\n';
      } else {
        Cons(s[0], rest);
      }
    }
  }

  /**
   * Writing edited text and loading the file again gives that text, in the same style when it has a
   * line ending, exactly when the file had a BOM or the text does not start with one.
   */
  lemma ReloadGivesEditedText(file: LoadedFile, content: string)
    requires CrFree(content)
    ensures var reloaded := LoadFile(WriteLoadedFile(file, content));
            && (reloaded.content == content <==> file.hasBom || content == "" || content[0] != BOM)
            && (reloaded.content == content ==>
                  && reloaded.hasBom == file.hasBom
                  && reloaded.lineEnding == if '\n' in content then file.lineEnding else Lf)
  {
    var restored := RestoreLineEndings(content, file.lineEnding);
    var raw := WriteLoadedFile(file, content);
    NormalizeRestored(content, file.lineEnding);
    DetectRestored(content, file.lineEnding);
    RestoredHead(content, file.lineEnding);
    if file.hasBom {
      Cons(BOM, restored);
    } else {
      assert raw == restored;
      if content != "" && content[0] == BOM {
        assert CrFree(content[1..]);
        NormalizeRestored(content[1..], file.lineEnding);
      }
    }
  }

  lemma RestoredHead(s: string, ending: LineEnding)
    ensures var restored := RestoreLineEndings(s, ending);
            && (s == "" <==> restored == "")
            && (s != "" ==> (restored[0] == BOM <==> s[0] == BOM))
            && (s != "" && s[0] == BOM ==> restored[1..] == RestoreLineEndings(s[1..], ending))
  {
    if s != "" && s[0] == BOM {
      Cons(BOM, LfToCrlf(s[1..]));
    }
  }
}

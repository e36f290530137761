/**
 * `labelFromExitUrl`: the banner text derived from an exit URL. The four
 * regular-expression steps of the script are written out as functions on
 * strings: strip one trailing `.tmj` (any letter case), replace each run of
 * `-`/`_` by a space, replace each run of whitespace by a space, trim.
 */
module ExitLabel {

  /**
   * The characters JavaScript's `\s` and `String.prototype.trim` treat as
   * white space (ECMAScript WhiteSpace and LineTerminator).
   */
  predicate IsWhitespace(c: char)
  {
    c == '\t' || c == '\n' || c == '\U{B}' || c == '\U{C}' || c == '\r' || c == ' ' ||
    c == '\U{A0}' || c == '\U{1680}' || ('\U{2000}' <= c <= '\U{200A}') ||
    c == '\U{2028}' || c == '\U{2029}' || c == '\U{202F}' || c == '\U{205F}' ||
    c == '\U{3000}' || c == '\U{FEFF}'
  }

  /** The class `[-_]`. */
  predicate IsSeparator(c: char)
  {
    c == '-' || c == '_'
  }

  /** ASCII lower-casing: the only case folding `/\.tmj$/i` can apply to `t`, `m`, `j`. */
  function LowerAscii(c: char): char
  {
    if 'A' <= c <= 'Z' then (c as int + 32) as char else c
  }

  /** `/\.tmj$/i` matches: the string ends in `.tmj` in any letter case. */
  predicate HasMapExtension(s: string)
  {
    |s| >= 4 && s[|s| - 4] == '.' && LowerAscii(s[|s| - 3]) == 't' &&
    LowerAscii(s[|s| - 2]) == 'm' && LowerAscii(s[|s| - 1]) == 'j'
  }

  /** `replace(/\.tmj$/i, '')`: one trailing extension is removed, nothing else changes. */
  function StripMapExtension(s: string): (r: string)
    ensures |r| <= |s| && r == s[..|r|]
    ensures HasMapExtension(s) ==> |r| == |s| - 4
    ensures !HasMapExtension(s) ==> r == s
  {
    if HasMapExtension(s) then s[..|s| - 4] else s
  }

  /** The two character classes whose runs the script replaces by a space. */
  datatype CharClass = Separators | Spaces

  predicate InClass(k: CharClass, x: char)
  {
    match k
    case Separators => IsSeparator(x)
    case Spaces => IsWhitespace(x)
  }

  /**
   * The global replacement of the runs of class `k` by one space, from a
   * position where `inRun` says whether the previous character belonged to a
   * run (whose space has then already been written).
   */
  function ReplaceRunsFrom(s: string, k: CharClass, inRun: bool): (r: string)
    ensures |r| <= |s|
  {
    if s == [] then []
    else if InClass(k, s[0]) then
      (if inRun then [] else [' ']) + ReplaceRunsFrom(s[1..], k, true)
    else
      [s[0]] + ReplaceRunsFrom(s[1..], k, false)
  }

  /** `replace(/[-_]+/g, ' ')` and `replace(/\s+/g, ' ')`: each maximal run becomes one space. */
  function ReplaceRuns(s: string, k: CharClass): (r: string)
    ensures r == RunsAsSpaces(s, k)
    ensures CharsFrom(r, s, k) && NoAdjacent(r, k)
  {
    ReplaceRunsMatchesRuns(s, k);
    ReplaceRunsChars(s, k, false);
    ReplaceRunsNoAdjacent(s, k, false);
    ReplaceRunsFrom(s, k, false)
  }

  /** Each class character of `r` is a space; every other one occurs in `s`. */
  predicate CharsFrom(r: string, s: string, k: CharClass)
  {
    forall i :: 0 <= i < |r| ==> r[i] == ' ' || (!InClass(k, r[i]) && r[i] in s)
  }

  /** No two characters of class `k` are adjacent in `r`. */
  predicate NoAdjacent(r: string, k: CharClass)
  {
    forall i :: 0 <= i < |r| - 1 ==> !(InClass(k, r[i]) && InClass(k, r[i + 1]))
  }

  /** The result keeps no character of the class except the spaces it writes. */
  lemma {:induction false} ReplaceRunsChars(s: string, k: CharClass, inRun: bool)
    ensures CharsFrom(ReplaceRunsFrom(s, k, inRun), s, k)
  {
    if s != [] {
      var rest := ReplaceRunsFrom(s[1..], k, InClass(k, s[0]));
      ReplaceRunsChars(s[1..], k, InClass(k, s[0]));
      var r := ReplaceRunsFrom(s, k, inRun);
      var head := r[..|r| - |rest|];
      assert r == head + rest;
      forall i | 0 <= i < |r| ensures r[i] == ' ' || (!InClass(k, r[i]) && r[i] in s) {
        if i < |head| {
          assert head == [' '] || head == [s[0]];
        } else {
          assert r[i] == rest[i - |head|];
          assert r[i] == ' ' || (!InClass(k, r[i]) && r[i] in s[1..]);
        }
      }
    }
  }

  /** No two characters of the class are adjacent in the result; inside a run it starts outside the class. */
  lemma {:induction false} ReplaceRunsNoAdjacent(s: string, k: CharClass, inRun: bool)
    ensures NoAdjacent(ReplaceRunsFrom(s, k, inRun), k)
    ensures inRun && ReplaceRunsFrom(s, k, inRun) != [] ==> !InClass(k, ReplaceRunsFrom(s, k, inRun)[0])
  {
    if s != [] {
      var rest := ReplaceRunsFrom(s[1..], k, InClass(k, s[0]));
      ReplaceRunsNoAdjacent(s[1..], k, InClass(k, s[0]));
      var r := ReplaceRunsFrom(s, k, inRun);
      if |r| > |rest| {
        assert r == [r[0]] + rest;
        assert InClass(k, r[0]) ==> InClass(k, s[0]);
        forall i | 0 <= i < |r| - 1 ensures !(InClass(k, r[i]) && InClass(k, r[i + 1])) {
          if i > 0 {
            assert r[i] == rest[i - 1] && r[i + 1] == rest[i];
          }
        }
      }
    }
  }

  /** The length of the run of class `k` that `s` starts with (0 when it starts outside the class). */
  function RunLength(s: string, k: CharClass): (n: nat)
    ensures n <= |s|
    ensures forall i :: 0 <= i < n ==> InClass(k, s[i])
    ensures n == |s| || !InClass(k, s[n])
  {
    if s != [] && InClass(k, s[0]) then 1 + RunLength(s[1..], k) else 0
  }

  /**
   * The regular expression's reading, stated directly: scanning left to
   * right, a maximal run of class `k` is written as one space and every other
   * character is copied.
   */
  function RunsAsSpaces(s: string, k: CharClass): (r: string)
    decreases |s|
  {
    if s == [] then []
    else if InClass(k, s[0]) then [' '] + RunsAsSpaces(s[RunLength(s, k)..], k)
    else [s[0]] + RunsAsSpaces(s[1..], k)
  }

  /** Inside a run, the scan skips the rest of the run. */
  lemma {:induction false} ReplaceRunsSkipsRun(s: string, k: CharClass)
    ensures ReplaceRunsFrom(s, k, true) == ReplaceRunsFrom(s[RunLength(s, k)..], k, false)
  {
    if s != [] && InClass(k, s[0]) {
      ReplaceRunsSkipsRun(s[1..], k);
      assert s[RunLength(s, k)..] == s[1..][RunLength(s[1..], k)..];
    }
  }

  /** The scan replaces exactly the maximal runs, as the reference reading says. */
  lemma {:induction false} ReplaceRunsMatchesRuns(s: string, k: CharClass)
    ensures ReplaceRunsFrom(s, k, false) == RunsAsSpaces(s, k)
    decreases |s|
  {
    if s != [] {
      if InClass(k, s[0]) {
        ReplaceRunsSkipsRun(s[1..], k);
        assert s[RunLength(s, k)..] == s[1..][RunLength(s[1..], k)..];
        ReplaceRunsMatchesRuns(s[RunLength(s, k)..], k);
      } else {
        ReplaceRunsMatchesRuns(s[1..], k);
      }
    }
  }

  /** The number of white-space characters at the start of `s`. */
  function LeadingWhitespace(s: string): (n: nat)
    ensures n <= |s|
    ensures forall i :: 0 <= i < n ==> IsWhitespace(s[i])
    ensures n == |s| || !IsWhitespace(s[n])
  {
    RunLength(s, Spaces)
  }

  /** `trimStart`. */
  function TrimStart(s: string): (r: string)
    ensures |r| <= |s| && r == s[|s| - |r|..]
    ensures forall i :: 0 <= i < |s| - |r| ==> IsWhitespace(s[i])
    ensures r == [] || !IsWhitespace(r[0])
  {
    s[LeadingWhitespace(s)..]
  }

  /** `trimEnd`. */
  function TrimEnd(s: string): (r: string)
    ensures |r| <= |s| && r == s[..|r|]
    ensures forall i :: |r| <= i < |s| ==> IsWhitespace(s[i])
    ensures r == [] || !IsWhitespace(r[|r| - 1])
  {
    if s != [] && IsWhitespace(s[|s| - 1]) then TrimEnd(s[..|s| - 1]) else s
  }

  /** `trim`: the slice of `s` between its leading and its trailing white space. */
  function Trim(s: string): (r: string)
    ensures LeadingWhitespace(s) + |r| <= |s|
    ensures r == s[LeadingWhitespace(s)..LeadingWhitespace(s) + |r|]
    ensures forall k :: LeadingWhitespace(s) + |r| <= k < |s| ==> IsWhitespace(s[k])
    ensures r == [] || (!IsWhitespace(r[0]) && !IsWhitespace(r[|r| - 1]))
  {
    TrimEnd(TrimStart(s))
  }

  /** No `-` or `_`. */
  predicate NoSeparator(s: string)
  {
    forall i :: 0 <= i < |s| ==> !IsSeparator(s[i])
  }

  /** Every white-space character is a plain space, and no two of them are adjacent. */
  predicate SingleSpaced(s: string)
  {
    (forall i :: 0 <= i < |s| ==> IsWhitespace(s[i]) ==> s[i] == ' ') &&
    (forall i :: 0 <= i < |s| - 1 ==> !(IsWhitespace(s[i]) && IsWhitespace(s[i + 1])))
  }

  /** No white space at either end. */
  predicate Trimmed(s: string)
  {
    s == [] || (!IsWhitespace(s[0]) && !IsWhitespace(s[|s| - 1]))
  }

  /** Collapsing white space introduces no separator and leaves single spaces. */
  lemma CollapseKeepsNoSeparator(s: string)
    requires NoSeparator(s)
    ensures NoSeparator(ReplaceRuns(s, Spaces))
    ensures SingleSpaced(ReplaceRuns(s, Spaces))
  {
    var r := ReplaceRuns(s, Spaces);
    assert forall x :: InClass(Spaces, x) == IsWhitespace(x);
    forall i | 0 <= i < |r| ensures !IsSeparator(r[i]) {
      if r[i] != ' ' {
        var k :| 0 <= k < |s| && s[k] == r[i];
      }
    }
  }

  /** Trimming keeps both properties, since it takes a slice. */
  lemma TrimKeepsClean(s: string)
    requires NoSeparator(s) && SingleSpaced(s)
    ensures NoSeparator(Trim(s)) && SingleSpaced(Trim(s)) && Trimmed(Trim(s))
  {
  }

  /** The three steps after the extension is stripped. */
  function Normalize(s: string): (r: string)
    ensures Trimmed(r) && NoSeparator(r) && SingleSpaced(r)
  {
    var spaced := ReplaceRuns(s, Separators);
    assert forall x :: InClass(Separators, x) == IsSeparator(x);
    CollapseKeepsNoSeparator(spaced);
    TrimKeepsClean(ReplaceRuns(spaced, Spaces));
    Trim(ReplaceRuns(spaced, Spaces))
  }

  /** `labelFromExitUrl`. */
  function Label(exitUrl: string): (r: string)
    ensures Trimmed(r) && NoSeparator(r) && SingleSpaced(r)
  {
    Normalize(StripMapExtension(exitUrl))
  }

  /** A string whose runs are already single spaces is left as it is. */
  lemma {:induction false} ReplaceRunsFixed(s: string, k: CharClass, inRun: bool)
    requires forall i :: 0 <= i < |s| ==> InClass(k, s[i]) ==> s[i] == ' '
    requires forall i :: 0 <= i < |s| - 1 ==> !(InClass(k, s[i]) && InClass(k, s[i + 1]))
    requires inRun ==> s == [] || !InClass(k, s[0])
    ensures ReplaceRunsFrom(s, k, inRun) == s
  {
    if s != [] {
      ReplaceRunsFixed(s[1..], k, InClass(k, s[0]));
    }
  }

  /** A string without white space at either end is its own trim. */
  lemma TrimOfTrimmed(s: string)
    requires Trimmed(s)
    ensures Trim(s) == s
  {
  }

  /** Normalizing a string that is already a clean label changes nothing. */
  lemma NormalizeClean(s: string)
    requires Trimmed(s) && NoSeparator(s) && SingleSpaced(s)
    ensures Normalize(s) == s
  {
    ReplaceRunsFixed(s, Separators, false);
    CollapseClean(s);
  }

  /** Collapsing and trimming a clean label changes nothing. */
  lemma CollapseClean(s: string)
    requires Trimmed(s) && SingleSpaced(s)
    ensures Trim(ReplaceRuns(s, Spaces)) == s
  {
    ReplaceRunsFixed(s, Spaces, false);
    TrimOfTrimmed(s);
  }

  /**
   * Deriving a label from a label gives it back, unless the label itself
   * still ends in `.tmj`, which the second pass strips.
   */
  lemma LabelIdempotent(s: string)
    requires !HasMapExtension(Label(s))
    ensures Label(Label(s)) == Label(s)
  {
    NormalizeClean(Label(s));
  }

  /** A URL whose stem (the URL without its extension) is a clean label has that stem as its label. */
  lemma LabelOfCleanStem(exitUrl: string, stem: string)
    requires StripMapExtension(exitUrl) == stem
    requires Trimmed(stem) && NoSeparator(stem) && SingleSpaced(stem)
    ensures Label(exitUrl) == stem
  {
    NormalizeClean(stem);
  }

  /** A non-empty stretch outside the class passes through unchanged and ends any run. */
  lemma {:induction false} ReplaceRunsPlainPrefix(a: string, b: string, k: CharClass, inRun: bool)
    requires a != []
    requires forall i :: 0 <= i < |a| ==> !InClass(k, a[i])
    ensures ReplaceRunsFrom(a + b, k, inRun) == a + ReplaceRunsFrom(b, k, false)
  {
    assert (a + b)[0] == a[0] && (a + b)[1..] == a[1..] + b;
    if |a| > 1 {
      ReplaceRunsPlainPrefix(a[1..], b, k, false);
    }
  }

  /** The separator step on the tail of the `"Lobby-Area_2.tmj"` example. */
  lemma SpacedTail()
    ensures ReplaceRunsFrom("-Area_2", Separators, false) == " Area 2"
  {
    assert "2"[1..] == "";
    assert ReplaceRunsFrom("2", Separators, true) == "2";
    assert "_2"[1..] == "2";
    assert ReplaceRunsFrom("_2", Separators, false) == " 2";
    ReplaceRunsPlainPrefix("Area", "_2", Separators, true);
    assert "Area" + "_2" == "Area_2";
    assert "-Area_2"[1..] == "Area_2";
  }

  /** The separator step on the `"Lobby-Area_2.tmj"` example. */
  lemma SpacedLobby()
    ensures ReplaceRuns("Lobby-Area_2", Separators) == "Lobby Area 2"
  {
    SpacedTail();
    ReplaceRunsPlainPrefix("Lobby", "-Area_2", Separators, false);
    assert "Lobby" + "-Area_2" == "Lobby-Area_2";
    assert "Lobby" + " Area 2" == "Lobby Area 2";
  }

  /** The `"Lobby-Area_2.tmj"` example: separators become spaces and the extension goes. */
  lemma LabelOfLobby()
    ensures Label("Lobby-Area_2.tmj") == "Lobby Area 2"
  {
    assert "Lobby-Area_2.tmj"[..12] == "Lobby-Area_2";
    assert StripMapExtension("Lobby-Area_2.tmj") == "Lobby-Area_2";
    SpacedLobby();
    LobbyAreaIsClean();
    CollapseClean("Lobby Area 2");
  }

  /** The label of the `"Lobby-Area_2.tmj"` example is already clean. */
  lemma LobbyAreaIsClean()
    ensures Trimmed("Lobby Area 2") && SingleSpaced("Lobby Area 2")
  {
  }

  /** The extension is matched in any letter case. */
  lemma LabelOfUpperCaseExtension()
    ensures Label("simple.TMJ") == "simple"
  {
    assert "simple.TMJ"[..6] == "simple";
    LabelOfCleanStem("simple.TMJ", "simple");
  }

  /** An empty URL, or a bare extension, gives an empty label. */
  lemma EmptyLabels()
    ensures Label("") == ""
    ensures Label(".tmj") == ""
  {
    LabelOfCleanStem("", "");
    assert ".tmj"[..0] == "";
    LabelOfCleanStem(".tmj", "");
  }

  /** A URL made only of separators gives an empty label. */
  lemma SeparatorsOnlyLabel()
    ensures Label("--") == ""
  {
    assert ReplaceRuns("--", Separators) == " ";
    assert ReplaceRuns(" ", Spaces) == " ";
    assert Trim(" ") == "";
  }

  /** Only one trailing extension is stripped. */
  lemma LabelStripsOneExtension()
    ensures Label("a.tmj.tmj") == "a.tmj"
  {
    assert "a.tmj.tmj"[..5] == "a.tmj";
    LabelOfCleanStem("a.tmj.tmj", "a.tmj");
  }

  /** One extension is stripped from `"a.tmj"`. */
  lemma LabelOfSingleExtension()
    ensures Label("a.tmj") == "a"
  {
    assert "a.tmj"[..1] == "a";
    LabelOfCleanStem("a.tmj", "a");
  }

  /** So a second pass can change a label: the label function is not idempotent. */
  lemma LabelNotIdempotent()
    ensures Label(Label("a.tmj.tmj")) != Label("a.tmj.tmj")
  {
    LabelStripsOneExtension();
    LabelOfSingleExtension();
  }
}

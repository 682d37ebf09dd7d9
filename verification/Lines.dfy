/**
 Laws about texts read line by line: where a pattern without line breaks can
 occur, how often it occurs, and which trimmed lines a text holds.
 */
module Lines {
  import opened Text

  // ----- Occurrences of a pattern that stays within one line -----

  predicate InLine(pat: string) {
    pat != [] && '\n' !in pat
  }

  function Count(t: string, pat: string): nat {
    if t == [] then 0 else (if Occurs(t, pat, 0) then 1 else 0) + Count(t[1..], pat)
  }

  lemma {:induction false} CountZero(t: string, pat: string)
    requires pat != []
    ensures Count(t, pat) == 0 <==> Index(t, pat) < 0
  {
    if t != [] {
      CountZero(t[1..], pat);
      assert t[..1] + t[1..] == t;
      forall j | j >= 1 ensures Occurs(t, pat, j) <==> Occurs(t[1..], pat, j - 1) {
        OccursSuffix(t[..1], t[1..], pat, j - 1);
      }
      if Index(t[1..], pat) >= 0 {
        assert Occurs(t, pat, Index(t[1..], pat) + 1);
      }
    }
  }

  lemma OccursHead(a: string, b: string, pat: string)
    requires InLine(pat)
    ensures Occurs(a + "\n" + b, pat, 0) <==> Occurs(a, pat, 0)
  {
    var t := a + "\n" + b;
    if |pat| <= |a| {
      OccursPrefix(a, "\n" + b, pat, 0);
      assert t == a + ("\n" + b);
    } else {
      OccursChar(t, pat, 0, |a|);
      assert t[|a|] == '\n' && pat[|a|] in pat;
    }
  }

  /** A line break separates the occurrences. */
  lemma {:induction false} CountBreak(a: string, b: string, pat: string)
    requires InLine(pat)
    ensures Count(a + "\n" + b, pat) == Count(a, pat) + Count(b, pat)
    decreases |a|
  {
    OccursHead(a, b, pat);
    var t := a + "\n" + b;
    if a == [] {
      assert t[1..] == b;
    } else {
      assert t[1..] == a[1..] + "\n" + b;
      CountBreak(a[1..], b, pat);
    }
  }

  /** Characters that cannot start the pattern do not matter in front. */
  lemma {:induction false} CountSkip(w: string, b: string, pat: string)
    requires pat != [] && pat[0] !in w
    ensures Count(w + b, pat) == Count(b, pat)
    decreases |w|
  {
    if w == [] {
      assert w + b == b;
    } else {
      var t := w + b;
      OccursChar(t, pat, 0, 0);
      assert t[1..] == w[1..] + b && t[0] == w[0] && w[0] in w;
      CountSkip(w[1..], b, pat);
    }
  }

  /** Characters that the pattern does not hold do not matter at the end. */
  lemma {:induction false} CountPad(a: string, w: string, pat: string)
    requires pat != [] && forall c :: c in w ==> c !in pat
    ensures Count(a + w, pat) == Count(a, pat)
    decreases |a|
  {
    if a == [] {
      assert a + w == w && w + [] == w;
      assert pat[0] !in w by { assert pat[0] in pat; }
      CountSkip(w, [], pat);
    } else {
      assert (a + w)[1..] == a[1..] + w;
      CountPad(a[1..], w, pat);
      if |pat| <= |a| {
        OccursPrefix(a, w, pat, 0);
      } else if |pat| <= |a + w| {
        OccursChar(a + w, pat, 0, |a|);
        assert (a + w)[|a|] == w[0] && w[0] in w && pat[|a|] in pat;
      }
    }
  }

  lemma {:induction false} CountSuffix(a: string, b: string, pat: string)
    ensures Count(a + b, pat) >= Count(b, pat)
    ensures a != [] && Occurs(a + b, pat, 0) ==> Count(a + b, pat) > Count(b, pat)
    decreases |a|
  {
    if a == [] {
      assert a + b == b;
    } else {
      assert (a + b)[1..] == a[1..] + b;
      CountSuffix(a[1..], b, pat);
    }
  }

  lemma FreePrefix(a: string, b: string, pat: string)
    requires Index(a + b, pat) < 0
    ensures Index(a, pat) < 0
  {
    forall j ensures !Occurs(a, pat, j) {
      if j + |pat| <= |a| { OccursPrefix(a, b, pat, j); }
    }
  }

  /** A line free of the pattern does not hide its first occurrence after it. */
  lemma CleanBeforeBreak(a: string, b: string, pat: string)
    requires InLine(pat) && Index(a, pat) < 0 && CleanBefore(b, pat)
    ensures CleanBefore(a + "\n" + b, pat)
  {
    var ab := a + "\n" + b;
    Assoc(a + "\n", b, pat);
    OccursSuffix(ab, pat, pat, 0);
    NothingBefore(a, b + pat, pat, |b|);
    FirstAt(ab + pat, pat, |ab|);
  }

  lemma NothingBefore(a: string, b: string, pat: string, n: nat)
    requires InLine(pat) && Index(a, pat) < 0 && forall j :: 0 <= j < n ==> !Occurs(b, pat, j)
    ensures forall j :: 0 <= j < |a| + 1 + n ==> !Occurs(a + "\n" + b, pat, j)
  {
    forall j | 0 <= j < |a| + 1 + n ensures !Occurs(a + "\n" + b, pat, j) {
      OccursBreak(a, b, pat, j);
    }
  }

  lemma OccursBreak(a: string, b: string, pat: string, j: int)
    requires InLine(pat) && j >= 0
    ensures Occurs(a + "\n" + b, pat, j) ==> Occurs(a, pat, j) || (j > |a| && Occurs(b, pat, j - |a| - 1))
  {
    var t := a + "\n" + b;
    if j > |a| {
      OccursSuffix(a + "\n", b, pat, j - |a| - 1);
    } else if j + |pat| <= |a| {
      OccursPrefix(a, "\n" + b, pat, j);
      assert t == a + ("\n" + b);
    } else if j + |pat| <= |t| {
      var i := |a| - j;
      OccursChar(t, pat, j, i);
      assert t[j + i] == '\n' && pat[i] in pat;
    }
  }

  /** How often the pattern occurs in these lines. */
  function LineCount(lines: seq<string>, pat: string): nat {
    if lines == [] then 0 else Count(lines[0], pat) + LineCount(lines[1..], pat)
  }

  lemma {:induction false} LineCountConcat(a: seq<string>, b: seq<string>, pat: string)
    ensures LineCount(a + b, pat) == LineCount(a, pat) + LineCount(b, pat)
    decreases |a|
  {
    if a == [] {
      assert a + b == b;
    } else {
      assert (a + b)[0] == a[0] && (a + b)[1..] == a[1..] + b;
      LineCountConcat(a[1..], b, pat);
    }
  }

  lemma {:induction false} JoinCount(lines: seq<string>, pat: string)
    requires InLine(pat)
    ensures Count(Join(lines, "\n"), pat) == LineCount(lines, pat)
  {
    if |lines| == 1 {
      assert lines[1..] == [];
    } else if |lines| > 1 {
      JoinCount(lines[1..], pat);
      CountBreak(lines[0], Join(lines[1..], "\n"), pat);
    }
  }

  // ----- Trimmed lines -----

  /** The non-blank lines of a list, trimmed. */
  function Trimmed(lines: seq<string>): seq<string> {
    if lines == [] then []
    else (if TrimSpace(lines[0]) == "" then [] else [TrimSpace(lines[0])]) + Trimmed(lines[1..])
  }

  function TrimmedLines(t: string): seq<string> {
    Trimmed(Split(t, "\n"))
  }

  lemma {:induction false} TrimmedConcat(a: seq<string>, b: seq<string>)
    ensures Trimmed(a + b) == Trimmed(a) + Trimmed(b)
    decreases |a|
  {
    if a == [] {
      assert a + b == b && Trimmed(a) + Trimmed(b) == Trimmed(b);
    } else {
      assert (a + b)[0] == a[0] && (a + b)[1..] == a[1..] + b;
      TrimmedConcat(a[1..], b);
      Assoc(if TrimSpace(a[0]) == "" then [] else [TrimSpace(a[0])], Trimmed(a[1..]), Trimmed(b));
    }
  }

  lemma {:induction false} SplitBreak(a: string, b: string)
    ensures Split(a + "\n" + b, "\n") == Split(a, "\n") + Split(b, "\n")
    decreases |a|
  {
    if Index(a, "\n") < 0 {
      FreeIsCleanBefore(a, "\n");
      SplitOff(a, "\n", b);
    } else {
      var part, rest := FirstBreak(a);
      FreeIsCleanBefore(part, "\n");
      SplitOff(part, "\n", rest);
      SplitOff(part, "\n", rest + "\n" + b);
      assert a + "\n" + b == part + "\n" + (rest + "\n" + b);
      SplitBreak(rest, b);
      Assoc([part], Split(rest, "\n"), Split(b, "\n"));
    }
  }

  lemma LinesBreak(a: string, b: string)
    ensures TrimmedLines(a + "\n" + b) == TrimmedLines(a) + TrimmedLines(b)
  {
    SplitBreak(a, b);
    TrimmedConcat(Split(a, "\n"), Split(b, "\n"));
  }

  lemma LinesOfBlank()
    ensures TrimmedLines("") == []
  {
    assert Split("", "\n") == [""];
    assert TrimSpace("") == "";
    assert [""][1..] == [];
  }

  lemma LinesOfOne(line: string)
    requires Index(line, "\n") < 0
    ensures TrimmedLines(line) == if TrimSpace(line) == "" then [] else [TrimSpace(line)]
  {
    assert Split(line, "\n") == [line] && [line][1..] == [];
    assert Trimmed([line][1..]) == [];
  }

  lemma TrimPadOne(c: char, s: string)
    requires IsSpace(c)
    ensures TrimSpace([c] + s) == TrimSpace(s) == TrimSpace(s + [c])
  {
    TrimSpacePad([c], s, []);
    TrimSpacePad([], s, [c]);
    assert [c] + s + [] == [c] + s && [] + s + [c] == s + [c];
  }

  lemma FreeOne(c: char, s: string)
    requires c != '\n' && Index(s, "\n") < 0
    ensures Index([c] + s, "\n") < 0 && Index(s + [c], "\n") < 0
  {
    FreeIsCleanBefore(s, "\n");
    CleanPart([c] + s, "\n");
    CleanPart(s + [c], "\n");
  }

  lemma LinesNewline(t: string)
    ensures TrimmedLines("\n" + t) == TrimmedLines(t) == TrimmedLines(t + "\n")
  {
    LinesBreak("", t);
    LinesBreak(t, "");
    LinesOfBlank();
    assert "\n" + t == "" + "\n" + t && t + "\n" == t + "\n" + "";
  }

  lemma LinesPadOne(c: char, line: string)
    requires IsSpace(c) && c != '\n' && Index(line, "\n") < 0
    ensures TrimmedLines([c] + line) == TrimmedLines(line) == TrimmedLines(line + [c])
  {
    FreeOne(c, line);
    TrimPadOne(c, line);
    LinesOfOne(line);
    LinesOfOne([c] + line);
    LinesOfOne(line + [c]);
  }

  /** A text up to and after its first line break. */
  lemma FirstBreak(t: string) returns (part: string, rest: string)
    requires Index(t, "\n") >= 0
    ensures t == part + "\n" + rest && Index(part, "\n") < 0
  {
    var k := Index(t, "\n");
    part, rest := t[..k], t[k + 1..];
    assert t == part + "\n" + rest;
    IndexAfterPart(part, "\n", rest);
    CleanBeforeIsFree(part, "\n");
  }

  /** White space in front of a text never shows in its trimmed lines. */
  lemma LinesPrepend(c: char, t: string)
    requires IsSpace(c)
    ensures TrimmedLines([c] + t) == TrimmedLines(t)
  {
    if c == '\n' {
      LinesNewline(t);
    } else if Index(t, "\n") < 0 {
      LinesPadOne(c, t);
    } else {
      var part, rest := FirstBreak(t);
      LinesPadOne(c, part);
      LinesBreak(part, rest);
      LinesBreak([c] + part, rest);
      assert [c] + t == [c] + part + "\n" + rest;
    }
  }

  lemma {:induction false} LinesAppend(t: string, c: char)
    requires IsSpace(c)
    ensures TrimmedLines(t + [c]) == TrimmedLines(t)
    decreases |t|
  {
    if c == '\n' {
      LinesNewline(t);
    } else if Index(t, "\n") < 0 {
      LinesPadOne(c, t);
    } else {
      var part, rest := FirstBreak(t);
      LinesAppend(rest, c);
      LinesBreak(part, rest);
      LinesBreak(part, rest + [c]);
      assert t + [c] == part + "\n" + (rest + [c]);
    }
  }

  lemma {:induction false} LinesPadLeft(w: string, t: string)
    requires AllCut(w, Space)
    ensures TrimmedLines(w + t) == TrimmedLines(t)
    decreases |w|
  {
    if w == [] {
      assert w + t == t;
    } else {
      assert w + t == [w[0]] + (w[1..] + t);
      LinesPrepend(w[0], w[1..] + t);
      LinesPadLeft(w[1..], t);
    }
  }

  lemma {:induction false} LinesPadRight(t: string, w: string)
    requires AllCut(w, Space)
    ensures TrimmedLines(t + w) == TrimmedLines(t)
    decreases |w|
  {
    if w == [] {
      assert t + w == t;
    } else {
      assert t + w == (t + [w[0]]) + w[1..];
      LinesPadRight(t + [w[0]], w[1..]);
      LinesAppend(t, w[0]);
    }
  }

  lemma LineBreaksAreSpace(w: string)
    requires AllCut(w, LineBreak)
    ensures AllCut(w, Space)
  {
    assert IsSpace('\r') && IsSpace('\n');
  }

  lemma LinesTrimRight(t: string)
    ensures TrimmedLines(TrimRight(t, LineBreak)) == TrimmedLines(t)
  {
    var w := TrimRightSplits(t, LineBreak);
    LineBreaksAreSpace(w);
    LinesPadRight(TrimRight(t, LineBreak), w);
  }

  lemma LinesTrimLeft(t: string)
    ensures TrimmedLines(TrimLeft(t, LineBreak)) == TrimmedLines(t)
  {
    var w := TrimLeftSplits(t, LineBreak);
    LineBreaksAreSpace(w);
    LinesPadLeft(w, TrimLeft(t, LineBreak));
  }

  lemma {:induction false} TrimmedMembers(lines: seq<string>, x: string)
    ensures x in Trimmed(lines) <==> x != "" && exists i :: 0 <= i < |lines| && TrimSpace(lines[i]) == x
  {
    if lines != [] {
      TrimmedMembers(lines[1..], x);
      assert forall i :: 1 <= i < |lines| ==> lines[i] == lines[1..][i - 1];
      assert forall i :: 0 <= i < |lines| - 1 ==> lines[1..][i] == lines[i + 1];
    }
  }
}

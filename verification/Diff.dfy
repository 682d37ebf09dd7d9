/**
 Diff compression (internal/compress/native_structured.go): header, hunk, added
 and removed lines stay, the context between them shrinks to a counting marker.
 A gap of exactly one context line leaves no marker, so compressing a second time
 forgets the markers of the first: the last theorems say exactly when that shows.
 */
module Diff {
  import opened Text

  /** keepDiffLine. */
  predicate Keep(line: string) {
    || "diff --git " <= line || "index " <= line || "--- " <= line || "+++ " <= line
    || "@@ " <= line || "+" <= line || "-" <= line
  }

  /** A line that is neither kept nor blank. */
  predicate Context(line: string) {
    !Keep(line) && TrimSpace(line) != ""
  }

  function Omitted(n: nat): string {
    "[" + Dec(n) + " diff context lines omitted]"
  }

  function Flush(omitted: nat): seq<string> {
    if omitted > 1 then [Omitted(omitted)] else []
  }

  /** The output for `lines` when `omitted` context lines are pending. */
  function Scan(lines: seq<string>, omitted: nat): seq<string> {
    if lines == [] then Flush(omitted)
    else if Keep(lines[0]) then Flush(omitted) + ([lines[0]] + Scan(lines[1..], 0))
    else if Context(lines[0]) then Scan(lines[1..], omitted + 1)
    else Scan(lines[1..], omitted)
  }

  function CompressDiff(text: string): string {
    Join(Scan(Split(text, "\n"), 0), "\n")
  }

  /** The scanning loop of compressDiff. */
  method CompressDiffLines(lines: seq<string>) returns (compressed: seq<string>)
    ensures compressed == Scan(lines, 0)
  {
    compressed := [];
    var omitted := 0;
    ghost var goal := Scan(lines, 0);
    for i := 0 to |lines|
      invariant omitted >= 0
      invariant compressed + Scan(lines[i..], omitted) == goal
    {
      var line := lines[i];
      assert lines[i..][0] == line && lines[i..][1..] == lines[i + 1..];
      if Keep(line) {
        Assoc(compressed, Flush(omitted), [line] + Scan(lines[i + 1..], 0));
        Assoc(compressed + Flush(omitted), [line], Scan(lines[i + 1..], 0));
        compressed := FlushOmitted(compressed, omitted);
        omitted := 0;
        compressed := compressed + [line];
        continue;
      }
      if TrimSpace(line) == "" {
        continue;
      }
      omitted := omitted + 1;
    }
    compressed := FlushOmitted(compressed, omitted);
  }

  method FlushOmitted(compressed: seq<string>, omitted: nat) returns (flushed: seq<string>)
    ensures flushed == compressed + Flush(omitted)
  {
    flushed := compressed;
    if omitted > 0 {
      if omitted > 1 {
        flushed := flushed + [Omitted(omitted)];
      }
    }
  }

  // ----- What is kept and what is counted -----

  function Kept(lines: seq<string>): seq<string> {
    if lines == [] then []
    else if Keep(lines[0]) then [lines[0]] + Kept(lines[1..])
    else Kept(lines[1..])
  }

  function ContextCount(lines: seq<string>): nat {
    if lines == [] then 0 else (if Context(lines[0]) then 1 else 0) + ContextCount(lines[1..])
  }

  /** A stretch between kept lines. */
  predicate Gap(lines: seq<string>) {
    forall i :: 0 <= i < |lines| ==> !Keep(lines[i])
  }

  lemma OmittedShape(n: nat)
    ensures !Keep(Omitted(n)) && '\n' !in Omitted(n) && Omitted(n) != ""
  {
    var m := Omitted(n);
    assert m[0] == '[';
    assert forall i :: 0 <= i < |Dec(n)| ==> IsDigit(Dec(n)[i]);
    assert '\n' !in "[" && '\n' !in " diff context lines omitted]";
  }

  lemma {:induction false} ScanGap(gap: seq<string>, rest: seq<string>, omitted: nat)
    requires Gap(gap)
    ensures Scan(gap + rest, omitted) == Scan(rest, omitted + ContextCount(gap))
    decreases |gap|
  {
    if gap == [] {
      assert gap + rest == rest;
    } else {
      var l := gap + rest;
      assert l[0] == gap[0] && l[1..] == gap[1..] + rest;
      ScanGap(gap[1..], rest, if Context(gap[0]) then omitted + 1 else omitted);
    }
  }

  /** Each kept line is preceded by one marker that counts the non-blank context
      lines of its gap, or by none when there are fewer than two. */
  lemma GapIsCounted(gap: seq<string>, line: string, rest: seq<string>)
    requires Gap(gap) && Keep(line)
    ensures Scan(gap + ([line] + rest), 0) == Flush(ContextCount(gap)) + ([line] + Scan(rest, 0))
    ensures Scan(gap, 0) == Flush(ContextCount(gap))
  {
    ScanGap(gap, [line] + rest, 0);
    ConsDrop(line, rest);
    ScanGap(gap, [], 0);
    assert gap + [] == gap;
  }

  lemma {:induction false} KeptConcat(a: seq<string>, b: seq<string>)
    ensures Kept(a + b) == Kept(a) + Kept(b)
    decreases |a|
  {
    if a == [] {
      assert a + b == b && Kept(a) + Kept(b) == Kept(b);
    } else {
      var l := a + b;
      assert l[0] == a[0] && l[1..] == a[1..] + b;
      KeptConcat(a[1..], b);
      Assoc([a[0]], Kept(a[1..]), Kept(b));
    }
  }

  lemma FlushIsGap(omitted: nat)
    ensures Gap(Flush(omitted)) && Kept(Flush(omitted)) == [] && ContextCount(Flush(omitted)) <= 1
  {
    OmittedShape(omitted);
  }

  /** Every header, hunk, added and removed line survives, in order. */
  lemma {:induction false} KeptSurvives(lines: seq<string>, omitted: nat)
    ensures Kept(Scan(lines, omitted)) == Kept(lines)
    decreases |lines|
  {
    FlushIsGap(omitted);
    if lines == [] {
    } else if Keep(lines[0]) {
      var rest := Scan(lines[1..], 0);
      KeptSurvives(lines[1..], 0);
      KeptConcat(Flush(omitted), [lines[0]] + rest);
      ConsDrop(lines[0], rest);
    } else {
      KeptSurvives(lines[1..], if Context(lines[0]) then omitted + 1 else omitted);
    }
  }

  /** The number of lines never grows. */
  lemma {:induction false} ScanNoLonger(lines: seq<string>, omitted: nat)
    ensures |Scan(lines, omitted)| <= |lines| + (if omitted > 1 then 1 else 0)
    decreases |lines|
  {
    if lines != [] {
      ScanNoLonger(lines[1..], if Keep(lines[0]) then 0 else if Context(lines[0]) then omitted + 1 else omitted);
    }
  }

  // ----- Compressing twice -----

  /** A second pass sees at most one marker per gap and drops it. */
  lemma {:induction false} ScanTwice(lines: seq<string>, omitted: nat)
    ensures Scan(Scan(lines, omitted), 0) == Kept(lines)
    decreases |lines|
  {
    FlushIsGap(omitted);
    if lines == [] {
      ScanGap(Flush(omitted), [], 0);
      assert Flush(omitted) + [] == Flush(omitted);
    } else if Keep(lines[0]) {
      ScanTwice(lines[1..], 0);
      GapIsCounted(Flush(omitted), lines[0], Scan(lines[1..], 0));
      var kept := [lines[0]] + Kept(lines[1..]);
      assert [] + kept == kept;
    } else {
      ScanTwice(lines[1..], if Context(lines[0]) then omitted + 1 else omitted);
    }
  }

  lemma {:induction false} ScanKept(lines: seq<string>)
    ensures Scan(Kept(lines), 0) == Kept(lines)
    decreases |lines|
  {
    if lines != [] {
      ScanKept(lines[1..]);
      if Keep(lines[0]) {
        var kept := [lines[0]] + Kept(lines[1..]);
        ConsDrop(lines[0], Kept(lines[1..]));
        assert [] + kept == kept;
      }
    }
  }

  /** At most one context line in every gap, counting `omitted` pending ones. */
  predicate Sparse(lines: seq<string>, omitted: nat) {
    if lines == [] then omitted <= 1
    else if Keep(lines[0]) then omitted <= 1 && Sparse(lines[1..], 0)
    else if Context(lines[0]) then Sparse(lines[1..], omitted + 1)
    else Sparse(lines[1..], omitted)
  }

  lemma {:induction false} SparseExact(lines: seq<string>, omitted: nat)
    ensures if Sparse(lines, omitted) then Scan(lines, omitted) == Kept(lines)
            else |Scan(lines, omitted)| > |Kept(lines)|
    decreases |lines|
  {
    if lines == [] {
    } else if Keep(lines[0]) {
      SparseExact(lines[1..], 0);
      ScanNoShorter(lines[1..], 0);
      var kept := [lines[0]] + Kept(lines[1..]);
      assert [] + kept == kept;
    } else {
      SparseExact(lines[1..], if Context(lines[0]) then omitted + 1 else omitted);
    }
  }

  lemma {:induction false} ScanNoShorter(lines: seq<string>, omitted: nat)
    ensures |Scan(lines, omitted)| >= |Kept(lines)|
    decreases |lines|
  {
    if lines != [] {
      ScanNoShorter(lines[1..], if Keep(lines[0]) then 0 else if Context(lines[0]) then omitted + 1 else omitted);
    }
  }

  // ----- Whole texts -----

  predicate OneLiners(lines: seq<string>) {
    forall i :: 0 <= i < |lines| ==> Index(lines[i], "\n") < 0
  }

  /** A line of the output: it holds no line break and is not empty. */
  predicate Solid(lines: seq<string>) {
    forall i :: 0 <= i < |lines| ==> lines[i] != "" && Index(lines[i], "\n") < 0
  }

  lemma SolidConcat(a: seq<string>, b: seq<string>)
    requires Solid(a) && Solid(b)
    ensures Solid(a + b)
  {
  }

  lemma {:induction false} ScanSolid(lines: seq<string>, omitted: nat)
    requires OneLiners(lines)
    ensures Solid(Scan(lines, omitted)) && Solid(Kept(lines))
    decreases |lines|
  {
    var flush := Flush(omitted);
    assert Solid(flush) by {
      OmittedShape(omitted);
      CleanPart(Omitted(omitted), "\n");
    }
    if lines != [] {
      ScanSolid(lines[1..], if Keep(lines[0]) then 0 else if Context(lines[0]) then omitted + 1 else omitted);
      if Keep(lines[0]) {
        SolidConcat([lines[0]], Scan(lines[1..], 0));
        SolidConcat([lines[0]], Kept(lines[1..]));
        SolidConcat(flush, [lines[0]] + Scan(lines[1..], 0));
      }
    }
  }

  lemma Resplit(lines: seq<string>)
    requires OneLiners(lines) && lines != []
    ensures Split(Join(lines, "\n"), "\n") == lines
  {
    forall i | 0 <= i < |lines| ensures CleanBefore(lines[i], "\n") {
      FreeIsCleanBefore(lines[i], "\n");
    }
    SplitJoin(lines, "\n");
  }

  /** Compressing re-read lines: joining and splitting changes nothing, except that
      an empty list comes back as one blank line, which is dropped again. */
  lemma Reread(lines: seq<string>)
    requires OneLiners(lines)
    ensures CompressDiff(Join(lines, "\n")) == Join(Scan(lines, 0), "\n")
  {
    if lines == [] {
      assert Index("", "\n") < 0;
      assert Split("", "\n") == [""];
      assert !Keep("") && TrimSpace("") == "";
      assert [""][1..] == [];
    } else {
      Resplit(lines);
    }
  }

  lemma SplitOneLiners(text: string)
    ensures OneLiners(Split(text, "\n"))
  {
    var lines := Split(text, "\n");
    JoinSplit(text, "\n");
    forall i | 0 <= i < |lines| ensures Index(lines[i], "\n") < 0 {
      if i < |lines| - 1 { CleanBeforeIsFree(lines[i], "\n"); }
    }
  }

  /** Compressing twice leaves exactly the kept lines, and that is a fixpoint. */
  lemma CompressDiffTwice(text: string)
    ensures CompressDiff(CompressDiff(text)) == Join(Kept(Split(text, "\n")), "\n")
    ensures CompressDiff(Join(Kept(Split(text, "\n")), "\n")) == Join(Kept(Split(text, "\n")), "\n")
  {
    var lines := Split(text, "\n");
    SplitOneLiners(text);
    ScanSolid(lines, 0);
    Reread(Scan(lines, 0));
    ScanTwice(lines, 0);
    Reread(Kept(lines));
    ScanKept(lines);
  }

  /** Diff compression is idempotent on exactly the texts whose gaps hold at most
      one context line each. */
  lemma CompressDiffIdempotentIff(text: string)
    ensures CompressDiff(CompressDiff(text)) == CompressDiff(text) <==> Sparse(Split(text, "\n"), 0)
  {
    var lines := Split(text, "\n");
    var out, kept := Scan(lines, 0), Kept(lines);
    CompressDiffTwice(text);
    SparseExact(lines, 0);
    SplitOneLiners(text);
    ScanSolid(lines, 0);
    JoinDistinguishes(out, kept);
  }

  /** Two lines of context alone: the first pass leaves their marker, the second nothing. */
  lemma DiffNotIdempotent()
    ensures CompressDiff(" a\n b") == Omitted(2) && CompressDiff(Omitted(2)) == ""
  {
    var lines := [" a"] + [" b"];
    TwoContextLines();
    assert Join(lines[1..], "\n") == " b";
    assert Join(lines, "\n") == " a" + "\n" + " b" == " a\n b";
    Reread(lines);
    assert lines[1..][1..] == [];
    assert Scan(lines, 0) == Scan(lines[1..], 1) == Scan([], 2) == [Omitted(2)];
    assert Join([Omitted(2)], "\n") == Omitted(2);
    ScanSolid(lines, 0);
    Reread([Omitted(2)]);
    ScanTwice(lines, 0);
    assert Kept(lines) == Kept(lines[1..]) == [];
  }

  lemma TwoContextLines()
    ensures OneLiners([" a"] + [" b"]) && Context(" a") && Context(" b")
  {
    TrimSpaceBlank(" a");
    TrimSpaceBlank(" b");
    CleanPart(" a", "\n");
    CleanPart(" b", "\n");
  }

  /** Lists of non-empty single lines of different lengths join to different texts. */
  lemma JoinDistinguishes(a: seq<string>, b: seq<string>)
    requires Solid(a) && Solid(b)
    ensures |a| > |b| ==> Join(a, "\n") != Join(b, "\n")
  {
    if a != [] {
      Resplit(a);
      assert |Join(a, "\n")| >= |a[0]|;
    }
    if b != [] { Resplit(b); }
  }

  // ----- Which lines are kept and counted, written out -----

  /** An added or removed line, or a header. */
  predicate Marked(line: string) {
    line != "" && (line[0] == '+' || line[0] == '-' || "@@ " <= line || "index " <= line || "diff --git " <= line)
  }

  lemma KeepIff(line: string)
    ensures Keep(line) <==> Marked(line)
    ensures Context(line) <==> !Marked(line) && Visible(line)
  {
    VisibleIff(line);
    if line != "" {
      assert "+" <= line <==> line[0] == "+"[0];
      assert "-" <= line <==> line[0] == "-"[0];
      assert "--- " <= line ==> line[0] == "--- "[0];
      assert "+++ " <= line ==> line[0] == "+++ "[0];
    }
  }

  function MarkedLines(lines: seq<string>): seq<string> {
    if lines == [] then [] else (if Marked(lines[0]) then [lines[0]] else []) + MarkedLines(lines[1..])
  }

  lemma {:induction false} KeptIsMarked(lines: seq<string>)
    ensures Kept(lines) == MarkedLines(lines)
  {
    if lines != [] {
      KeepIff(lines[0]);
      KeptIsMarked(lines[1..]);
      assert [] + MarkedLines(lines[1..]) == MarkedLines(lines[1..]);
    }
  }

  /** Every added and removed line and every header of a diff survives, in order, and
      nothing else looks like one. */
  lemma DiffKeepsMarked(text: string)
    ensures MarkedLines(Split(CompressDiff(text), "\n")) == MarkedLines(Split(text, "\n"))
  {
    var lines := Split(text, "\n");
    var out := Scan(lines, 0);
    SplitOneLiners(text);
    ScanSolid(lines, 0);
    KeptSurvives(lines, 0);
    KeptIsMarked(lines);
    KeptIsMarked(out);
    if out == [] {
      assert Split("", "\n") == [""] && [""][1..] == [];
      assert MarkedLines([""]) == [] + MarkedLines([""][1..]);
    } else {
      Resplit(out);
    }
  }

  /** The lines of a gap that are not blank. */
  function VisibleLines(gap: seq<string>): set<int> {
    set i | 0 <= i < |gap| && Visible(gap[i])
  }

  lemma VisibleSnoc(gap: seq<string>, line: string)
    ensures |VisibleLines(gap + [line])| == |VisibleLines(gap)| + if Visible(line) then 1 else 0
  {
    assert VisibleLines(gap + [line]) == VisibleLines(gap) + if Visible(line) then {|gap|} else {};
  }

  lemma {:induction false} ContextCountIs(gap: seq<string>)
    requires Gap(gap)
    ensures ContextCount(gap) == |VisibleLines(gap)|
    decreases |gap|
  {
    if gap != [] {
      var n := |gap| - 1;
      assert gap == gap[..n] + [gap[n]];
      ContextCountIs(gap[..n]);
      ContextSnoc(gap[..n], gap[n]);
      VisibleSnoc(gap[..n], gap[n]);
      KeepIff(gap[n]);
    }
  }

  lemma {:induction false} ContextSnoc(gap: seq<string>, line: string)
    ensures ContextCount(gap + [line]) == ContextCount(gap) + if Context(line) then 1 else 0
    decreases |gap|
  {
    if gap == [] {
      assert gap + [line] == [line] && [line][1..] == [];
    } else {
      assert (gap + [line])[0] == gap[0] && (gap + [line])[1..] == gap[1..] + [line];
      ContextSnoc(gap[1..], line);
    }
  }

  /** What stands for the lines between two kept ones: a marker with the number of those
      that are not blank, or nothing if there are fewer than two. */
  lemma GapMarker(gap: seq<string>, line: string, rest: seq<string>)
    requires Gap(gap) && Marked(line)
    ensures var n := |VisibleLines(gap)|;
            Scan(gap + ([line] + rest), 0) ==
            (if n > 1 then ["[" + Dec(n) + " diff context lines omitted]"] else []) + ([line] + Scan(rest, 0))
  {
    KeepIff(line);
    ContextCountIs(gap);
    GapIsCounted(gap, line, rest);
  }
}

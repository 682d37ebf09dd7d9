/**
 Editing a fenced block inside a text someone else owns: how the Codex installer
 finds, removes and appends its block (internal/install/codex.go), for any pair of
 fence lines.

 `Core` is what the editor keeps of the user's text. The run theorems say that no
 sequence of installs and removals changes it, and that only the last one shows.
 */
module ManagedBlock {
  import opened Outcome
  import opened Text
  import opened Lines

  datatype Fence = Fence(open: string, close: string)

  /** Fences sit within one line, and white space cannot be mistaken for one. */
  predicate ValidFence(f: Fence) {
    InLine(f.open) && InLine(f.close) && !IsSpace(f.open[0])
  }

  // ----- Editing -----

  function TrailingNewline(prefix: string): string {
    if TrimSpace(prefix) == "" then "" else "\n"
  }

  /** Where the text after a block that ends at `end` starts. */
  function AfterBlock(text: string, end: nat): (k: nat)
    requires end <= |text|
    ensures end <= k <= |text|
  {
    var r := if end < |text| && text[end] == '\r' then end + 1 else end;
    if r < |text| && text[r] == '\n' then r + 1 else r
  }

  /** How removal joins the text before a block with the text after it. */
  function Joined(pre: string, post: string): string {
    TrimRight(pre, LineBreak) + TrailingNewline(pre) + TrimLeft(post, LineBreak)
  }

  /** The text before the first block and, if the block is closed, the text after it. */
  function Parts(f: Fence, text: string): (string, Option<string>)
    requires !Free(f, text)
  {
    var start := Index(text, f.open);
    var end := Index(text[start..], f.close);
    (text[..start], if end < 0 then None else Some(text[AfterBlock(text, start + end + |f.close|)..]))
  }

  /** removeManagedBlock. */
  function Remove(f: Fence, text: string): string {
    if Free(f, text) then text
    else
      var (pre, post) := Parts(f, text);
      if post.None? then pre else Joined(pre, post.value)
  }

  /** appendBlock. */
  function Append(current: string, block: string): string {
    var trimmed := TrimRight(current, LineBreak);
    if trimmed == "" then block else trimmed + "\n\n" + block
  }

  /** What an install writes, given the trimmed lines of the text it goes into. */
  type Render = seq<string> -> string

  function Install(f: Fence, text: string, block: Render): string {
    var cleaned := Remove(f, text);
    Append(cleaned, block(TrimmedLines(cleaned)))
  }

  /** A block as the editor expects it: it opens with the opening fence, and its
      first closing fence is its last line. */
  predicate IsBlock(f: Fence, t: string) {
    var n := |t| - |f.close| - 1;
    n >= 0 && Occurs(t, f.open, 0) && Index(t, f.close) == n && t[|t| - 1] == '\n'
  }

  ghost predicate Renders(f: Fence, block: Render) {
    forall lines :: IsBlock(f, block(lines))
  }

  predicate Free(f: Fence, text: string) {
    Index(text, f.open) < 0
  }

  // ----- Rendered blocks -----

  /** A block as it is printed: the two fences around some lines. */
  function Fenced(f: Fence, lines: seq<string>): string {
    Join([f.open] + lines + [f.close], "\n") + "\n"
  }

  /** Joined lines that avoid a pattern, then the pattern: it shows first at the end. */
  lemma {:induction false} JoinThenPattern(lines: seq<string>, pat: string) returns (body: string)
    requires InLine(pat) && forall i :: 0 <= i < |lines| ==> Index(lines[i], pat) < 0
    ensures Join(lines + [pat], "\n") == body + pat && CleanBefore(body, pat)
    ensures lines != [] ==> |lines[0]| <= |body| && body[..|lines[0]|] == lines[0]
  {
    if lines == [] {
      body := "";
      assert "" + pat == pat && lines + [pat] == [pat];
      FirstAt(pat, pat, 0);
    } else {
      var rest := JoinThenPattern(lines[1..], pat);
      body := lines[0] + "\n" + rest;
      var all := lines + [pat];
      assert all[1..] == lines[1..] + [pat] && all[0] == lines[0];
      CleanBeforeBreak(lines[0], rest, pat);
      Assoc(lines[0] + "\n", rest, pat);
    }
  }

  lemma FencedIsBlock(f: Fence, lines: seq<string>)
    requires ValidFence(f) && Index(f.open, f.close) < 0
    requires forall i :: 0 <= i < |lines| ==> Index(lines[i], f.close) < 0
    ensures IsBlock(f, Fenced(f, lines))
  {
    var body := JoinThenPattern([f.open] + lines, f.close);
    IndexAfterPart(body, f.close, "\n");
    var t := body + f.close + "\n";
    assert t[..|f.open|] == f.open;
  }

  // ----- What the editor keeps -----

  function Core(f: Fence, text: string): string {
    TrimRight(Remove(f, text), LineBreak)
  }

  predicate Tight(core: string) {
    TrimRight(core, LineBreak) == core
  }

  function Place(core: string, block: Render): string {
    (if core == "" then "" else core + "\n\n") + block(TrimmedLines(core))
  }

  /** Installing looks at the core only. */
  lemma InstallIsPlace(f: Fence, text: string, block: Render)
    ensures Install(f, text, block) == Place(Core(f, text), block)
  {
    LinesTrimRight(Remove(f, text));
    var b := block(TrimmedLines(Core(f, text)));
    assert "" + b == b;
  }

  lemma BlockEndsText(prefix: string, f: Fence, block: string)
    requires IsBlock(f, block) && Index(prefix + block, f.open) == |prefix|
    ensures Parts(f, prefix + block) == (prefix, Some(""))
  {
    var text := prefix + block;
    AppendDrop(prefix, block);
    assert text[|text| - 1] == block[|block| - 1];
    assert AfterBlock(text, |prefix| + Index(block, f.close) + |f.close|) == |text|;
    assert text[|text|..] == "";
  }

  lemma RemoveAt(f: Fence, prefix: string, block: string)
    requires IsBlock(f, block) && Index(prefix + block, f.open) == |prefix|
    ensures Remove(f, prefix + block) == TrimRight(prefix, LineBreak) + TrailingNewline(prefix)
  {
    BlockEndsText(prefix, f, block);
    var kept := TrimRight(prefix, LineBreak) + TrailingNewline(prefix);
    assert TrimLeft("", LineBreak) == "" && kept + "" == kept;
  }

  lemma OpenAfterCore(f: Fence, core: string, block: string)
    requires ValidFence(f) && Free(f, core) && Occurs(block, f.open, 0)
    ensures Index(core + "\n\n" + block, f.open) == |core| + 2
  {
    TwoBreaks(core, block);
    BreakOpensNothing(f, block);
    NothingBefore(core, "\n" + block, f.open, 1);
    OccursSuffix(core + "\n\n", block, f.open, 0);
    FirstAt(core + "\n\n" + block, f.open, |core| + 2);
  }

  lemma TwoBreaks(core: string, block: string)
    ensures core + "\n\n" + block == core + "\n" + ("\n" + block)
  {
  }

  lemma BreakOpensNothing(f: Fence, block: string)
    requires ValidFence(f)
    ensures !Occurs("\n" + block, f.open, 0)
  {
    OccursChar("\n" + block, f.open, 0, 0);
    assert f.open[0] in f.open && ("\n" + block)[0] == '\n';
  }

  lemma TrimAfterCore(core: string)
    requires Tight(core)
    ensures TrimRight(core + "\n\n", LineBreak) == core
    ensures TrailingNewline(core + "\n\n") == TrailingNewline(core)
  {
    TrimRightPad(core, "\n\n", LineBreak);
    TrimSpacePad("", core, "\n\n");
    assert "" + core + "\n\n" == core + "\n\n";
  }

  /** Removing a placed block gives the core back, with one line break if it is not
      blank. */
  lemma RemovePlaced(f: Fence, core: string, block: Render)
    requires ValidFence(f) && Free(f, core) && Tight(core) && Renders(f, block)
    ensures Remove(f, Place(core, block)) == core + TrailingNewline(core)
  {
    var b := block(TrimmedLines(core));
    assert IsBlock(f, b);
    if core == "" {
      assert "" + b == b;
      FirstAt(b, f.open, 0);
      RemoveAt(f, "", b);
      assert TrimRight("", LineBreak) == "";
    } else {
      OpenAfterCore(f, core, b);
      RemoveAt(f, core + "\n\n", b);
      TrimAfterCore(core);
    }
  }

  lemma CoreIsTight(f: Fence, text: string)
    requires Free(f, Remove(f, text))
    ensures Free(f, Core(f, text)) && Tight(Core(f, text))
  {
    var core := Core(f, text);
    var dropped := TrimRightSplits(Remove(f, text), LineBreak);
    FreePrefix(core, dropped, f.open);
    TrimRightIs(core, [], LineBreak);
    assert core + [] == core;
  }

  lemma CoreWithNewline(f: Fence, core: string)
    requires ValidFence(f) && Free(f, core) && Tight(core)
    ensures Free(f, core + TrailingNewline(core))
    ensures TrimRight(core + TrailingNewline(core), LineBreak) == core
  {
    TrimRightPad(core, TrailingNewline(core), LineBreak);
    assert core + "" == core;
    CountBreak(core, "", f.open);
    CountZero(core, f.open);
    CountZero(core + "\n" + "", f.open);
    assert core + "\n" + "" == core + "\n";
  }

  // ----- Runs -----

  datatype Edit = Put(block: Render) | Take

  function Apply(f: Fence, text: string, edit: Edit): string {
    match edit
    case Put(block) => Install(f, text, block)
    case Take => Remove(f, text)
  }

  function Run(f: Fence, text: string, edits: seq<Edit>): string {
    if edits == [] then text else Apply(f, Run(f, text, edits[..|edits| - 1]), edits[|edits| - 1])
  }

  ghost predicate AllRender(f: Fence, edits: seq<Edit>) {
    forall i :: 0 <= i < |edits| && edits[i].Put? ==> Renders(f, edits[i].block)
  }

  lemma EditKeepsCore(f: Fence, text: string, edit: Edit)
    requires ValidFence(f) && Free(f, Remove(f, text)) && (edit.Put? ==> Renders(f, edit.block))
    ensures Free(f, Remove(f, Apply(f, text, edit))) && Core(f, Apply(f, text, edit)) == Core(f, text)
  {
    match edit
    case Take =>
    case Put(block) =>
      CoreIsTight(f, text);
      InstallIsPlace(f, text, block);
      RemovePlaced(f, Core(f, text), block);
      CoreWithNewline(f, Core(f, text));
  }

  /** No run touches the user's text: the core of the file stays what it was. */
  lemma {:induction false} RunKeepsCore(f: Fence, text: string, edits: seq<Edit>)
    requires ValidFence(f) && Free(f, Remove(f, text)) && AllRender(f, edits)
    ensures Free(f, Remove(f, Run(f, text, edits))) && Core(f, Run(f, text, edits)) == Core(f, text)
    decreases |edits|
  {
    if edits != [] {
      var before := edits[..|edits| - 1];
      RunKeepsCore(f, text, before);
      EditKeepsCore(f, Run(f, text, before), edits[|edits| - 1]);
    }
  }

  /** Last writer wins: after any run, an install leaves the file it would have left
      on the original text. */
  lemma LastInstallWins(f: Fence, text: string, edits: seq<Edit>, block: Render)
    requires ValidFence(f) && Free(f, Remove(f, text)) && AllRender(f, edits)
    ensures Install(f, Run(f, text, edits), block) == Install(f, text, block)
  {
    RunKeepsCore(f, text, edits);
    InstallIsPlace(f, text, block);
    InstallIsPlace(f, Run(f, text, edits), block);
  }

  /** The user's text with its trailing line breaks trimmed and one line break if it is
      not blank. */
  function Tidy(text: string): string {
    TrimRight(text, LineBreak) + TrailingNewline(TrimRight(text, LineBreak))
  }

  lemma RemoveInstalled(f: Fence, text: string, edits: seq<Edit>, block: Render)
    requires ValidFence(f) && Free(f, Remove(f, text)) && AllRender(f, edits) && Renders(f, block)
    ensures Remove(f, Install(f, Run(f, text, edits), block)) == Tidy(Remove(f, text))
  {
    var core := Core(f, text);
    LastInstallWins(f, text, edits, block);
    InstallIsPlace(f, text, block);
    CoreIsTight(f, text);
    RemovePlaced(f, core, block);
  }

  lemma TidyIsFree(f: Fence, text: string)
    requires ValidFence(f) && Free(f, text)
    ensures Free(f, Tidy(text))
  {
    CoreIsTight(f, text);
    CoreWithNewline(f, Core(f, text));
  }

  lemma TidyKeepsLines(text: string)
    ensures TrimmedLines(Tidy(text)) == TrimmedLines(text)
  {
    var core := TrimRight(text, LineBreak);
    LinesTrimRight(text);
    assert AllCut(TrailingNewline(core), Space);
    LinesPadRight(core, TrailingNewline(core));
  }

  predicate Installs(edits: seq<Edit>) {
    exists i :: 0 <= i < |edits| && edits[i].Put?
  }

  lemma InstallsLast(edits: seq<Edit>)
    requires edits != []
    ensures Installs(edits) <==> Installs(edits[..|edits| - 1]) || edits[|edits| - 1].Put?
  {
    var before := edits[..|edits| - 1];
    if Installs(before) {
      var i :| 0 <= i < |before| && before[i].Put?;
      assert edits[i].Put?;
    }
    if Installs(edits) && !edits[|edits| - 1].Put? {
      var i :| 0 <= i < |edits| && edits[i].Put?;
      assert before[i].Put?;
    }
  }

  /** Removing after any run leaves what a removal leaves of the original text, tidied if
      the run installed anything. */
  lemma {:induction false} RemoveRestores(f: Fence, text: string, edits: seq<Edit>)
    requires ValidFence(f) && Free(f, Remove(f, text)) && AllRender(f, edits)
    ensures Remove(f, Run(f, text, edits)) == if Installs(edits) then Tidy(Remove(f, text)) else Remove(f, text)
    decreases |edits|
  {
    if edits != [] {
      var before := edits[..|edits| - 1];
      InstallsLast(edits);
      match edits[|edits| - 1]
      case Put(block) => RemoveInstalled(f, text, before, block);
      case Take =>
        RemoveRestores(f, text, before);
        TidyIsFree(f, Remove(f, text));
    }
  }

  // ----- Removal on arbitrary texts -----

  lemma SpaceOpensNothing(f: Fence, w: string)
    requires ValidFence(f) && AllCut(w, Space)
    ensures f.open[0] !in w
  {
  }

  /** The join creates no opening fence. */
  lemma JoinedCount(f: Fence, pre: string, post: string)
    requires ValidFence(f) && Free(f, pre)
    ensures Count(Joined(pre, post), f.open) == Count(post, f.open)
  {
    var left, right := TrimRight(pre, LineBreak), TrimLeft(post, LineBreak);
    var dropped := TrimRightSplits(pre, LineBreak);
    var skipped := TrimLeftSplits(post, LineBreak);
    LineBreaksAreSpace(skipped);
    SpaceOpensNothing(f, skipped);
    CountSkip(skipped, right, f.open);
    TrimSpaceBlank(pre);
    if TrimSpace(pre) == "" {
      AllCutConcat(left, dropped, Space);
      SpaceOpensNothing(f, left);
      CountSkip(left, right, f.open);
      assert left + "" == left;
    } else {
      FreePrefix(left, dropped, f.open);
      CountZero(left, f.open);
      CountBreak(left, right, f.open);
    }
  }

  /** The join loses no line. */
  lemma JoinedLines(pre: string, post: string)
    ensures TrimmedLines(Joined(pre, post)) == TrimmedLines(pre) + TrimmedLines(post)
  {
    var left, right := TrimRight(pre, LineBreak), TrimLeft(post, LineBreak);
    var dropped := TrimRightSplits(pre, LineBreak);
    LinesTrimRight(pre);
    LinesTrimLeft(post);
    TrimSpaceBlank(pre);
    if TrimSpace(pre) == "" {
      AllCutConcat(left, dropped, Space);
      LinesPadLeft(left, right);
      LinesPadLeft(pre, "");
      LinesOfBlank();
      assert pre + "" == pre && left + "" == left;
      assert [] + TrimmedLines(post) == TrimmedLines(post);
    } else {
      LinesBreak(left, right);
    }
  }

  /** What lies between the two parts: the block, which is not empty. */
  lemma BlockBetween(f: Fence, text: string) returns (block: string)
    requires f.close != [] && !Free(f, text) && Parts(f, text).1.Some?
    ensures block != "" && text == Parts(f, text).0 + (block + Parts(f, text).1.value)
  {
    var start := Index(text, f.open);
    var after := AfterBlock(text, start + Index(text[start..], f.close) + |f.close|);
    block := text[start..after];
    assert Parts(f, text) == (text[..start], Some(text[after..]));
    CutTwice(text, start, after);
  }

  lemma FreeBefore(f: Fence, text: string)
    requires f.open != [] && !Free(f, text)
    ensures Free(f, text[..Index(text, f.open)])
  {
    var start := Index(text, f.open);
    var pre, rest := text[..start], text[start..];
    CutTwice(text, start, start);
    forall j ensures !Occurs(pre, f.open, j) {
      if j + |f.open| <= |pre| { OccursPrefix(pre, rest, f.open, j); }
    }
  }

  /** One removal strictly lowers the number of opening fences, whatever the text. */
  lemma RemovalLowersCount(f: Fence, text: string)
    requires ValidFence(f) && !Free(f, text)
    ensures Count(Remove(f, text), f.open) < Count(text, f.open)
  {
    var (pre, post) := Parts(f, text);
    FreeBefore(f, text);
    CountZero(text, f.open);
    CountZero(pre, f.open);
    if post.Some? {
      var block := BlockBetween(f, text);
      JoinedCount(f, pre, post.value);
      BlockCounts(pre, block, post.value, f.open);
    }
  }

  // ----- Texts with more than one block -----

  /** The block holds as many opening fences whatever the text it goes into. */
  ghost predicate EvenRender(f: Fence, block: Render) {
    forall lines :: Count(block(lines), f.open) == Count(block([]), f.open)
  }

  lemma InstallCount(f: Fence, text: string, block: Render)
    requires ValidFence(f) && '\r' !in f.open && EvenRender(f, block)
    ensures Count(Install(f, text, block), f.open) == Count(Remove(f, text), f.open) + Count(block([]), f.open)
  {
    var cleaned := Remove(f, text);
    var trimmed := TrimRight(cleaned, LineBreak);
    var dropped := TrimRightSplits(cleaned, LineBreak);
    var b := block(TrimmedLines(cleaned));
    assert cleaned == trimmed + dropped;
    assert forall c :: c in dropped ==> c !in f.open;
    CountPad(trimmed, dropped, f.open);
    assert Count(b, f.open) == Count(block([]), f.open);
    if trimmed != "" {
      TwoBreaks(trimmed, b);
      CountBreak(trimmed, "\n" + b, f.open);
      CountBreak("", b, f.open);
      assert "" + "\n" + b == "\n" + b;
    }
  }

  /** While a removal leaves an opening fence, installing into the text and into what a
      removal leaves of it are different things. */
  lemma SecondBlockShows(f: Fence, text: string, block: Render)
    requires ValidFence(f) && '\r' !in f.open && EvenRender(f, block) && !Free(f, Remove(f, text))
    ensures Install(f, Remove(f, text), block) != Install(f, text, block)
    ensures Remove(f, Remove(f, text)) != Remove(f, text)
  {
    RemovalLowersCount(f, Remove(f, text));
    InstallCount(f, text, block);
    InstallCount(f, Remove(f, text), block);
  }

  /** A closed block and another opening fence. */
  function TwoOpenings(f: Fence): string {
    f.open + "\n" + f.close + "\n" + f.open
  }

  lemma TwoOpeningsOpen(f: Fence)
    requires f.open != []
    ensures Index(TwoOpenings(f), f.open) == 0
  {
    var rest := "\n" + f.close + "\n" + f.open;
    assert TwoOpenings(f) == f.open + rest;
    OccursPrefix(f.open, rest, f.open, 0);
    FirstAt(TwoOpenings(f), f.open, 0);
  }

  lemma TwoOpeningsClose(f: Fence)
    requires ValidFence(f) && Index(f.open, f.close) < 0
    ensures Index(TwoOpenings(f), f.close) == |f.open| + 1
  {
    var head := f.open + "\n";
    assert "" + f.close == f.close && head + "" == head;
    FirstAt(f.close, f.close, 0);
    CleanBeforeBreak(f.open, "", f.close);
    assert TwoOpenings(f) == head + f.close + ("\n" + f.open);
    IndexAfterPart(head, f.close, "\n" + f.open);
  }

  /** Nothing lies before the first block, and the other opening fence after it. */
  lemma TwoOpeningsParts(f: Fence)
    requires ValidFence(f) && Index(f.open, f.close) < 0
    ensures !Free(f, TwoOpenings(f)) && Parts(f, TwoOpenings(f)) == ("", Some(f.open))
  {
    var text, head := TwoOpenings(f), f.open + "\n" + f.close;
    TwoOpeningsOpen(f);
    TwoOpeningsClose(f);
    assert text[0..] == text && text[..0] == "";
    assert text[|head|] == '\n' && AfterBlock(text, |head|) == |head + "\n"|;
    AppendDrop(head + "\n", f.open);
  }

  lemma JoinedAlone(post: string)
    requires post != [] && !Cuts(LineBreak, post[0])
    ensures Joined("", post) == post
  {
    TrimLeftIs("", post, LineBreak);
    assert "" + post == post && TrimRight("", LineBreak) == "";
    assert TrimSpace("") == "";
    assert "" + "" == "";
  }

  /** Removing its first block leaves the other opening fence. */
  lemma TwoOpeningsStay(f: Fence)
    requires ValidFence(f) && Index(f.open, f.close) < 0
    ensures Remove(f, TwoOpenings(f)) == f.open && !Free(f, f.open)
  {
    TwoOpeningsParts(f);
    JoinedAlone(f.open);
    FirstAt(f.open, f.open, 0);
  }

  lemma BlockCounts(pre: string, block: string, post: string, pat: string)
    requires block != [] && Occurs(pre + (block + post), pat, |pre|)
    ensures Count(pre + (block + post), pat) > Count(post, pat)
  {
    OccursSuffix(pre, block + post, pat, 0);
    CountSuffix(block, post, pat);
    CountSuffix(pre, block + post, pat);
  }

  /** Removing a closed first block keeps the trimmed lines before and after it, in
      order; an open one takes everything after its opening fence along. */
  lemma RemovalKeepsLines(f: Fence, text: string)
    requires !Free(f, text)
    ensures var (pre, post) := Parts(f, text);
            if post.None? then Remove(f, text) == pre
            else TrimmedLines(Remove(f, text)) == TrimmedLines(pre) + TrimmedLines(post.value)
  {
    var (pre, post) := Parts(f, text);
    if post.Some? {
      JoinedLines(pre, post.value);
    }
  }

  /** A closed block as removal cuts it out: its first closing fence ends it, up to a line
      break. */
  predicate CutOut(f: Fence, block: string) {
    var e := Index(block, f.close);
    e >= 0 && block[e + |f.close|..] in {"", "\r", "\n", "\r\n"}
  }

  /** Where removal cuts: before the first opening fence, and after the block if it is
      closed; otherwise everything from the fence on goes. */
  lemma RemovalIsExact(f: Fence, text: string) returns (block: string)
    requires ValidFence(f) && !Free(f, text)
    ensures var (pre, post) := Parts(f, text);
            && Free(f, pre) && text == pre + (block + if post.Some? then post.value else "")
            && Occurs(text, f.open, |pre|)
            && if post.Some? then
                 && CutOut(f, block)
                 && Remove(f, text) == TrimRight(pre, LineBreak) + (if TrimSpace(pre) == "" then "" else "\n")
                                       + TrimLeft(post.value, LineBreak)
               else Index(block, f.close) < 0 && Remove(f, text) == pre
  {
    FreeBefore(f, text);
    if Parts(f, text).1.Some? {
      block := BlockBetween(f, text);
      ClosedBetween(f, text, block);
    } else {
      var start := Index(text, f.open);
      block := text[start..];
      CutTwice(text, start, start);
      assert block + "" == block;
    }
  }

  lemma ClosedBetween(f: Fence, text: string, block: string)
    requires f.close != [] && !Free(f, text) && Parts(f, text).1.Some?
    requires text == Parts(f, text).0 + (block + Parts(f, text).1.value)
    ensures CutOut(f, block)
  {
    var start := Index(text, f.open);
    var post := Parts(f, text).1.value;
    AppendDrop(text[..start], block + post);
    var end := Index(text[start..], f.close);
    AfterShift(text[..start], block + post, end + |f.close|);
    ClosedBlock(f, block, post);
  }

  lemma AfterShift(pre: string, rest: string, end: nat)
    requires end <= |rest|
    ensures AfterBlock(pre + rest, |pre| + end) == |pre| + AfterBlock(rest, end)
  {
  }

  /** The block that ends with its first closing fence and the line break after it. */
  lemma ClosedBlock(f: Fence, block: string, post: string)
    requires f.close != []
    requires var e := Index(block + post, f.close); e >= 0 && |block| == AfterBlock(block + post, e + |f.close|)
    ensures CutOut(f, block)
  {
    var text := block + post;
    var e := Index(text, f.close);
    forall j | 0 <= j <= e ensures Occurs(block, f.close, j) <==> Occurs(text, f.close, j) {
      OccursPrefix(block, post, f.close, j);
    }
    FirstAt(block, f.close, e);
    BreakOnly(block, post, e + |f.close|);
  }

  lemma BreakOnly(block: string, post: string, end: nat)
    requires end <= |block| && |block| == AfterBlock(block + post, end)
    ensures block[end..] in {"", "\r", "\n", "\r\n"}
  {
    var tail := block[end..];
    assert forall i :: 0 <= i < |tail| ==> tail[i] == (block + post)[end + i];
    if |tail| == 1 { assert tail == [tail[0]]; }
    if |tail| == 2 { assert tail == [tail[0], tail[1]]; }
  }

  function Removals(f: Fence, text: string, n: nat): string
    decreases n
  {
    if n == 0 then text else Removals(f, Remove(f, text), n - 1)
  }

  /** As many removals as there are opening fences clear the file of them all. */
  lemma {:induction false} RemovalsClear(f: Fence, text: string, n: nat)
    requires ValidFence(f) && n >= Count(text, f.open)
    ensures Free(f, Removals(f, text, n))
    decreases n
  {
    CountZero(text, f.open);
    if n > 0 {
      if !Free(f, text) { RemovalLowersCount(f, text); }
      RemovalsClear(f, Remove(f, text), n - 1);
    }
  }
}

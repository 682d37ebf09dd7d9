/**
 The Codex integration (internal/install/codex.go): the managed block with its
 fences and its lines, and the file it is installed into. A URL enters already
 quoted, as the text `%q` prints for it. The theorems hold for every qualified pair
 of fences, and `ManagedQualifies` shows that Cachy's own pair is one.
 */
module Codex {
  import opened Outcome
  import opened Text
  import opened Lines
  import opened ManagedBlock

  const Managed := Fence("# BEGIN CACHY CODEX INTEGRATION", "# END CACHY CODEX INTEGRATION")

  const Notice := "# Managed by Cachy. " + "Remove with: " + "cachy integrations codex uninstall"

  const CachyProvider := "model_provider = \"cachy\""

  datatype Action = Install | Repair | Uninstall | Unsupported(name: string)

  function BlockLines(quotedURL: string, preserveProvider: bool): seq<string> {
    [Notice]
    + (if preserveProvider then [] else [CachyProvider])
    + ["[model_providers.cachy]"]
    + ["name = \"Cachy\""]
    + ["base_url = " + quotedURL]
    + ["env_key = \"OPENAI_API_KEY\""]
    + ["wire_api = \"responses\""]
  }

  /** renderCodexManagedBlock, between the given fences. */
  function RenderBlock(f: Fence, quotedURL: string, preserveProvider: bool): string {
    Fenced(f, BlockLines(quotedURL, preserveProvider))
  }

  predicate ProviderLine(trimmed: string) {
    && !("#" <= trimmed) && !("[" <= trimmed)
    && "model_provider" <= trimmed && Contains(trimmed, "=")
  }

  /** One of the trimmed lines selects a provider. */
  predicate SelectsProvider(lines: seq<string>) {
    exists i :: 0 <= i < |lines| && ProviderLine(lines[i])
  }

  /** The scan of hasTopLevelModelProvider. */
  method HasTopLevelModelProvider(text: string) returns (found: bool)
    ensures found == SelectsProvider(TrimmedLines(text))
  {
    var lines := Split(text, "\n");
    for i := 0 to |lines|
      invariant forall k :: 0 <= k < i ==> !ProviderLine(TrimSpace(lines[k]))
    {
      var trimmed := TrimSpace(lines[i]);
      if trimmed == "" || "#" <= trimmed || "[" <= trimmed {
        continue;
      }
      if "model_provider" <= trimmed && Contains(trimmed, "=") {
        TrimmedMembers(lines, trimmed);
        return true;
      }
    }
    forall i | 0 <= i < |TrimmedLines(text)| ensures !ProviderLine(TrimmedLines(text)[i]) {
      assert TrimmedLines(text)[i] in TrimmedLines(text);
      TrimmedMembers(lines, TrimmedLines(text)[i]);
    }
    return false;
  }

  /** What an install with this URL writes into a text with these trimmed lines. */
  function BlockFor(f: Fence, quotedURL: string): Render {
    lines => RenderBlock(f, quotedURL, SelectsProvider(lines))
  }

  function InstallBlock(f: Fence, current: string, quotedURL: string): string {
    ManagedBlock.Install(f, current, BlockFor(f, quotedURL))
  }

  /** planCodexConfig, without its message and for any pair of fences. */
  function PlanFor(f: Fence, current: string, action: Action, quotedURL: string): Result<string, string> {
    match action
    case Install | Repair => Ok(InstallBlock(f, current, quotedURL))
    case Uninstall => Ok(Remove(f, current))
    case Unsupported(name) => Err(name)
  }

  function Plan(current: string, action: Action, quotedURL: string): Result<string, string> {
    PlanFor(Managed, current, action, quotedURL)
  }

  /** The configuration file; a missing file reads as the empty text. */
  class ConfigFile {
    var text: string

    constructor (initial: string)
      ensures text == initial
    {
      text := initial;
    }

    /** ApplyCodexIntegration on a readable and writable file. */
    method Apply(action: Action, quotedURL: string, dryRun: bool)
      returns (changed: bool, preview: Result<string, string>)
      modifies this
      ensures preview == Plan(old(text), action, quotedURL)
      ensures (action.Install? || action.Repair?) && OneLine(quotedURL) ==>
        preview.Ok? && HoldsBlock(Managed, Remove(Managed, old(text)), quotedURL, preview.value)
      ensures action.Uninstall? ==> preview.Ok? && LostBlock(Managed, old(text), preview.value)
      ensures action.Unsupported? ==> preview == Err(action.name)
      ensures changed <==> preview.Ok? && preview.value != old(text)
      ensures text == if changed && !dryRun then preview.value else old(text)
    {
      preview := Plan(text, action, quotedURL);
      ManagedQualifies();
      if action.Uninstall? {
        UninstallPlan(Managed, text, quotedURL);
      } else if OneLine(quotedURL) {
        InstallPlan(Managed, text, quotedURL);
      }
      changed := preview.Ok? && preview.value != text;
      if !dryRun && changed {
        text := preview.value;
      }
    }
  }

  // ----- The block is well formed -----

  /** What the proofs need to know of the fences: each is one line and a comment, the
      opening one does not hold the closing one, and the closing one reads "# E...". */
  predicate Qualified(f: Fence) {
    && ValidFence(f)
    && |f.close| > 2 && f.close[0] == '#' && f.close[2] == 'E'
    && f.open[0] == '#' && '\r' !in f.open && Index(f.open, f.close) < 0
  }

  /** Text without the closing fence's first character does not hold the fence. */
  lemma HashFree(line: string, pat: string)
    requires pat != [] && pat[0] == '#' && '#' !in line
    ensures Index(line, pat) < 0
  {
    CleanPart(line, pat);
  }

  predicate Comment(line: string) {
    && |line| > 2 && line[2] != 'E'
    && forall i :: 1 <= i < |line| ==> line[i] != '#'
  }

  /** A comment that differs from the fence early on does not hold it. */
  lemma CommentFree(line: string, pat: string)
    requires |pat| > 2 && pat[0] == '#' && pat[2] == 'E' && Comment(line)
    ensures Index(line, pat) < 0
  {
    forall j ensures !Occurs(line, pat, j) {
      OccursChar(line, pat, j, 0);
      OccursChar(line, pat, j, 2);
    }
  }

  lemma SettingFree(prefix: string, rest: string, pat: string)
    requires pat != [] && pat[0] == '#' && '#' !in prefix && Index(rest, pat) < 0
    ensures Index(prefix + rest, pat) < 0
  {
    CountZero(rest, pat);
    CountSkip(prefix, rest, pat);
    CountZero(prefix + rest, pat);
  }

  predicate AllFree(lines: seq<string>, pat: string) {
    forall i :: 0 <= i < |lines| ==> Index(lines[i], pat) < 0
  }

  lemma AllFreeConcat(a: seq<string>, b: seq<string>, pat: string)
    requires AllFree(a, pat) && AllFree(b, pat)
    ensures AllFree(a + b, pat)
  {
  }

  lemma CommentConcat(a: string, b: string)
    requires Comment(a) && '#' !in b
    ensures Comment(a + b)
  {
    assert forall i :: |a| <= i < |a + b| ==> (a + b)[i] == b[i - |a|];
  }

  lemma NoticeIsComment()
    ensures Comment(Notice)
  {
    CommentConcat("# Managed by Cachy. ", "Remove with: ");
    CommentConcat("# Managed by Cachy. " + "Remove with: ", "cachy integrations codex uninstall");
  }

  lemma OpenIsComment()
    ensures Comment(Managed.open)
  {
  }

  lemma CommentsFree(pat: string)
    requires |pat| > 2 && pat[0] == '#' && pat[2] == 'E'
    ensures Index(Notice, pat) < 0 && Index(Managed.open, pat) < 0
  {
    NoticeIsComment();
    OpenIsComment();
    CommentFree(Notice, pat);
    CommentFree(Managed.open, pat);
  }

  lemma OneFree(line: string, pat: string)
    requires pat != [] && pat[0] == '#' && '#' !in line
    ensures AllFree([line], pat)
  {
    HashFree(line, pat);
  }

  lemma SettingsHaveNoHash()
    ensures '#' !in "model_provider = \"cachy\"" && '#' !in "[model_providers.cachy]"
    ensures '#' !in "name = \"Cachy\"" && '#' !in "env_key = \"OPENAI_API_KEY\""
    ensures '#' !in "wire_api = \"responses\"" && '#' !in "base_url = "
  {
  }

  lemma SevenFree(a: seq<string>, b: seq<string>, c: seq<string>, d: seq<string>, e: seq<string>,
                  f: seq<string>, g: seq<string>, pat: string)
    requires AllFree(a, pat) && AllFree(b, pat) && AllFree(c, pat) && AllFree(d, pat)
    requires AllFree(e, pat) && AllFree(f, pat) && AllFree(g, pat)
    ensures AllFree(a + b + c + d + e + f + g, pat)
  {
    AllFreeConcat(a, b, pat);
    AllFreeConcat(a + b, c, pat);
    AllFreeConcat(a + b + c, d, pat);
    AllFreeConcat(a + b + c + d, e, pat);
    AllFreeConcat(a + b + c + d + e, f, pat);
    AllFreeConcat(a + b + c + d + e + f, g, pat);
  }

  lemma BlockLinesFree(quotedURL: string, preserveProvider: bool, pat: string)
    requires |pat| > 2 && pat[0] == '#' && pat[2] == 'E' && Index(quotedURL, pat) < 0
    ensures AllFree(BlockLines(quotedURL, preserveProvider), pat)
  {
    CommentsFree(pat);
    SettingsHaveNoHash();
    OneFree("model_provider = \"cachy\"", pat);
    OneFree("[model_providers.cachy]", pat);
    OneFree("name = \"Cachy\"", pat);
    OneFree("env_key = \"OPENAI_API_KEY\"", pat);
    OneFree("wire_api = \"responses\"", pat);
    SettingFree("base_url = ", quotedURL, pat);
    SevenFree([Notice],
              if preserveProvider then [] else [CachyProvider],
              ["[model_providers.cachy]"], ["name = \"Cachy\""], ["base_url = " + quotedURL],
              ["env_key = \"OPENAI_API_KEY\""], ["wire_api = \"responses\""], pat);
  }

  lemma ManagedShape()
    ensures ValidFence(Managed) && |Managed.close| > 2
    ensures Managed.close[0] == '#' && Managed.close[2] == 'E'
  {
  }

  lemma OpenStart()
    ensures |Managed.open| > 0 && Managed.open[0] == '#' && '\r' !in Managed.open
  {
  }

  /** The fences Cachy uses qualify. */
  lemma ManagedQualifies()
    ensures Qualified(Managed)
  {
    ManagedShape();
    OpenStart();
    CommentsFree(Managed.close);
  }

  /** A URL whose quoted form avoids the closing fence. */
  predicate Quotable(f: Fence, quotedURL: string) {
    Index(quotedURL, f.close) < 0
  }

  /** The rendered block opens with the opening fence, and its first closing fence is
      its last line, whatever the text it goes into. */
  lemma BlockForRenders(f: Fence, quotedURL: string)
    requires Qualified(f) && Quotable(f, quotedURL)
    ensures Renders(f, BlockFor(f, quotedURL))
  {
    forall lines: seq<string> ensures IsBlock(f, BlockFor(f, quotedURL)(lines)) {
      BlockLinesFree(quotedURL, SelectsProvider(lines), f.close);
      FencedIsBlock(f, BlockLines(quotedURL, SelectsProvider(lines)));
    }
  }

  // ----- Whole runs on a file -----

  /** One call of the installer. */
  datatype Step = Step(action: Action, quotedURL: string)

  predicate Configuring(step: Step) {
    step.action.Install? || step.action.Repair?
  }

  /** The file after one call: what it plans, and an unsupported action leaves the file
      alone. */
  function AfterOne(f: Fence, text: string, step: Step): string {
    var plan := PlanFor(f, text, step.action, step.quotedURL);
    if plan.Ok? then plan.value else text
  }

  function After(f: Fence, text: string, steps: seq<Step>): string {
    if steps == [] then text else AfterOne(f, After(f, text, steps[..|steps| - 1]), steps[|steps| - 1])
  }

  predicate AllQuotable(f: Fence, steps: seq<Step>) {
    forall i :: 0 <= i < |steps| && Configuring(steps[i]) ==> Quotable(f, steps[i].quotedURL)
  }

  function EditOf(f: Fence, step: Step): seq<Edit> {
    if Configuring(step) then [Put(BlockFor(f, step.quotedURL))]
    else if step.action.Uninstall? then [Take] else []
  }

  function Edits(f: Fence, steps: seq<Step>): seq<Edit> {
    if steps == [] then [] else Edits(f, steps[..|steps| - 1]) + EditOf(f, steps[|steps| - 1])
  }

  lemma RunSnoc(f: Fence, text: string, edits: seq<Edit>, edit: Edit)
    ensures Run(f, text, edits + [edit]) == ManagedBlock.Apply(f, Run(f, text, edits), edit)
  {
    assert (edits + [edit])[..|edits|] == edits;
  }

  lemma {:induction false} AfterIsRun(f: Fence, text: string, steps: seq<Step>)
    ensures After(f, text, steps) == Run(f, text, Edits(f, steps))
    decreases |steps|
  {
    if steps != [] {
      AfterIsRun(f, text, steps[..|steps| - 1]);
      OneIsEdit(f, text, Edits(f, steps[..|steps| - 1]), steps[|steps| - 1]);
    }
  }

  lemma OneIsEdit(f: Fence, text: string, edits: seq<Edit>, step: Step)
    ensures AfterOne(f, Run(f, text, edits), step) == Run(f, text, edits + EditOf(f, step))
  {
    if EditOf(f, step) == [] {
      assert edits + [] == edits;
    } else {
      RunSnoc(f, text, edits, EditOf(f, step)[0]);
    }
  }

  lemma {:induction false} QuotableRenders(f: Fence, steps: seq<Step>)
    requires Qualified(f) && AllQuotable(f, steps)
    ensures AllRender(f, Edits(f, steps))
    decreases |steps|
  {
    if steps != [] {
      var n := |steps| - 1;
      QuotableRenders(f, steps[..n]);
      if Configuring(steps[n]) { BlockForRenders(f, steps[n].quotedURL); }
    }
  }

  /** Whether the block selects a provider makes no difference to the fences it holds. */
  lemma BlockForIsEven(f: Fence, quotedURL: string)
    requires Qualified(f)
    ensures EvenRender(f, BlockFor(f, quotedURL))
  {
    forall lines: seq<string>
      ensures Count(BlockFor(f, quotedURL)(lines), f.open) == Count(BlockFor(f, quotedURL)([]), f.open)
    {
      RenderCount(f, quotedURL, SelectsProvider(lines));
      RenderCount(f, quotedURL, SelectsProvider([]));
    }
  }

  lemma RenderCount(f: Fence, quotedURL: string, preserveProvider: bool)
    requires Qualified(f)
    ensures Count(RenderBlock(f, quotedURL, preserveProvider), f.open) ==
            LineCount([f.open] + [Notice], f.open) + LineCount(SettingLines(quotedURL) + [f.close], f.open)
  {
    var head, tail := [f.open] + [Notice], SettingLines(quotedURL) + [f.close];
    var choice := if preserveProvider then [] else [CachyProvider];
    var all := [f.open] + BlockLines(quotedURL, preserveProvider) + [f.close];
    AllLinesSplit(f, quotedURL, preserveProvider);
    LineCountConcat(head + choice, tail, f.open);
    LineCountConcat(head, choice, f.open);
    ChoiceCount(f, choice);
    JoinCount(all, f.open);
    CountBreak(Join(all, "\n"), "", f.open);
    assert Join(all, "\n") + "\n" + "" == Join(all, "\n") + "\n";
  }

  lemma ChoiceCount(f: Fence, choice: seq<string>)
    requires Qualified(f) && (choice == [] || choice == [CachyProvider])
    ensures LineCount(choice, f.open) == 0
  {
    if choice != [] {
      SettingsHaveNoHash();
      HashFree(CachyProvider, f.open);
      CountZero(CachyProvider, f.open);
      assert [CachyProvider][1..] == [];
    }
  }

  /** After any run of installs, repairs and uninstalls, repairing with this URL plans the
      file that installing it on the original text plans. */
  ghost predicate LastWriterWins(f: Fence, text: string, quotedURL: string) {
    forall steps :: AllQuotable(f, steps) ==>
      PlanFor(f, After(f, text, steps), Repair, quotedURL) == PlanFor(f, text, Install, quotedURL)
  }

  /** A run of one uninstall. */
  const OneUninstall := [Step(Uninstall, "")]

  lemma UninstallOnce(f: Fence, text: string)
    ensures After(f, text, OneUninstall) == Remove(f, text) && AllQuotable(f, OneUninstall)
    ensures !Configures(OneUninstall)
  {
    assert OneUninstall[..0] == [];
  }

  lemma WinsAfter(f: Fence, text: string, steps: seq<Step>, quotedURL: string)
    requires Qualified(f) && Free(f, Remove(f, text)) && AllQuotable(f, steps)
    ensures PlanFor(f, After(f, text, steps), Repair, quotedURL) == PlanFor(f, text, Install, quotedURL)
  {
    AfterIsRun(f, text, steps);
    QuotableRenders(f, steps);
    LastInstallWins(f, text, Edits(f, steps), BlockFor(f, quotedURL));
  }

  lemma LosesAfterUninstall(f: Fence, text: string, quotedURL: string)
    requires Qualified(f) && !Free(f, Remove(f, text))
    ensures PlanFor(f, After(f, text, OneUninstall), Repair, quotedURL) != PlanFor(f, text, Install, quotedURL)
  {
    UninstallOnce(f, text);
    BlockForIsEven(f, quotedURL);
    SecondBlockShows(f, text, BlockFor(f, quotedURL));
  }

  /** Last writer wins, if and only if one removal clears the text of begin markers. */
  lemma LastWriterWinsIff(f: Fence, text: string, quotedURL: string)
    requires Qualified(f)
    ensures LastWriterWins(f, text, quotedURL) <==> Free(f, Remove(f, text))
  {
    if Free(f, Remove(f, text)) {
      forall steps | AllQuotable(f, steps)
        ensures PlanFor(f, After(f, text, steps), Repair, quotedURL) == PlanFor(f, text, Install, quotedURL)
      {
        WinsAfter(f, text, steps, quotedURL);
      }
    } else {
      UninstallOnce(f, text);
      LosesAfterUninstall(f, text, quotedURL);
    }
  }

  /** The user's text after an uninstall that follows these steps: what an uninstall alone
      leaves, and if the steps configured anything, with its trailing line breaks trimmed
      and one line break if it is not blank. */
  function Restored(f: Fence, text: string, steps: seq<Step>): string {
    var user := Remove(f, text);
    var trimmed := TrimRight(user, LineBreak);
    if !Configures(steps) then user else if TrimSpace(trimmed) == "" then trimmed else trimmed + "\n"
  }

  ghost predicate UninstallsRestore(f: Fence, text: string) {
    forall steps :: AllQuotable(f, steps) ==>
      PlanFor(f, After(f, text, steps), Uninstall, "") == Ok(Restored(f, text, steps))
  }

  /** On a text that one removal clears of begin markers, uninstalling after any run leaves
      the user's text, and every trimmed line of it. */
  lemma UninstallRestores(f: Fence, text: string, steps: seq<Step>)
    requires Qualified(f) && Free(f, Remove(f, text)) && AllQuotable(f, steps)
    ensures PlanFor(f, After(f, text, steps), Uninstall, "") == Ok(Restored(f, text, steps))
    ensures TrimmedLines(Restored(f, text, steps)) == TrimmedLines(Remove(f, text))
  {
    AfterIsRun(f, text, steps);
    QuotableRenders(f, steps);
    RemoveRestores(f, text, Edits(f, steps));
    TidyKeepsLines(Remove(f, text));
    ConfiguresInstalls(f, steps);
    var trimmed := TrimRight(Remove(f, text), LineBreak);
    assert trimmed + "" == trimmed;
  }

  /** Uninstalling after any run restores the user's text, if and only if one removal
      clears the text of begin markers. */
  lemma UninstallRestoresIff(f: Fence, text: string)
    requires Qualified(f)
    ensures UninstallsRestore(f, text) <==> Free(f, Remove(f, text))
  {
    if Free(f, Remove(f, text)) {
      forall steps | AllQuotable(f, steps)
        ensures PlanFor(f, After(f, text, steps), Uninstall, "") == Ok(Restored(f, text, steps))
      {
        UninstallRestores(f, text, steps);
      }
    } else {
      UninstallOnce(f, text);
      RemovalLowersCount(f, Remove(f, text));
    }
  }

  /** A file with a block and another begin marker: installing into it and installing
      after an uninstall leave different files. */
  lemma SecondBeginMatters(f: Fence, quotedURL: string)
    requires Qualified(f)
    ensures var text := TwoOpenings(f);
            PlanFor(f, After(f, text, OneUninstall), Repair, quotedURL) != PlanFor(f, text, Install, quotedURL)
  {
    TwoOpeningsStay(f);
    LosesAfterUninstall(f, TwoOpenings(f), quotedURL);
  }

  predicate Configures(steps: seq<Step>) {
    exists i :: 0 <= i < |steps| && Configuring(steps[i])
  }

  lemma ConfiguresLast(steps: seq<Step>)
    requires steps != []
    ensures Configures(steps) <==> Configures(steps[..|steps| - 1]) || Configuring(steps[|steps| - 1])
  {
    var before := steps[..|steps| - 1];
    if Configures(before) {
      var i :| 0 <= i < |before| && Configuring(before[i]);
      assert Configuring(steps[i]);
    }
    if Configures(steps) && !Configuring(steps[|steps| - 1]) {
      var i :| 0 <= i < |steps| && Configuring(steps[i]);
      assert Configuring(before[i]);
    }
  }

  lemma {:induction false} ConfiguresInstalls(f: Fence, steps: seq<Step>)
    ensures Installs(Edits(f, steps)) <==> Configures(steps)
    decreases |steps|
  {
    if steps != [] {
      var n := |steps| - 1;
      ConfiguresInstalls(f, steps[..n]);
      ConfiguresLast(steps);
      var before, own := Edits(f, steps[..n]), EditOf(f, steps[n]);
      if own == [] {
        assert before + [] == before;
      } else {
        assert (before + own)[..|before|] == before;
        InstallsLast(before + own);
      }
    }
  }

  // ----- Which provider is selected -----

  /** The lines that select a provider. */
  function Providers(lines: seq<string>): seq<string> {
    if lines == [] then []
    else (if ProviderLine(lines[0]) then [lines[0]] else []) + Providers(lines[1..])
  }

  lemma {:induction false} ProvidersConcat(a: seq<string>, b: seq<string>)
    ensures Providers(a + b) == Providers(a) + Providers(b)
    decreases |a|
  {
    if a == [] {
      assert a + b == b && Providers(a) + Providers(b) == Providers(b);
    } else {
      assert (a + b)[0] == a[0] && (a + b)[1..] == a[1..] + b;
      ProvidersConcat(a[1..], b);
      Assoc(if ProviderLine(a[0]) then [a[0]] else [], Providers(a[1..]), Providers(b));
    }
  }

  lemma {:induction false} ProvidersSelect(lines: seq<string>)
    ensures Providers(lines) != [] <==> SelectsProvider(lines)
  {
    if lines != [] {
      ProvidersSelect(lines[1..]);
      if SelectsProvider(lines) && !ProviderLine(lines[0]) {
        var i :| 0 <= i < |lines| && ProviderLine(lines[i]);
        assert lines[1..][i - 1] == lines[i];
      }
      if SelectsProvider(lines[1..]) {
        var i :| 0 <= i < |lines[1..]| && ProviderLine(lines[1..][i]);
        assert lines[i + 1] == lines[1..][i];
      }
    }
  }

  /** What one line of a block adds to the provider lines. */
  function Selected(line: string): seq<string> {
    Providers(Trimmed([line]))
  }

  lemma TrimKeepsFirst(line: string)
    requires line != [] && !IsSpace(line[0])
    ensures TrimSpace(line) != [] && TrimSpace(line)[0] == line[0]
  {
    TrimLeftIs([], line, Space);
    assert [] + line == line;
    var dropped := TrimRightSplits(line, Space);
    TrimSpaceBlank(line);
  }

  lemma OneTrimmed(line: string)
    requires TrimSpace(line) != []
    ensures Trimmed([line]) == [TrimSpace(line)]
    ensures Selected(line) == if ProviderLine(TrimSpace(line)) then [TrimSpace(line)] else []
  {
    var t := TrimSpace(line);
    assert [line][1..] == [];
    assert Trimmed([line]) == [t];
    assert [t][1..] == [] && Providers([t][1..]) == [];
    assert [t] + [] == [t];
  }

  /** A line that starts with a visible character other than m selects nothing. */
  lemma QuietLine(line: string)
    requires line != [] && !IsSpace(line[0]) && line[0] != 'm'
    ensures Selected(line) == []
  {
    TrimKeepsFirst(line);
    OneTrimmed(line);
    NeedsM(TrimSpace(line));
  }

  lemma NeedsM(line: string)
    requires line != [] && line[0] != 'm'
    ensures !ProviderLine(line)
  {
  }

  lemma CachySelects()
    ensures Selected(CachyProvider) == [CachyProvider]
  {
    TrimSpaceTight(CachyProvider);
    OneTrimmed(CachyProvider);
    CachyIsProvider();
  }

  lemma CachyStart()
    ensures |CachyProvider| == 24 && CachyProvider[0] == 'm'
    ensures CachyProvider[..14] == "model_provider"
  {
  }

  lemma CachyEquals()
    ensures Contains(CachyProvider, "=")
  {
    assert CachyProvider[15..16] == "=";
    assert Occurs(CachyProvider, "=", 15);
  }

  lemma IsProvider(line: string)
    requires |line| > 14 && line[0] == 'm' && line[..14] == "model_provider" && Contains(line, "=")
    ensures ProviderLine(line)
  {
    assert "#"[0] != line[0] && "["[0] != line[0];
  }

  lemma CachyIsProvider()
    ensures ProviderLine(CachyProvider)
  {
    CachyStart();
    CachyEquals();
    IsProvider(CachyProvider);
  }

  lemma {:induction false} ProvidersByLine(lines: seq<string>, quiet: bool)
    requires lines != [] && (quiet ==> forall i :: 0 <= i < |lines| ==> Selected(lines[i]) == [])
    ensures Providers(Trimmed(lines)) == Selected(lines[0]) + Providers(Trimmed(lines[1..]))
    ensures quiet ==> Providers(Trimmed(lines)) == []
    decreases |lines|
  {
    assert lines == [lines[0]] + lines[1..];
    TrimmedConcat([lines[0]], lines[1..]);
    ProvidersConcat(Trimmed([lines[0]]), Trimmed(lines[1..]));
    if quiet && lines[1..] != [] { ProvidersByLine(lines[1..], quiet); }
  }

  predicate Quiet(lines: seq<string>) {
    forall i :: 0 <= i < |lines| ==> lines[i] != [] && !IsSpace(lines[i][0]) && lines[i][0] != 'm'
  }

  lemma QuietSelectNothing(lines: seq<string>)
    requires Quiet(lines)
    ensures Providers(Trimmed(lines)) == []
  {
    forall i | 0 <= i < |lines| ensures Selected(lines[i]) == [] { QuietLine(lines[i]); }
    if lines != [] { ProvidersByLine(lines, true); }
  }

  lemma AroundProvider(before: seq<string>, middle: seq<string>, after: seq<string>)
    requires Quiet(before) && Quiet(after)
    ensures Providers(Trimmed(before + middle + after)) == Providers(Trimmed(middle))
  {
    QuietSelectNothing(before);
    QuietSelectNothing(after);
    TrimmedConcat(before + middle, after);
    TrimmedConcat(before, middle);
    ProvidersConcat(Trimmed(before + middle), Trimmed(after));
    ProvidersConcat(Trimmed(before), Trimmed(middle));
    var p := Providers(Trimmed(middle));
    assert [] + p == p && p + [] == p;
  }

  /** The lines of a block that do not select a provider: after the notice and the choice. */
  function SettingLines(quotedURL: string): seq<string> {
    ["[model_providers.cachy]"] + ["name = \"Cachy\""] + ["base_url = " + quotedURL]
    + ["env_key = \"OPENAI_API_KEY\""] + ["wire_api = \"responses\""]
  }

  lemma SettingLinesQuiet(quotedURL: string)
    ensures Quiet(SettingLines(quotedURL))
  {
    assert ("base_url = " + quotedURL)[0] == 'b';
  }

  lemma AllLinesSplit(f: Fence, quotedURL: string, preserveProvider: bool)
    ensures [f.open] + BlockLines(quotedURL, preserveProvider) + [f.close] ==
            ([f.open] + [Notice]) + (if preserveProvider then [] else [CachyProvider])
            + (SettingLines(quotedURL) + [f.close])
  {
  }

  lemma BlockLinesProviders(f: Fence, quotedURL: string, preserveProvider: bool)
    requires f.open != [] && f.close != [] && f.open[0] == '#' && f.close[0] == '#'
    ensures Providers(Trimmed([f.open] + BlockLines(quotedURL, preserveProvider) + [f.close])) ==
            if preserveProvider then [] else [CachyProvider]
  {
    AllLinesSplit(f, quotedURL, preserveProvider);
    SettingLinesQuiet(quotedURL);
    assert Notice[0] == '#';
    var choice := if preserveProvider then [] else [CachyProvider];
    AroundProvider([f.open] + [Notice], choice, SettingLines(quotedURL) + [f.close]);
    CachySelects();
  }

  lemma LinesOfJoined(lines: seq<string>)
    requires lines != [] && AllFree(lines, "\n")
    ensures TrimmedLines(Join(lines, "\n") + "\n") == Trimmed(lines)
  {
    forall i | 0 <= i < |lines| ensures CleanBefore(lines[i], "\n") { FreeIsCleanBefore(lines[i], "\n"); }
    SplitJoin(lines, "\n");
    LinesNewline(Join(lines, "\n"));
  }

  predicate OneLine(s: string) {
    '\n' !in s
  }

  lemma BlockIsOneLiners(f: Fence, quotedURL: string, preserveProvider: bool)
    requires OneLine(f.open) && OneLine(f.close) && OneLine(quotedURL)
    ensures AllFree([f.open] + BlockLines(quotedURL, preserveProvider) + [f.close], "\n")
  {
    var all := [f.open] + BlockLines(quotedURL, preserveProvider) + [f.close];
    forall i | 0 <= i < |all| ensures Index(all[i], "\n") < 0 {
      assert OneLine(all[i]) by { BlockLineCases(f, quotedURL, preserveProvider, i); }
      CleanPart(all[i], "\n");
    }
  }

  lemma NoticeIsOneLine()
    ensures OneLine(Notice)
  {
    assert OneLine("# Managed by Cachy. ") && OneLine("Remove with: ");
    LongPieceIsOneLine();
    OneLineConcat("# Managed by Cachy. ", "Remove with: ");
    OneLineConcat("# Managed by Cachy. " + "Remove with: ", "cachy integrations codex uninstall");
  }

  lemma LongPieceIsOneLine()
    ensures OneLine("cachy integrations codex uninstall")
  {
  }

  lemma OneLineConcat(a: string, b: string)
    requires OneLine(a) && OneLine(b)
    ensures OneLine(a + b)
  {
  }

  lemma ShortSettingsAreOneLine()
    ensures OneLine(CachyProvider) && OneLine("name = \"Cachy\"") && OneLine("base_url = ")
  {
  }

  lemma OtherSettingsAreOneLine()
    ensures OneLine("[model_providers.cachy]") && OneLine("env_key = \"OPENAI_API_KEY\"")
    ensures OneLine("wire_api = \"responses\"")
  {
  }

  lemma BlockLineCases(f: Fence, quotedURL: string, preserveProvider: bool, i: nat)
    requires OneLine(f.open) && OneLine(f.close) && OneLine(quotedURL)
    requires i < |[f.open] + BlockLines(quotedURL, preserveProvider) + [f.close]|
    ensures OneLine(([f.open] + BlockLines(quotedURL, preserveProvider) + [f.close])[i])
  {
    NoticeIsOneLine();
    ShortSettingsAreOneLine();
    OtherSettingsAreOneLine();
  }

  lemma PlacedLines(core: string, block: string)
    ensures var placed := (if core == "" then "" else core + "\n\n") + block;
            TrimmedLines(placed) == TrimmedLines(core) + TrimmedLines(block)
  {
    LinesOfBlank();
    if core == "" {
      assert "" + block == block && [] + TrimmedLines(block) == TrimmedLines(block);
    } else {
      TwoBreaks(core, block);
      LinesBreak(core, "\n" + block);
      LinesNewline(block);
    }
  }

  /** The file an install leaves: the user's text without trailing line breaks, a blank line
      and the lines of the block. */
  lemma InstallText(f: Fence, text: string, quotedURL: string)
    ensures var user := TrimRight(Remove(f, text), LineBreak);
            var lines := [f.open] + BlockLines(quotedURL, SelectsProvider(TrimmedLines(Remove(f, text)))) + [f.close];
            InstallBlock(f, text, quotedURL) ==
            (if user == "" then "" else user + "\n\n") + (Join(lines, "\n") + "\n")
  {
    InstallIsPlace(f, text, BlockFor(f, quotedURL));
    LinesTrimRight(Remove(f, text));
  }

  /** The file holds the user's trimmed lines and then those of a block with this URL, which
      selects a provider unless the user does. */
  predicate HoldsBlock(f: Fence, user: string, quotedURL: string, file: string) {
    var lines := [f.open] + BlockLines(quotedURL, SelectsProvider(TrimmedLines(user))) + [f.close];
    && TrimmedLines(file) == TrimmedLines(user) + Trimmed(lines)
    && TrimSpace("base_url = " + quotedURL) in TrimmedLines(file)
  }

  /** After an install or a repair the file holds the block. */
  lemma InstallPlan(f: Fence, text: string, quotedURL: string)
    requires Qualified(f) && OneLine(quotedURL)
    ensures PlanFor(f, text, Install, quotedURL) == PlanFor(f, text, Repair, quotedURL)
    ensures PlanFor(f, text, Install, quotedURL).Ok?
    ensures HoldsBlock(f, Remove(f, text), quotedURL, PlanFor(f, text, Install, quotedURL).value)
  {
    var user := Remove(f, text);
    var lines := [f.open] + BlockLines(quotedURL, SelectsProvider(TrimmedLines(user))) + [f.close];
    InstallText(f, text, quotedURL);
    BlockIsOneLiners(f, quotedURL, SelectsProvider(TrimmedLines(user)));
    LinesOfJoined(lines);
    LinesTrimRight(user);
    PlacedLines(TrimRight(user, LineBreak), Join(lines, "\n") + "\n");
    BaseUrlShows(f, quotedURL, SelectsProvider(TrimmedLines(user)));
  }

  lemma BaseUrlShows(f: Fence, quotedURL: string, preserveProvider: bool)
    ensures TrimSpace("base_url = " + quotedURL) in
            Trimmed([f.open] + BlockLines(quotedURL, preserveProvider) + [f.close])
  {
    var line, lines := "base_url = " + quotedURL, [f.open] + BlockLines(quotedURL, preserveProvider) + [f.close];
    AllLinesSplit(f, quotedURL, preserveProvider);
    assert line in SettingLines(quotedURL);
    assert line in lines;
    TrimSpaceBlank(line);
    assert line[0] == 'b';
    TrimmedMembers(lines, TrimSpace(line));
  }

  /** The file lost its first block: nothing else if there is none, otherwise one begin
      marker at least, and the lines before and after a closed block stay. */
  predicate LostBlock(f: Fence, text: string, file: string) {
    if Free(f, text) then file == text
    else
      && Count(file, f.open) < Count(text, f.open)
      && var (pre, post) := Parts(f, text);
         if post.None? then file == pre
         else TrimmedLines(file) == TrimmedLines(pre) + TrimmedLines(post.value)
  }

  lemma UninstallPlan(f: Fence, text: string, quotedURL: string)
    requires Qualified(f)
    ensures PlanFor(f, text, Uninstall, quotedURL).Ok?
    ensures LostBlock(f, text, PlanFor(f, text, Uninstall, quotedURL).value)
  {
    if !Free(f, text) {
      RemovalLowersCount(f, text);
      RemovalKeepsLines(f, text);
    }
  }

  /** An install never overrides a provider the user selected, and selects Cachy when
      there is none: the provider lines of the file are the user's own, or Cachy's. */
  lemma InstallProviders(f: Fence, text: string, quotedURL: string)
    requires Qualified(f) && OneLine(quotedURL)
    ensures var users := Providers(TrimmedLines(Remove(f, text)));
            Providers(TrimmedLines(InstallBlock(f, text, quotedURL))) == if users == [] then [CachyProvider] else users
  {
    var lines := TrimmedLines(Remove(f, text));
    InstallPlan(f, text, quotedURL);
    ProvidersSelect(lines);
    BlockLinesProviders(f, quotedURL, SelectsProvider(lines));
    ProvidersConcat(lines, Trimmed([f.open] + BlockLines(quotedURL, SelectsProvider(lines)) + [f.close]));
    assert [] + [CachyProvider] == [CachyProvider] && Providers(lines) + [] == Providers(lines);
  }

  /** A provider line is one that starts with the key and holds an equals sign. */
  lemma ProviderLineIff(line: string)
    ensures ProviderLine(line) <==> |line| >= 14 && line[..14] == "model_provider" && '=' in line
  {
    if '=' in line {
      var k :| 0 <= k < |line| && line[k] == '=';
      assert line[k..k + 1] == "=";
      assert Occurs(line, "=", k);
    }
    if Contains(line, "=") {
      OccursChar(line, "=", Index(line, "="), 0);
    }
    if |line| >= 14 && line[..14] == "model_provider" {
      assert line[0] == "model_provider"[0];
      assert "#"[0] != line[0] && "["[0] != line[0];
    }
  }
}

# Cachy, verified

A Dafny model of the parts of Cachy whose correctness cannot be settled by examples, and proofs about them:

- **The content-addressed store** (`Store`, `ContentStore`, `Retention`, `Marker`): Put, Get and Cleanup as a protocol over one file system with inodes, in which any number of calls interleave step by step and may fail or crash anywhere; the store object used by one caller at a time; two-phase retention; the retrieval marker printer and parser.
- **The native compressors** (`RunLength`, `Diff`): run-length collapsing of log lines, paragraphs and code lines, and diff compression, from split to join.
- **The compression pipeline** (`Pipeline`, `Tokens`, `LiveZone`): arbitrary compressor replies, the token estimator, and the detection of blocks in parsed requests.
- **Reversible configuration edits** (`ManagedBlock`, `Codex`, `Claude`): the fenced block in a Codex configuration and the Claude settings, over whole runs of install, repair and uninstall.
- **Telemetry retention** (`Telemetry`): the in-memory record log and schedules of cleanups.

`Text`, `Lines` and `Outcome` hold the string library and the result types they share.

## How things are modelled

- A text is a sequence of Unicode code points. Where the source counts bytes (the marker limit, the length of a digest) the model counts UTF-8 bytes (`Marker.ByteLen`). `unicode.IsSpace` is modelled exactly; `unicode.IsPunct` and `unicode.IsSymbol` are parameters.
- SHA-256 is a parameter: any function from byte strings to 64 lower-case hex digits. Freedom from collisions is assumed only where a statement says so, and only between one content and the contents of the run (`Store.Unambiguous`).
- The file system is a directory of names that point to inodes, so a file can be written or read after its name is gone. Rename is atomic, temporary names are not reused within a run, and `os.ErrExist` from a rename means that the object is there.
- A compressor is what it replies: each run of the pipeline takes an arbitrary list of replies for every block, which covers stateful and hostile compressors. A proposal is well-formed UTF-8 or not.
- Requests and settings enter as parsed trees, a URL in a Codex block enters already quoted, content classification is an arbitrary function, and clocks and I/O faults are parameters.
- Times, sizes and token counts are mathematical integers; a marker's byte count is a 64-bit `int`. The estimator's `math.Ceil(float64(n)/4.0)` is integer division rounded up, which agrees for every length a string can have.

## What turned out

Some properties a reader might expect are false of the code. Each has a lemma at an input that fails and a theorem that says exactly when the property holds:

- Collapsed text is not always readable: a line of the input that looks like a marker is taken for one (`RunLength.MarkerIsMisread`). `RunLength.ExpandCollapseIff` says exactly which lists can be read back.
- Nor is collapsing idempotent on such lines (`RunLength.CollapseNotIdempotent`, `RunLength.CollapseIdempotentIff`).
- Diff compression is not idempotent: a marker left by the first pass is a single context line for the second, which drops it without a trace (`Diff.DiffNotIdempotent`). It is idempotent exactly when every gap holds at most one context line (`Diff.CompressDiffIdempotentIff`).
- A Codex configuration with a second begin marker loses one block per edit, so the result of an install depends on what ran before (`Codex.SecondBeginMatters`). Last writer wins, and uninstalling restores the text, exactly when one removal clears the text of begin markers (`Codex.LastWriterWinsIff`, `Codex.UninstallRestoresIff`).
- Claude install adopts a user's own URL when it equals the requested one, and a later repair or uninstall then overwrites or removes it (`Claude.AdoptedUrlIsLost`); an entry under that name that is empty or not a string is overwritten and removed in any case (`Claude.UnusableUrlIsLost`). `Claude.UserUrlAfterRunIff`, `Claude.UserUrlThroughoutIff`, `Claude.LastWriterWinsIff` and `Claude.InstallUninstallRestoresIff` give the exact conditions, over whole runs where there is a run.
- An early telemetry cleanup can lose a record that a single late cleanup would keep (`Telemetry.OutOfOrderCanLose`). `Telemetry.ScheduleIsIrrelevantIff` says exactly when no schedule loses anything, as when start times are in order or everything fits, and `Telemetry.ClockedScheduleIff` does so for cleanups that are never dated before a start already recorded.
- A decision's error can come from an earlier compressor than the one its reason is about, even when a proposal was applied (`Pipeline.AppliedWithError`); `Pipeline.LeftOverIff` says exactly when.
- Blocks of an Anthropic request can share a path, because all system texts have the same one (`LiveZone.SystemPathsCollide`, `LiveZone.AnthropicPathsIff`).

## Model

| member | source | states |
|---|---|---|
| Store.InvStep | internal/ccr/store.go:32-88 | every step of every process (partial write, close, rename, deferred removal, read, eviction, failure, crash) keeps the store invariant: final objects are complete and hash to their names, files being written are private to their writer, readers hold sealed files |
| Store.ObjectsAreComplete | internal/ccr/store.go:49-69 | in every state of every interleaving, each file at a final object path holds a whole content handed to the store, and that content hashes to the file's name |
| Store.GetIsExact | internal/ccr/store.go:73-88 | in every interleaving with Puts and evicting Cleanups, a finished Get for the digest and the size of c yields exactly c, not found or a read failure: never partial bytes and never a hash mismatch |
| Store.PutReports | internal/ccr/store.go:35-70 | in every interleaving, a Put reports success if and only if it found the object, put it in place, or was told by the rename that it had appeared |
| Store.NeverStuck | internal/ccr/store.go:32-88 | until it is done, a Put or Get always has a step without faults, but for a Put whose temporary file was evicted |
| Store.RunAcknowledged | internal/ccr/store.go:35-70 | as long as the object of a digest is not evicted, whatever else is, every Put of such a content that reported success has its object in place, in every interleaving, including the stat hit and the rename that finds the object already there |
| Store.Recovery | internal/ccr/store.go:32-88 | end to end through the marker: once a Put of c has succeeded, a Get started later with the address parsed from its rendered marker yields exactly c unless reading fails, under any interleaving that does not evict the object of c |
| Store.TempsAreHeld | internal/ccr/store.go:44-51 | in every interleaving, a temporary file made during the run is held by a Put that has yet to remove it, unless that Put crashed or failed to remove it |
| Store.PutAddressTravels | internal/ccr/marker.go:45-63 | the address of any content is the algorithm, the digest and the number of bytes; it renders to a marker that parses back to it |
| ContentStore.ObjectStore.Put | internal/ccr/store.go:32-71 | on success the address is the algorithm, the digest and the size of the content, and the object set gains exactly the content under its digest; on any failure, a failing stat included, the set is unchanged; no temporary file is left unless its removal fails |
| ContentStore.PutIsARun | internal/ccr/store.go:32-71 | a Put with any faults is one of the protocol's runs, from the same disk to the same disk and outcome |
| ContentStore.PutEffect | internal/ccr/store.go:32-71 | the disk a Put leaves is sound, and its object set is the old one with the content added or the old one |
| ContentStore.PutIdempotent | internal/ccr/store.go:32-71 | on any disk and under any faults: after a Put that succeeded, another Put of the content leaves the very same disk and succeeds exactly if its stat does; after one that failed, a retry leaves the object set a first try would have left |
| ContentStore.PutsCommuteIff | internal/ccr/store.go:32-71 | on any disk and under any faults, the order of two Puts shows in the object set if and only if both work and different contents collide on a digest not yet stored |
| ContentStore.ObjectStore.Get | internal/ccr/store.go:73-95 | succeeds exactly when the address is valid, its object exists and is readable, and digest and number of bytes match, and then returns that object; invalid and missing addresses are told apart |
| ContentStore.ObjectStore.Diagnose | internal/ccr/retention.go:45-59 | reports the number of files on the disk and the sum of their bytes |
| ContentStore.ObjectStore.Cleanup | internal/ccr/retention.go:61-92 | file by file the candidates follow the policy, and exactly those that do not fail to be removed are removed; every counter is the number or the byte total of the files it speaks of, before and after; removed + failed = would-remove and removed + kept = all, bytes likewise; without failures the bytes on the disk are within the limit and a second cleanup at the same time finds nothing; a dry run changes nothing |
| ContentStore.WalkAfter | internal/ccr/retention.go:61-92 | any walk of the disk a cleanup leaves finds exactly the remaining objects of the walk it worked on |
| Retention.CleanupCandidates | internal/ccr/retention.go:94-122 | the two phases are one cut: the removed paths are those of the oldest max(expired, least cut within the byte limit) objects in the age order the sort produced, whatever it does with ties |
| Retention.CandidatesFollowPolicy | internal/ccr/retention.go:97-120 | for distinct paths, object by object: modified before now minus the age limit, it goes; otherwise it goes only if there is a byte limit and the objects modified no earlier exceed it, and stays only if it fits together with the newer ones |
| Retention.CandidatesIff | internal/ccr/retention.go:97-120 | an object whose modification time no other shares goes if and only if it is past the age limit or the objects modified no earlier exceed the byte limit |
| Retention.LeastCut | internal/ccr/retention.go:105-120 | the number of evicted objects is the least whose removal brings the rest within the limit |
| Retention.TwoPhases | internal/ccr/retention.go:97-120 | expiring first and evicting by size from the rest equals one cut of everything in age order |
| Retention.StricterRemovesMore | internal/ccr/retention.go:94-122 | with distinct modification times, a stricter policy removes a superset, whichever orders the two sorts produce |
| Retention.RemainingIsTail | internal/ccr/retention.go:71-90 | with distinct paths, what a cleanup leaves is exactly the young end of the age order |
| Retention.CleanupIsComplete | internal/ccr/retention.go:61-122 | of the objects a cleanup leaves, in any order, the bytes are within the limit and a second cleanup at the same time removes none |
| Marker.RenderParse | internal/ccr/marker.go:54-100 | every valid address renders to 95 bytes plus its digits, at most 114, and the marker parses back to the same address |
| Marker.ParseRender | internal/ccr/marker.go:65-123 | every accepted text canonicalises: its address is valid and renders to a marker that is no longer and means the same address |
| Marker.RenderInjective | internal/ccr/marker.go:54-63 | different addresses never share a marker |
| Marker.MarkerText | internal/ccr/marker.go:54-63 | the marker of a valid address, character by character |
| Marker.ValidAddressIff | internal/ccr/marker.go:109-123 | valid addresses are those with algorithm sha256, 64 hex digits of either case and a size that is not negative |
| Marker.ParseMarkerIff | internal/ccr/marker.go:65-100 | a text is accepted for an address if and only if that is valid and the text, of at most 128 bytes, is the brackets around three words: version v1, the digest and the size, in decimal with leading zeros or a sign |
| RunLength.CollapseAdjacent | internal/compress/native_text_log.go:35-56 | the two nested scans compute the run-length collapse |
| RunLength.ExpandCollapseIff | internal/compress/native_text_log.go:35-56 | expanding the markers of a collapsed list gives as many items as there were, each with the same key, if and only if every item in marker form stands first, repeats its neighbour or follows a run of at least two |
| RunLength.MarkerIsMisread | internal/compress/native_text_log.go:46-51 | an item in marker form after a lone item is read as copies of that item |
| RunLength.CollapseLeavesNoRuns | internal/compress/native_text_log.go:40-54 | no two neighbours of a collapsed list share a non-empty key |
| RunLength.CompressSplits | internal/compress/native_text_log.go:21-33 | splitting the compressed text again gives exactly the collapsed list, for the line break and for the blank-line separator |
| RunLength.LogMarker | internal/compress/native_text_log.go:21-26 | the marker of a run of log lines, spelt out |
| RunLength.TextMarker | internal/compress/native_text_log.go:28-33 | the marker of a run of paragraphs, spelt out |
| RunLength.CodeMarker | internal/compress/native_structured.go:84-93 | the marker of a run of code lines, spelt out |
| RunLength.LogRoundTrip | internal/compress/native_text_log.go:21-26 | a compressed log expands to the original number of lines, each equal up to surrounding white space, if and only if no line will be taken for a marker; so it is when no line is one |
| RunLength.ParagraphRoundTrip | internal/compress/native_text_log.go:28-33 | a compressed text re-splits into the collapsed paragraphs and expands to as many paragraphs, each equal after white-space normalisation, if and only if no paragraph will be taken for a marker; so it is when none is one |
| RunLength.CollapseIdempotentIff | internal/compress/native_text_log.go:35-56 | collapsing twice is collapsing once if and only if, run by run, no marker will be taken for a repeated item; so it is when no key has marker form |
| RunLength.CollapseNotIdempotent | internal/compress/native_text_log.go:46-51 | three equal items and then the marker that counts two change with a second pass |
| RunLength.LogIdempotent | internal/compress/native_text_log.go:21-26 | compressing a log twice is compressing it once if and only if no marker will be taken for a repeated line; so it is when no trimmed line is a marker |
| RunLength.ParagraphIdempotent | internal/compress/native_text_log.go:28-33 | the same condition for paragraphs, whose normalised markers are themselves |
| RunLength.CodeIdempotent | internal/compress/native_structured.go:84-111 | the same condition for code, on its lines with blank runs cut |
| RunLength.CollapseBlankRuns | internal/compress/native_structured.go:95-111 | the flagged loop cuts every run of blank lines to its first |
| RunLength.CutBlanksIs | internal/compress/native_structured.go:95-111 | the lines kept are the first one, those that are not blank and those that do not follow a blank one |
| RunLength.CutCommutes | internal/compress/native_structured.go:84-93 | cutting blank runs and collapsing repeated lines commute |
| RunLength.CodeRoundTrip | internal/compress/native_structured.go:84-111 | compressed code expands to the original lines with blank runs cut, each equal up to surrounding white space, if and only if none of them will be taken for a marker; so it is when no line is one |
| Diff.CompressDiffLines | internal/compress/native_structured.go:46-72 | the loop with its pending counter computes the scan |
| Diff.DiffKeepsMarked | internal/compress/native_structured.go:46-82 | the lines of the compressed text that start with +, - or a header prefix are those of the original, in order |
| Diff.KeptSurvives | internal/compress/native_structured.go:59-82 | the same for any list of lines and any pending count |
| Diff.GapIsCounted | internal/compress/native_structured.go:50-70 | each gap becomes one marker that counts its non-blank context lines, or nothing when there are fewer than two |
| Diff.GapMarker | internal/compress/native_structured.go:50-70 | the marker, spelt out, holds the number of lines of its gap with a visible character |
| Diff.ScanNoLonger | internal/compress/native_structured.go:46-72 | the number of lines never grows |
| Diff.CompressDiffTwice | internal/compress/native_structured.go:46-72 | compressing twice leaves exactly the kept lines, and that is a fixpoint |
| Diff.CompressDiffIdempotentIff | internal/compress/native_structured.go:50-57 | compressing twice equals compressing once if and only if every gap holds at most one context line |
| Diff.DiffNotIdempotent | internal/compress/native_structured.go:50-57 | two context lines alone become a marker, and a second pass drops it |
| Tokens.Estimate | internal/tokens/counter.go:90-130 | the counting loops compute the estimate: the largest of words plus marks, a quarter of the visible characters and an eighth of all, rounded up |
| Tokens.EstimateIsLeast | internal/tokens/counter.go:90-130 | the estimate is the least number with one token for every word and every mark, a quarter for every visible character and an eighth for every character, words being the maximal stretches between delimiters |
| Tokens.EstimateShrinks | internal/tokens/counter.go:90-130 | deleting any characters never raises the estimate |
| Tokens.EstimateSubadditive | internal/tokens/counter.go:90-130 | the estimate of a concatenation is at most the sum of the estimates |
| Tokens.EstimateBounds | internal/tokens/counter.go:90-104 | the estimate is at most the number of characters and zero only for the empty text |
| Tokens.EstimatorIsReliable | internal/tokens/counter.go:55-70 | a counter set without an exact counter for the model never fails and never counts below zero |
| Tokens.CounterSet.RegisterExact | internal/tokens/counter.go:48-53 | registers a counter for one provider and model and touches no other; a nil counter changes nothing |
| Tokens.CounterSet.CountTokens | internal/tokens/counter.go:55-70 | the registered counter decides, its result marked exact and named; without one the estimate does; a failing counter is an error |
| Tokens.CounterSet.MeasureSavings | internal/tokens/counter.go:72-88 | the difference of the two counts, improved exactly when positive; without a registered counter, adding characters to a text is never an improvement |
| Pipeline.Apply | internal/compress/pipeline.go:84-138 | the loops compute every block's decision in place; statistics count the decisions, and applied + skipped is the number of blocks |
| Pipeline.AppliedCountIs | internal/compress/pipeline.go:114-133 | the applied statistic is the number of applied decisions |
| Pipeline.EvaluationIff | internal/compress/pipeline.go:140-170 | a proposal is applied if and only if what it sends, its bytes if it has any, is well formed and counts strictly fewer tokens than the block; ill-formed text, no gain and a failing count are told apart, and the text evaluated is the one sent |
| Pipeline.TryFirst | internal/compress/pipeline.go:99-125 | the first acceptable reply is applied with exactly the text it sent and the counts of both texts, and nothing after it is considered |
| Pipeline.DecideExact | internal/compress/pipeline.go:90-154 | a block changes if and only if it is selected, live and some reply sends well-formed text with fewer tokens; only its text changes, and by the reported delta |
| Pipeline.DecideText | internal/compress/pipeline.go:90-123 | the new text is the one the first such reply sent, and the decision names the block |
| Pipeline.DecisionReport | internal/compress/pipeline.go:99-135 | for all replies: the reason is the verdict on the reply where the loop stopped, and the error is that of the last compressor that failed before it, whether or not something was applied |
| Pipeline.LeftOverIff | internal/compress/pipeline.go:101-123 | a decision carries an error that is not its own if and only if some compressor failed before the loop stopped and the reply where it stopped is no failure |
| Pipeline.AppliedWithError | internal/compress/pipeline.go:101-123 | an applied decision that carries an earlier error |
| Pipeline.Conservation | internal/compress/pipeline.go:84-138 | total tokens out equal total tokens in minus the reported delta, and the delta is at least the number of applied blocks |
| Pipeline.RoundsComeToRest | internal/compress/pipeline.go:84-154 | re-applying the pipeline to its own output changes something in at most as many rounds as there were tokens |
| Pipeline.PaddingIsRejected | internal/compress/pipeline.go:140-154 | under the fallback counter a proposal that contains the original as a subsequence is never applied |
| Pipeline.OpenAIHotZones | internal/compress/pipeline.go:90-123 | for every OpenAI request and any replies, nothing of a message changes unless its role is tool, and then only texts |
| Pipeline.AnthropicHotZones | internal/compress/pipeline.go:90-123 | for every Anthropic request and any replies, nothing of the system changes, and of a message whose role is not tool nothing but the texts of its tool_result parts |
| LiveZone.DetectOpenAI | internal/compress/livezone.go:80-124 | the nested loops produce the blocks of all messages, numbered |
| LiveZone.DetectAnthropic | internal/compress/livezone.go:142-261 | fails exactly when some message content is malformed, and otherwise produces the system and message blocks, numbered |
| LiveZone.OpenAIBlocksIff | internal/compress/livezone.go:80-140 | the blocks of an OpenAI request are exactly the non-empty texts of its messages, each with its path, its message's role, and the source, stability and selection that role gives: tool alone is live |
| LiveZone.AnthropicBlocksIff | internal/compress/livezone.go:165-288 | the message blocks of an Anthropic request are exactly the parts that show a text, each with its path and its message's role; tool_result parts are live whatever the role |
| LiveZone.PartTextReads | internal/compress/livezone.go:237-261 | an Anthropic part shows its own text, or else what its content holds: a string, the non-empty texts of its items, or other JSON as it stands |
| LiveZone.NonEmptyCount | internal/compress/livezone.go:117-122 | collecting texts drops the empty ones and nothing else |
| LiveZone.SystemBlocksIff | internal/compress/livezone.go:148-162 | the system blocks are exactly the non-empty system texts, stable and unselected |
| LiveZone.OpenAISelected | internal/compress/livezone.go:263-288 | a block of an OpenAI request has its message's role and is selected if and only if that is tool |
| LiveZone.AnthropicSelected | internal/compress/livezone.go:176-186 | a block of an Anthropic message is selected if and only if its part is a tool_result or the role of its message is tool |
| LiveZone.OpenAITexts | internal/compress/livezone.go:86-123 | detection finds exactly the non-empty texts of an OpenAI request, in order |
| LiveZone.AnthropicRequestTexts | internal/compress/livezone.go:142-261 | detection finds exactly the non-empty texts of an Anthropic request, those of the system first, in order |
| LiveZone.OpenAIPaths | internal/compress/livezone.go:87-99 | blocks of an OpenAI request have pairwise different paths |
| LiveZone.AnthropicPaths | internal/compress/livezone.go:165-188 | message blocks of an Anthropic request have pairwise different paths |
| LiveZone.AnthropicPathsIff | internal/compress/livezone.go:148-188 | all blocks of an Anthropic request have pairwise different paths if and only if it has at most one non-empty system text |
| LiveZone.SystemPathsCollide | internal/compress/livezone.go:149-162 | two system parts are two blocks with one path |
| LiveZone.DetectedZones | internal/compress/livezone.go:196-288 | in every request, selected, live and tool result coincide, no block is empty, and IDs run from block_1 to block_n |
| ManagedBlock.RemovePlaced | internal/install/codex.go:135-167 | removing an appended block gives the user's text back with one line break if it is not blank |
| ManagedBlock.RunKeepsCore | internal/install/codex.go:98-167 | if one removal clears a text of begin markers, no sequence of installs and removals changes the user's text as the editor sees it |
| ManagedBlock.RemovalLowersCount | internal/install/codex.go:135-152 | one removal strictly lowers the number of begin markers in any text that has some; the join creates none |
| ManagedBlock.RemovalsClear | internal/install/codex.go:135-152 | as many removals as there are begin markers clear the text of them |
| ManagedBlock.RemovalKeepsLines | internal/install/codex.go:135-167 | removing a closed first block keeps the trimmed lines before and after it in order; an unclosed one drops everything after its begin marker |
| ManagedBlock.RemovalIsExact | internal/install/codex.go:135-167 | where removal cuts and how it joins: from the first begin marker to the first end marker after it and its line break, or to the end of the text if there is none |
| Codex.HasTopLevelModelProvider | internal/install/codex.go:169-180 | the scan finds a provider line exactly when one of the trimmed lines is one |
| Codex.ProviderLineIff | internal/install/codex.go:169-180 | a provider line is one that starts with model_provider and holds an equals sign |
| Codex.ManagedQualifies | internal/install/codex.go:12-15 | Cachy's begin and end markers meet what the theorems below ask of a pair of fences |
| Codex.BlockForRenders | internal/install/codex.go:116-133 | for a quoted URL without the end marker, the rendered block opens with the begin marker and its first end marker is its last line |
| Codex.LastWriterWinsIff | internal/install/codex.go:98-180 | after every run of calls with quotable URLs, a repair plans the file that installing its URL on the original text plans, if and only if one removal clears the original text of begin markers; so on such texts installing is idempotent and repairing overrides |
| Codex.SecondBeginMatters | internal/install/codex.go:135-152 | on a file with a block and another begin marker, installing and installing after an uninstall leave different files |
| Codex.UninstallRestoresIff | internal/install/codex.go:98-167 | uninstalling after every run with quotable URLs leaves what an uninstall alone leaves, tidied at its end if the run configured anything, if and only if one removal clears the original text of begin markers |
| Codex.UninstallRestores | internal/install/codex.go:98-167 | on a text that one removal clears of begin markers, with or without a block, uninstalling after any run with quotable URLs leaves the user's text: untouched if the run configured nothing, otherwise with its trailing line breaks trimmed and one line break if it is not blank; every trimmed line is kept |
| Codex.InstallText | internal/install/codex.go:116-160 | the file an install leaves, to the character: the user's text without trailing line breaks, a blank line and the lines of the block |
| Codex.InstallPlan | internal/install/codex.go:98-133 | installing and repairing plan the same: the user's trimmed lines and then the lines of the block, the requested base_url among them |
| Codex.UninstallPlan | internal/install/codex.go:109-152 | uninstalling plans the text itself if it holds no begin marker, and otherwise fewer begin markers and the lines around the first block |
| Codex.InstallProviders | internal/install/codex.go:98-133 | for every text and any quoted URL without a line break: if the text without its block selects a provider, an install leaves exactly those provider lines; otherwise Cachy's is the only one |
| Codex.ConfigFile.Apply | internal/install/codex.go:53-114 | by action: after an install or repair the file holds the user's lines and the block with the requested URL, after an uninstall it has lost its first block, an unknown action is an error; reports a change exactly when the planned text differs, and writes it only outside a dry run |
| Claude.PlanSettings | internal/install/claude.go:101-137 | the step-by-step edits of the nested maps compute the installed and uninstalled settings; an unknown action is an error |
| Claude.InstallWrites | internal/install/claude.go:104-117 | the settings an install leaves of empty ones and of ones with a URL of the user's own, in full |
| Claude.UrlReads | internal/install/claude.go:105-108 | the URL in place and the recorded URL are the strings at their places in the tree |
| Claude.InstalledReads | internal/install/claude.go:104-117 | after an install the requested URL is recorded, the environment holds it unless the user has a URL of their own, and nothing else changed |
| Claude.UninstalledReads | internal/install/claude.go:118-133 | after an uninstall no record is left, the environment URL is gone exactly when it was the recorded one, and the environment exactly when nothing was left in it; nothing else changed |
| Claude.RunKeepsOthers | internal/install/claude.go:101-172 | over any run, every other top-level key and every other environment entry keeps its value |
| Claude.UserUrlAfterRunIff | internal/install/claude.go:101-137 | after any run a user URL is in place if and only if no step asked for it or the last one did |
| Claude.UserUrlThroughoutIff | internal/install/claude.go:101-137 | a user URL is in place after every step of a run if and only if each step that asks for it, the last aside, is followed by another that does |
| Claude.RunKeepsUserUrl | internal/install/claude.go:101-137 | over any run, a non-empty user URL that differs from the recorded one and from every requested one is in place after every step |
| Claude.AdoptedUrlIsLost | internal/install/claude.go:109-125 | a user URL that is the one asked for is gone after install and uninstall |
| Claude.UserUrlSurvivesIff | internal/install/claude.go:109-125 | a user URL survives install and uninstall if and only if it differs from the recorded and from the requested URL |
| Claude.LastWriterWinsIff | internal/install/claude.go:104-117 | a second install overrides the first if and only if the first did not adopt the user's own URL |
| Claude.InstallUninstallYields | internal/install/claude.go:101-137 | what install then uninstall leaves of settings without a Cachy entry: all of them if they hold a URL other than the requested one, and otherwise all but the URL entry and an environment left empty |
| Claude.InstallUninstallRestoresIff | internal/install/claude.go:101-137 | install then uninstall restores settings if and only if they hold no Cachy entry and no malformed environment, and either a URL other than the requested one or no URL entry and no empty environment |
| Claude.UnusableUrlIsLost | internal/install/claude.go:108-125 | a URL entry that is empty or not a string is overwritten by install and removed by uninstall |
| Claude.SettingsFile.Apply | internal/install/claude.go:48-99 | reports a change exactly when the planned settings differ, and writes them only outside a dry run |
| Telemetry.ApplyRetentionPolicy | internal/observability/telemetry.go:129-143 | the loop keeps the fresh records and of those the most recent ones |
| Telemetry.RetainSurvives | internal/observability/telemetry.go:129-154 | record by record: one stays if and only if it has no start time or is no older than the age limit, and fewer such records follow it than the record limit; limits that are not positive mean 24 hours and 1000 records |
| Telemetry.MemoryTelemetryStore.Record | internal/observability/telemetry.go:74-85 | appends the record without prompt preview and credential hint |
| Telemetry.MemoryTelemetryStore.Cleanup | internal/observability/telemetry.go:107-127 | replaces the records by the retained ones when confirmed and only then, and reports what it removed and kept |
| Telemetry.RunStaysPrivate | internal/observability/telemetry.go:74-127 | over any run no stored record carries prompt text or a credential hint |
| Telemetry.ScheduleKeepsSuffix | internal/observability/telemetry.go:107-154 | whatever cleanups ran before, the last one leaves a suffix of what it alone would have left of everything recorded |
| Telemetry.ScheduleIsIrrelevantIff | internal/observability/telemetry.go:107-154 | on any list of records, earlier cleanups at whatever times never make a difference to what the last one leaves if and only if the last maxRecords arrivals hold every record it keeps |
| Telemetry.ClockedScheduleIff | internal/observability/telemetry.go:107-154 | the same for cleanups that follow the clock, none dated before a start already recorded: they never make a difference if and only if, for every prefix of the records, a cleanup at its latest start leaves as many records for the last one as it needs |
| Telemetry.SafeButNotCovered | internal/observability/telemetry.go:129-143 | records on which the clock makes the difference between the two |
| Telemetry.ScheduleIsIrrelevant | internal/observability/telemetry.go:107-154 | earlier cleanups, at whatever times, make no difference when start times are set and in order, or when everything recorded fits |
| Telemetry.OutOfOrderCanLose | internal/observability/telemetry.go:129-143 | out of order, a cleanup that follows the clock can lose a record that one late cleanup keeps |

## Left out

- `json.Unmarshal`, `json.Compact`, `url.Parse`, `%q` quoting and UTF-8 decoding: library code; the model starts from parsed trees and quoted text, and a text with ill-formed UTF-8 is outside the model.
- `ClassifyContent` and its heuristics: substring tests, left as an arbitrary classification; the dispatch of the native compressors by content type is left out with them.
- `cloneJSONMap`: settings are values in the model, so copying them is the identity and aliasing between the copy and the original is not captured.
- File paths as strings, permissions and directory creation: an object path is its digest, a temporary file its number; `MkdirAll` is part of the setup that may fail.
- The walk of a concurrent Cleanup may miss or repeat files in the protocol; only the store used by one caller at a time relates the walk to the retention policy.
- An error from the walk over the objects directory, which ends Diagnostics and Cleanup before anything is removed: the model starts from a finished walk.
- Locks of the telemetry store, nil receivers, result messages of the installers, and reading or writing failures of their files.
- Proxy, admin server, command line, doctor, plugin host, release tooling, marker emission policy and the desktop application: plumbing and finite tables that would only add easy members.
- ContentStore.ObjectStore.Put: a rename that fails because the object appeared in the meantime cannot happen with one caller; it is a step of the protocol in `Store`.

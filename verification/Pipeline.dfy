/**
 The validation pipeline (internal/compress/pipeline.go). Compressors are arbitrary:
 a run of the pipeline is given what each compressor would reply for each block, so
 stateful and malicious compressors are covered. The theorems hold for any replies.
 */
module Pipeline {
  import opened Outcome
  import opened Tokens
  import opened LiveZone

  /** A byte string as the pipeline sees it: well-formed UTF-8 or not. */
  datatype Raw = Utf8(text: string) | Malformed

  datatype Proposal = Proposal(text: Raw, bytes: Option<Raw>)

  datatype Reply = Proposed(proposal: Proposal) | Failed(error: string)

  datatype Reason = Unset | Applied | NotSelected | NoGain | InvalidUTF8 | CompressorError

  datatype Decision = Decision(blockID: string, applied: bool, reason: Reason, savings: Savings, err: Option<string>)

  datatype Stats = Stats(applied: int, skipped: int, tokenDelta: int)

  // ----- One proposal -----

  function ProposalText(p: Proposal): Option<string> {
    match p.bytes
    case Some(Utf8(text)) => Some(text)
    case Some(Malformed) => None
    case None => if p.text.Utf8? then Some(p.text.text) else None
  }

  datatype Evaluation = Evaluation(text: string, savings: Savings, reason: Reason)

  function EvaluateProposal(count: Counter, block: Block, p: Proposal): Result<Evaluation, string> {
    var text := ProposalText(p);
    if text.None? then Ok(Evaluation("", NoSavings, InvalidUTF8))
    else
      match SavingsOf(count, block.text, text.value)
      case Err(e) => Err(e)
      case Ok(s) => Ok(Evaluation(text.value, s, if s.improved then Applied else NoGain))
  }

  /** What a proposal sends: its bytes if it has any, and otherwise its text. */
  function Sent(p: Proposal): Raw {
    if p.bytes.Some? then p.bytes.value else p.text
  }

  /** Both texts can be counted, and the second counts fewer tokens. */
  predicate CountsFewer(count: Counter, original: string, proposed: string) {
    count(original).Ok? && count(proposed).Ok? && count(proposed).value.tokens < count(original).value.tokens
  }

  /** The reply sends well-formed text that counts fewer tokens than the block. */
  predicate Acceptable(count: Counter, block: Block, reply: Reply) {
    && reply.Proposed? && Sent(reply.proposal).Utf8?
    && CountsFewer(count, block.text, Sent(reply.proposal).text)
  }

  /** The source's evaluation and the acceptable proposals agree, and what is evaluated is
      the very text that was sent. */
  lemma EvaluationIff(count: Counter, block: Block, p: Proposal)
    ensures var e, raw := EvaluateProposal(count, block, p), Sent(p);
            && (e.Err? <==> raw.Utf8? && (count(block.text).Err? || count(raw.text).Err?))
            && (e.Ok? && e.value.reason == InvalidUTF8 <==> raw.Malformed?)
            && (e.Ok? && e.value.reason == Applied <==> Acceptable(count, block, Proposed(p)))
            && (e.Ok? && raw.Utf8? ==>
                 && e.value.text == raw.text && e.value.reason in {Applied, NoGain}
                 && e.value.savings.delta == count(block.text).value.tokens - count(raw.text).value.tokens)
  {
  }

  // ----- One block -----

  /** The loop over the compressors: the decision as it develops, reply by reply. */
  function Try(count: Counter, block: Block, replies: seq<Reply>, d: Decision): (Block, Decision)
    decreases |replies|
  {
    if replies == [] then (block, d)
    else
      match replies[0]
      case Failed(e) => Try(count, block, replies[1..], d.(reason := CompressorError, err := Some(e)))
      case Proposed(p) =>
        match EvaluateProposal(count, block, p)
        case Err(e) => Try(count, block, replies[1..], d.(reason := CompressorError, err := Some(e)))
        case Ok(ev) =>
          if ev.reason == Applied then
            (block.(text := ev.text), d.(savings := ev.savings, applied := true, reason := Applied))
          else Try(count, block, replies[1..], d.(savings := ev.savings, reason := ev.reason))
  }

  predicate Open(block: Block) {
    block.selected && block.stability == Live
  }

  function Fresh(block: Block): Decision {
    Decision(block.id, false, Unset, NoSavings, None)
  }

  function Settle(d: Decision): Decision {
    if d.reason == Unset then d.(reason := CompressorError, err := Some("compressor is required")) else d
  }

  /** What the pipeline does with one block. */
  function Decide(count: Counter, block: Block, replies: seq<Reply>): (Block, Decision) {
    if !Open(block) then (block, Fresh(block).(reason := NotSelected))
    else
      var (out, d) := Try(count, block, replies, Fresh(block));
      (out, Settle(d))
  }

  // ----- All blocks -----

  function AppliedCount(ds: seq<Decision>): nat {
    if ds == [] then 0 else AppliedCount(ds[..|ds| - 1]) + (if ds[|ds| - 1].applied then 1 else 0)
  }

  function DeltaSum(ds: seq<Decision>): int {
    if ds == [] then 0
    else DeltaSum(ds[..|ds| - 1]) + (if ds[|ds| - 1].applied then ds[|ds| - 1].savings.delta else 0)
  }

  /** The replies for each block, one list per block. */
  type Replies = seq<seq<Reply>>

  function Blocks(count: Counter, blocks: seq<Block>, replies: Replies): (out: seq<Block>)
    requires |replies| == |blocks|
    ensures |out| == |blocks|
    ensures forall i :: 0 <= i < |out| ==> out[i] == Decide(count, blocks[i], replies[i]).0
  {
    seq(|blocks|, i requires 0 <= i < |blocks| => Decide(count, blocks[i], replies[i]).0)
  }

  function Decisions(count: Counter, blocks: seq<Block>, replies: Replies): (ds: seq<Decision>)
    requires |replies| == |blocks|
    ensures |ds| == |blocks|
    ensures forall i :: 0 <= i < |ds| ==> ds[i] == Decide(count, blocks[i], replies[i]).1
  {
    seq(|blocks|, i requires 0 <= i < |blocks| => Decide(count, blocks[i], replies[i]).1)
  }

  /** The inner loop of Apply. */
  method TryCompressors(count: Counter, block: Block, replies: seq<Reply>) returns (out: Block, decision: Decision)
    ensures (out, decision) == Try(count, block, replies, Fresh(block))
  {
    out := block;
    decision := Fresh(block);
    ghost var goal := Try(count, block, replies, decision);
    var j := 0;
    while j < |replies|
      invariant 0 <= j <= |replies|
      invariant out == block
      invariant Try(count, block, replies[j..], decision) == goal
    {
      assert replies[j..][0] == replies[j] && replies[j..][1..] == replies[j + 1..];
      var reply := replies[j];
      j := j + 1;
      if reply.Failed? {
        decision := decision.(reason := CompressorError, err := Some(reply.error));
        continue;
      }
      var evaluation := EvaluateProposal(count, block, reply.proposal);
      if evaluation.Err? {
        decision := decision.(reason := CompressorError, err := Some(evaluation.error));
        continue;
      }
      decision := decision.(savings := evaluation.value.savings);
      if evaluation.value.reason != Applied {
        decision := decision.(reason := evaluation.value.reason);
        continue;
      }
      out := out.(text := evaluation.value.text);
      decision := decision.(applied := true, reason := Applied);
      return;
    }
  }

  /** Pipeline.Apply: result blocks, decisions and statistics are filled in block by
      block, starting from a copy of the input. */
  method Apply(count: Counter, blocks: seq<Block>, replies: Replies)
    returns (out: seq<Block>, decisions: seq<Decision>, stats: Stats)
    requires |replies| == |blocks|
    ensures out == Blocks(count, blocks, replies) && decisions == Decisions(count, blocks, replies)
    ensures stats.applied == AppliedCount(decisions) && stats.tokenDelta == DeltaSum(decisions)
    ensures stats.applied + stats.skipped == |blocks|
  {
    out := blocks;
    decisions := [];
    stats := Stats(0, 0, 0);
    for i := 0 to |blocks|
      invariant |out| == |blocks| && |decisions| == i
      invariant forall k :: 0 <= k < i ==> out[k] == Decide(count, blocks[k], replies[k]).0
      invariant forall k :: i <= k < |blocks| ==> out[k] == blocks[k]
      invariant forall k :: 0 <= k < i ==> decisions[k] == Decide(count, blocks[k], replies[k]).1
      invariant stats == Stats(AppliedCount(decisions), i - AppliedCount(decisions), DeltaSum(decisions))
    {
      var changed, decision := ApplyBlock(count, blocks[i], replies[i]);
      out := out[i := changed];
      if decision.applied {
        stats := stats.(applied := stats.applied + 1, tokenDelta := stats.tokenDelta + decision.savings.delta);
      } else {
        stats := stats.(skipped := stats.skipped + 1);
      }
      assert (decisions + [decision])[..i] == decisions;
      decisions := decisions + [decision];
    }
  }

  /** The body of the outer loop: what becomes of one block. */
  method ApplyBlock(count: Counter, block: Block, replies: seq<Reply>) returns (changed: Block, decision: Decision)
    ensures (changed, decision) == Decide(count, block, replies)
  {
    changed, decision := block, Fresh(block);
    if !Open(block) {
      decision := decision.(reason := NotSelected);
      return;
    }
    changed, decision := TryCompressors(count, block, replies);
    if decision.reason == Unset {
      decision := decision.(reason := CompressorError, err := Some("compressor is required"));
    }
  }

  // ----- What one block can become -----

  lemma {:induction false} TryUnset(count: Counter, block: Block, replies: seq<Reply>, d: Decision)
    requires !d.applied && d.reason != Applied
    ensures var r := Try(count, block, replies, d).1; r.applied <==> r.reason == Applied
    decreases |replies|
  {
    if replies != [] {
      var rest := replies[1..];
      match replies[0]
      case Failed(e) => TryUnset(count, block, rest, d.(reason := CompressorError, err := Some(e)));
      case Proposed(p) =>
        var ev := EvaluateProposal(count, block, p);
        if ev.Err? {
          TryUnset(count, block, rest, d.(reason := CompressorError, err := Some(ev.error)));
        } else if ev.value.reason != Applied {
          TryUnset(count, block, rest, d.(savings := ev.value.savings, reason := ev.value.reason));
        }
    }
  }

  /** The first acceptable reply decides: it is applied, and nothing else is. */
  lemma {:induction false} TryFirst(count: Counter, block: Block, replies: seq<Reply>, d: Decision) returns (j: nat)
    requires !d.applied
    ensures j <= |replies| && forall k :: 0 <= k < j ==> !Acceptable(count, block, replies[k])
    ensures var (out, r) := Try(count, block, replies, d);
            if j == |replies| then out == block && !r.applied
            else
              && Acceptable(count, block, replies[j])
              && r.applied
              && var text := Sent(replies[j].proposal).text;
                 && out == block.(text := text)
                 && var before, after := count(block.text).value, count(text).value;
                    r.savings == Savings(before, after, before.tokens - after.tokens, true)
    decreases |replies|
  {
    if replies == [] {
      j := 0;
    } else {
      var rest := replies[1..];
      match replies[0]
      case Failed(e) =>
        j := TryFirst(count, block, rest, d.(reason := CompressorError, err := Some(e)));
        j := j + 1;
      case Proposed(p) =>
        var ev := EvaluateProposal(count, block, p);
        if ev.Err? {
          j := TryFirst(count, block, rest, d.(reason := CompressorError, err := Some(ev.error)));
          j := j + 1;
        } else if ev.value.reason != Applied {
          j := TryFirst(count, block, rest, d.(savings := ev.value.savings, reason := ev.value.reason));
          j := j + 1;
        } else {
          j := 0;
        }
    }
  }

  /** A block changes if and only if it is selected and live and some reply is acceptable;
      then its text, and only its text, becomes one that counts fewer tokens. */
  lemma DecideExact(count: Counter, block: Block, replies: seq<Reply>)
    ensures var (out, d) := Decide(count, block, replies);
            && (d.applied <==> block.selected && block.stability == Live
                               && exists j :: 0 <= j < |replies| && Acceptable(count, block, replies[j]))
            && (d.applied <==> d.reason == Applied)
            && out.(text := block.text) == block
            && (if !d.applied then out == block
                else
                  && CountsFewer(count, block.text, out.text)
                  && d.savings.delta == count(block.text).value.tokens - count(out.text).value.tokens)
  {
    if Open(block) {
      var j := TryFirst(count, block, replies, Fresh(block));
      TryUnset(count, block, replies, Fresh(block));
    }
  }

  /** The text of a changed block is the one the first acceptable reply sent, and the
      decision is about this block. */
  lemma DecideText(count: Counter, block: Block, replies: seq<Reply>)
    ensures Decide(count, block, replies).1.blockID == block.id
    ensures var j := FirstAcceptable(count, block, replies);
            block.selected && block.stability == Live && j < |replies| ==>
            Decide(count, block, replies).0.text == Sent(replies[j].proposal).text
  {
    TryKeepsID(count, block, replies, Fresh(block));
    if Open(block) {
      var j := TryFirst(count, block, replies, Fresh(block));
      FirstIs(count, block, replies, j);
    }
  }

  lemma {:induction false} TryKeepsID(count: Counter, block: Block, replies: seq<Reply>, d: Decision)
    ensures Try(count, block, replies, d).1.blockID == d.blockID
    decreases |replies|
  {
    if replies != [] {
      match replies[0]
      case Failed(e) => TryKeepsID(count, block, replies[1..], d.(reason := CompressorError, err := Some(e)));
      case Proposed(p) =>
        var ev := EvaluateProposal(count, block, p);
        if ev.Err? {
          TryKeepsID(count, block, replies[1..], d.(reason := CompressorError, err := Some(ev.error)));
        } else {
          TryKeepsID(count, block, replies[1..], d.(savings := ev.value.savings, reason := ev.value.reason));
        }
    }
  }

  lemma {:induction false} FirstIs(count: Counter, block: Block, replies: seq<Reply>, j: nat)
    requires j <= |replies| && forall k :: 0 <= k < j ==> !Acceptable(count, block, replies[k])
    requires j < |replies| ==> Acceptable(count, block, replies[j])
    ensures FirstAcceptable(count, block, replies) == j
    decreases |replies|
  {
    if replies != [] && j > 0 { FirstIs(count, block, replies[1..], j - 1); }
  }

  // ----- What is reported -----

  /** The reason a single reply deserves. */
  function Verdict(count: Counter, block: Block, reply: Reply): Reason {
    if ReplyError(count, block, reply).Some? then CompressorError
    else if Sent(reply.proposal).Malformed? then InvalidUTF8
    else if CountsFewer(count, block.text, Sent(reply.proposal).text) then Applied
    else NoGain
  }

  /** The error of a compressor, or of counting what it sent. */
  function ReplyError(count: Counter, block: Block, reply: Reply): (error: Option<string>)
    ensures error.None? ==> reply.Proposed?
  {
    match reply
    case Failed(e) => Some(e)
    case Proposed(p) =>
      if Sent(p).Malformed? then None
      else if count(block.text).Err? then Some(count(block.text).error)
      else if count(Sent(p).text).Err? then Some(count(Sent(p).text).error)
      else None
  }

  /** The error of the last reply that has one. */
  function LastError(count: Counter, block: Block, replies: seq<Reply>): Option<string> {
    if replies == [] then None
    else
      var last := ReplyError(count, block, replies[|replies| - 1]);
      if last.Some? then last else LastError(count, block, replies[..|replies| - 1])
  }

  lemma {:induction false} LastErrorTail(count: Counter, block: Block, replies: seq<Reply>)
    requires replies != []
    ensures LastError(count, block, replies) ==
            if LastError(count, block, replies[1..]).Some? then LastError(count, block, replies[1..])
            else LastError(count, block, [replies[0]])
    decreases |replies|
  {
    if |replies| == 1 {
      assert replies == [replies[0]];
    } else {
      var n := |replies| - 1;
      assert replies[1..][..n - 1] == replies[..n][1..];
      LastErrorTail(count, block, replies[..n]);
    }
  }

  /** Where the loop stops: at the first acceptable reply, or behind the last one. */
  function FirstAcceptable(count: Counter, block: Block, replies: seq<Reply>): (j: nat)
    ensures j <= |replies| && forall k :: 0 <= k < j ==> !Acceptable(count, block, replies[k])
    ensures j < |replies| ==> Acceptable(count, block, replies[j])
  {
    if replies == [] || Acceptable(count, block, replies[0]) then 0
    else 1 + FirstAcceptable(count, block, replies[1..])
  }

  lemma {:induction false} TryReports(count: Counter, block: Block, replies: seq<Reply>, d: Decision)
    ensures var r, j := Try(count, block, replies, d).1, FirstAcceptable(count, block, replies);
            var left := LastError(count, block, replies[..j]);
            && r.reason == (if j < |replies| then Applied
                            else if replies == [] then d.reason
                            else Verdict(count, block, replies[|replies| - 1]))
            && r.err == (if left.Some? then left else d.err)
    decreases |replies|
  {
    if replies != [] && !Acceptable(count, block, replies[0]) {
      var rest, j := replies[1..], FirstAcceptable(count, block, replies);
      assert replies[..j][1..] == rest[..j - 1] && replies[..j][0] == replies[0];
      assert [replies[0]][..0] == [];
      LastErrorTail(count, block, replies[..j]);
      match replies[0]
      case Failed(e) => TryReports(count, block, rest, d.(reason := CompressorError, err := Some(e)));
      case Proposed(p) =>
        var ev := EvaluateProposal(count, block, p);
        if ev.Err? {
          TryReports(count, block, rest, d.(reason := CompressorError, err := Some(ev.error)));
        } else {
          TryReports(count, block, rest, d.(savings := ev.value.savings, reason := ev.value.reason));
        }
    }
  }

  /** What a decision reports, whatever the replies: the reason is the verdict on the reply
      where the loop stopped, and the error, if any, is that of the last compressor that
      failed before. */
  lemma DecisionReport(count: Counter, block: Block, replies: seq<Reply>)
    ensures var d, j := Decide(count, block, replies).1, FirstAcceptable(count, block, replies);
            if !(block.selected && block.stability == Live) then d.reason == NotSelected && d.err == None
            else if replies == [] then d.reason == CompressorError && d.err == Some("compressor is required")
            else
              && d.reason == Verdict(count, block, replies[if j < |replies| then j else j - 1])
              && d.err == LastError(count, block, replies[..j])
  {
    TryReports(count, block, replies, Fresh(block));
    if replies != [] {
      var j := FirstAcceptable(count, block, replies);
      assert j == |replies| ==> !Acceptable(count, block, replies[j - 1]);
    }
  }

  /** The decision carries an error although the reply it rests on caused none. */
  predicate LeftOver(d: Decision) {
    d.err.Some? && d.reason != CompressorError
  }

  lemma {:induction false} LastErrorExists(count: Counter, block: Block, replies: seq<Reply>)
    ensures LastError(count, block, replies).Some?
       <==> exists k :: 0 <= k < |replies| && Verdict(count, block, replies[k]) == CompressorError
    decreases |replies|
  {
    if replies != [] {
      var n := |replies| - 1;
      LastErrorExists(count, block, replies[..n]);
      if exists k :: 0 <= k < n && Verdict(count, block, replies[..n][k]) == CompressorError {
        var k :| 0 <= k < n && Verdict(count, block, replies[..n][k]) == CompressorError;
        assert Verdict(count, block, replies[k]) == CompressorError;
      }
      if exists k :: 0 <= k < n && Verdict(count, block, replies[k]) == CompressorError {
        var k :| 0 <= k < n && Verdict(count, block, replies[k]) == CompressorError;
        assert Verdict(count, block, replies[..n][k]) == CompressorError;
      }
    }
  }

  /** An error is left over if and only if some compressor failed before the loop
      stopped and the reply where it stopped is no failure. */
  lemma LeftOverIff(count: Counter, block: Block, replies: seq<Reply>)
    requires Open(block) && replies != []
    ensures var j := FirstAcceptable(count, block, replies);
            LeftOver(Decide(count, block, replies).1) <==>
            && (exists k :: 0 <= k < j && Verdict(count, block, replies[k]) == CompressorError)
            && Verdict(count, block, replies[if j < |replies| then j else j - 1]) != CompressorError
  {
    var j := FirstAcceptable(count, block, replies);
    DecisionReport(count, block, replies);
    LastErrorExists(count, block, replies[..j]);
    assert forall k :: 0 <= k < j ==> replies[..j][k] == replies[k];
  }

  /** An applied decision can carry the error of an earlier compressor: under the
      estimator, a second compressor that empties any live block with a text does it. */
  lemma AppliedWithError(rc: RuneClasses, pm: ProviderModel, block: Block, error: string)
    requires Open(block) && block.text != ""
    ensures var replies := [Failed(error), Proposed(Proposal(Utf8(""), None))];
            var d := Decide(Counting(rc, map[], pm), block, replies).1;
            d.applied && d.err == Some(error) && LeftOver(d)
  {
    var count, replies := Counting(rc, map[], pm), [Failed(error), Proposed(Proposal(Utf8(""), None))];
    EstimateBounds(rc, block.text);
    assert Acceptable(count, block, replies[1]) && !Acceptable(count, block, replies[0]);
    assert FirstAcceptable(count, block, replies[1..]) == 0;
    DecisionReport(count, block, replies);
    DecideExact(count, block, replies);
    assert replies[..1] == [Failed(error)];
  }

  // ----- Conservation -----

  lemma {:induction false} AppliedCountIs(ds: seq<Decision>)
    ensures AppliedCount(ds) == |set i | 0 <= i < |ds| && ds[i].applied|
    decreases |ds|
  {
    if ds != [] {
      var n := |ds| - 1;
      AppliedCountIs(ds[..n]);
      var before, all := set i | 0 <= i < n && ds[..n][i].applied, set i | 0 <= i < |ds| && ds[i].applied;
      assert all == before + if ds[n].applied then {n} else {};
    }
  }

  function TokensOf(count: Counter, text: string): int {
    var c := count(text);
    if c.Ok? then c.value.tokens else 0
  }

  function TotalTokens(count: Counter, blocks: seq<Block>): int {
    if blocks == [] then 0
    else TotalTokens(count, blocks[..|blocks| - 1]) + TokensOf(count, blocks[|blocks| - 1].text)
  }

  lemma {:induction false} TotalNonNegative(count: Counter, blocks: seq<Block>)
    requires Reliable(count)
    ensures TotalTokens(count, blocks) >= 0
  {
    if blocks != [] {
      assert count(blocks[|blocks| - 1].text).Ok?;
      TotalNonNegative(count, blocks[..|blocks| - 1]);
    }
  }

  lemma Prefixes(count: Counter, blocks: seq<Block>, replies: Replies)
    requires |replies| == |blocks| > 0
    ensures var n := |blocks| - 1;
            && Blocks(count, blocks, replies)[..n] == Blocks(count, blocks[..n], replies[..n])
            && Decisions(count, blocks, replies)[..n] == Decisions(count, blocks[..n], replies[..n])
  {
  }

  /** Tokens out are tokens in minus the reported savings, every applied block saves at
      least one token, and every block is counted as applied or skipped. */
  lemma {:induction false} Conservation(count: Counter, blocks: seq<Block>, replies: Replies)
    requires |replies| == |blocks|
    ensures var ds := Decisions(count, blocks, replies);
            && TotalTokens(count, Blocks(count, blocks, replies)) == TotalTokens(count, blocks) - DeltaSum(ds)
            && DeltaSum(ds) >= AppliedCount(ds)
    decreases |blocks|
  {
    if blocks != [] {
      var n := |blocks| - 1;
      Prefixes(count, blocks, replies);
      Conservation(count, blocks[..n], replies[..n]);
      DecideExact(count, blocks[n], replies[n]);
    }
  }

  lemma LastApart<T>(a: seq<T>, b: seq<T>, n: nat)
    requires |a| == |b| == n + 1
    ensures a == b <==> a[..n] == b[..n] && a[n] == b[n]
  {
    assert a == a[..n] + [a[n]] && b == b[..n] + [b[n]];
  }

  lemma {:induction false} ChangeIsApplied(count: Counter, blocks: seq<Block>, replies: Replies)
    requires |replies| == |blocks|
    ensures AppliedCount(Decisions(count, blocks, replies)) > 0 <==> Blocks(count, blocks, replies) != blocks
    decreases |blocks|
  {
    if blocks == [] {
    } else {
      var n := |blocks| - 1;
      Prefixes(count, blocks, replies);
      ChangeIsApplied(count, blocks[..n], replies[..n]);
      DecideExact(count, blocks[n], replies[n]);
      LastApart(Blocks(count, blocks, replies), blocks, n);
    }
  }

  /** A sequence of passes, each over the output of the one before, with whatever the
      compressors reply each time. */
  predicate Rounds(count: Counter, run: seq<seq<Block>>, replies: seq<Replies>) {
    && |run| == |replies| + 1
    && forall k :: 0 <= k < |replies| ==>
         |replies[k]| == |run[k]| && run[k + 1] == Blocks(count, run[k], replies[k])
  }

  /** Number of passes that changed something. */
  function Changes(run: seq<seq<Block>>): nat {
    if |run| < 2 then 0
    else Changes(run[..|run| - 1]) + (if run[|run| - 1] != run[|run| - 2] then 1 else 0)
  }

  /** Re-applying the pipeline comes to rest: at most as many passes as there were
      tokens to begin with can change anything. */
  lemma {:induction false} RoundsComeToRest(count: Counter, run: seq<seq<Block>>, replies: seq<Replies>)
    requires Reliable(count) && Rounds(count, run, replies)
    ensures Changes(run) + TotalTokens(count, run[|run| - 1]) <= TotalTokens(count, run[0])
    ensures Changes(run) <= TotalTokens(count, run[0])
    decreases |run|
  {
    TotalNonNegative(count, run[|run| - 1]);
    if |run| > 1 {
      var n := |run| - 1;
      var before := run[..n];
      RoundsComeToRest(count, before, replies[..n - 1]);
      Conservation(count, run[n - 1], replies[n - 1]);
      ChangeIsApplied(count, run[n - 1], replies[n - 1]);
    }
  }

  // ----- The fallback counter -----

  /** Under the estimator, a proposal that contains the original as a subsequence is
      never applied. */
  lemma PaddingIsRejected(rc: RuneClasses, exact: map<ProviderModel, Counter>, pm: ProviderModel,
                          block: Block, p: Proposal)
    requires pm !in exact
    requires ProposalText(p).Some? && Subsequence(block.text, ProposalText(p).value)
    ensures !Acceptable(Counting(rc, exact, pm), block, Proposed(p))
  {
    EstimateShrinks(rc, block.text, ProposalText(p).value);
  }

  // ----- Hot zones -----

  /** Only tool results changed, and of those only the text. */
  predicate OnlyToolTexts(blocks: seq<Block>, out: seq<Block>) {
    && |out| == |blocks|
    && forall i :: 0 <= i < |blocks| ==>
         && (blocks[i].source != ToolResult ==> out[i] == blocks[i])
         && out[i].(text := blocks[i].text) == blocks[i]
  }

  lemma HotZonesStable(count: Counter, blocks: seq<Block>, replies: Replies)
    requires AllZoned(blocks) && |replies| == |blocks|
    ensures OnlyToolTexts(blocks, Blocks(count, blocks, replies))
  {
    forall i | 0 <= i < |blocks|
      ensures var out := Decide(count, blocks[i], replies[i]).0;
              && (blocks[i].source != ToolResult ==> out == blocks[i])
              && out.(text := blocks[i].text) == blocks[i]
    {
      DecideExact(count, blocks[i], replies[i]);
    }
  }

  lemma Unselected(count: Counter, blocks: seq<Block>, replies: Replies, n: nat)
    requires |replies| == |blocks| && n < |blocks| && !blocks[n].selected
    ensures Blocks(count, blocks, replies)[n] == blocks[n]
  {
    DecideExact(count, blocks[n], replies[n]);
  }

  /** The block comes from a message that is no tool message. */
  ghost predicate OfPlainMessage(messages: seq<OpenAIMessage>, b: Block) {
    exists i: nat :: i < |messages| && Into(b.path, i) && messages[i].role != "tool"
  }

  /** The block comes from a part that is no tool result, of a message that is no tool
      message. */
  ghost predicate OfPlainPart(messages: seq<AnthropicMessage>, b: Block) {
    exists i: nat, j: nat, leaf ::
      && i < |messages| && b.path == PartPath(i, j, leaf) && messages[i].role != "tool"
      && !HasPart(messages[i].content, j, "tool_result", b.text)
  }

  /** Whatever the compressors reply, running the pipeline on a detected OpenAI request
      changes nothing but texts, and nothing of a message that is not a tool message. */
  lemma OpenAIHotZones(count: Counter, c: Classifier, messages: seq<OpenAIMessage>, replies: Replies)
    requires |replies| == |OpenAIRequestBlocks(c, messages)|
    ensures var blocks := OpenAIRequestBlocks(c, messages);
            var out := Blocks(count, blocks, replies);
            && OnlyToolTexts(blocks, out)
            && forall n :: 0 <= n < |blocks| && OfPlainMessage(messages, blocks[n]) ==> out[n] == blocks[n]
  {
    var blocks := OpenAIRequestBlocks(c, messages);
    OpenAIZoned(c, messages, 0);
    HotZonesStable(count, blocks, replies);
    forall n | 0 <= n < |blocks| && OfPlainMessage(messages, blocks[n])
      ensures Blocks(count, blocks, replies)[n] == blocks[n]
    {
      var i: nat :| i < |messages| && Into(blocks[n].path, i) && messages[i].role != "tool";
      OpenAISelected(c, messages, n, i);
      Unselected(count, blocks, replies, n);
    }
  }

  /** The same for an Anthropic request: nothing of the system changes, and of a message
      only tool results, unless it is a tool message. */
  lemma AnthropicHotZones(count: Counter, c: Classifier, request: AnthropicRequest, replies: Replies)
    requires |replies| == |AnthropicRequestBlocks(c, request)|
    ensures var blocks := AnthropicRequestBlocks(c, request);
            var out := Blocks(count, blocks, replies);
            && OnlyToolTexts(blocks, out)
            && (forall n :: 0 <= n < |blocks| && blocks[n].path == "$.system" ==> out[n] == blocks[n])
            && forall n :: 0 <= n < |blocks| && OfPlainPart(request.messages, blocks[n]) ==> out[n] == blocks[n]
  {
    var blocks := AnthropicRequestBlocks(c, request);
    AnthropicZoned(c, request.messages, 0);
    SystemZoned(SystemTexts(request.system));
    HotZonesStable(count, blocks, replies);
    forall n | 0 <= n < |blocks| && blocks[n].path == "$.system"
      ensures Blocks(count, blocks, replies)[n] == blocks[n]
    {
      SystemNeverSelected(c, request, n);
      Unselected(count, blocks, replies, n);
    }
    forall n | 0 <= n < |blocks| && OfPlainPart(request.messages, blocks[n])
      ensures Blocks(count, blocks, replies)[n] == blocks[n]
    {
      PlainPartUnselected(c, request, n);
      Unselected(count, blocks, replies, n);
    }
  }

  lemma PlainPartUnselected(c: Classifier, request: AnthropicRequest, n: nat)
    requires n < |AnthropicRequestBlocks(c, request)|
    requires OfPlainPart(request.messages, AnthropicRequestBlocks(c, request)[n])
    ensures !AnthropicRequestBlocks(c, request)[n].selected
  {
    var b, messages := AnthropicRequestBlocks(c, request)[n], request.messages;
    var i: nat, j: nat, leaf :|
      && i < |messages| && b.path == PartPath(i, j, leaf) && messages[i].role != "tool"
      && !HasPart(messages[i].content, j, "tool_result", b.text);
    AnthropicSelected(c, request, n, i, j, leaf);
  }
}

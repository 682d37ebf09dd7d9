/**
 Live-zone detection (internal/compress/livezone.go) over parsed requests: which
 texts of a request become blocks, how they are addressed and which of them may
 be compressed. Content classification is left open as a parameter.
 */
module LiveZone {
  import opened Outcome
  import opened Text

  datatype Provider = OpenAI | Anthropic
  datatype Stability = Stable | Live
  datatype Source = System | UserMessage | AssistantMessage | ToolResult
  datatype ContentType = ContentText | ContentLog | ContentCode | ContentDiff | ContentJSON

  type Classifier = string -> ContentType

  datatype Block = Block(
    id: string,
    provider: Provider,
    path: string,
    role: string,
    source: Source,
    stability: Stability,
    contentType: ContentType,
    text: string,
    selected: bool)

  // ----- Requests -----

  /** OpenAI message content: a string, a list of parts seen through their text, or
      anything else. */
  datatype OpenAIContent = PlainText(text: string) | Parts(texts: seq<string>) | Opaque

  datatype OpenAIMessage = OpenAIMessage(role: string, content: OpenAIContent)

  /** The content field of an Anthropic part: absent, a string, a list of items seen
      through their text, or other JSON kept as it stands. */
  datatype PartContent = Absent | Plain(text: string) | Items(texts: seq<string>) | Verbatim(json: string)

  datatype AnthropicPart = AnthropicPart(kind: string, text: string, content: PartContent)

  datatype AnthropicContent = OneText(text: string) | PartList(parts: seq<AnthropicPart>) | Malformed

  datatype AnthropicMessage = AnthropicMessage(role: string, content: AnthropicContent)

  datatype AnthropicSystem = NoSystem | SystemText(text: string) | SystemParts(texts: seq<string>) | OtherSystem

  datatype AnthropicRequest = AnthropicRequest(system: AnthropicSystem, messages: seq<AnthropicMessage>)

  // ----- Blocks -----

  function ClassifySource(role: string): (Source, Stability, bool) {
    if role == "system" || role == "developer" then (System, Stable, false)
    else if role == "assistant" then (AssistantMessage, Stable, false)
    else if role == "tool" then (ToolResult, Live, true)
    else (UserMessage, Stable, false)
  }

  function NewBlock(classify: Classifier, provider: Provider, path: string, role: string, text: string): Block {
    var (source, stability, selected) := ClassifySource(role);
    Block("", provider, path, role, source, stability, classify(text), text, selected)
  }

  function NonEmpty(texts: seq<string>): seq<string> {
    if texts == [] then [] else (if texts[0] == "" then [] else [texts[0]]) + NonEmpty(texts[1..])
  }

  function ContentTexts(content: OpenAIContent): seq<string> {
    match content
    case PlainText(text) => [text]
    case Parts(texts) => NonEmpty(texts)
    case Opaque => []
  }

  /** "$.messages[i]" followed by the rest of the path. */
  function MessagePath(i: nat, rest: string): string {
    "$.messages[" + Dec(i) + "]" + rest
  }

  function PartPath(i: nat, j: nat, leaf: string): string {
    MessagePath(i, ".content[" + Dec(j) + "]" + leaf)
  }

  function TextPath(i: nat, j: nat, count: nat): string {
    if count > 1 then PartPath(i, j, ".text") else MessagePath(i, ".content")
  }

  /** The blocks of one OpenAI message, from its j-th text on. */
  function TextBlocks(c: Classifier, i: nat, role: string, texts: seq<string>, j: nat): seq<Block>
    requires j <= |texts|
    decreases |texts| - j
  {
    if j == |texts| then []
    else
      (if texts[j] == "" then [] else [NewBlock(c, OpenAI, TextPath(i, j, |texts|), role, texts[j])])
      + TextBlocks(c, i, role, texts, j + 1)
  }

  /** The blocks of the OpenAI messages from index i on. */
  function OpenAIBlocks(c: Classifier, messages: seq<OpenAIMessage>, i: nat): seq<Block>
    requires i <= |messages|
    decreases |messages| - i
  {
    if i == |messages| then []
    else
      TextBlocks(c, i, messages[i].role, ContentTexts(messages[i].content), 0)
      + OpenAIBlocks(c, messages, i + 1)
  }

  function SystemTexts(system: AnthropicSystem): seq<string> {
    match system
    case SystemText(text) => [text]
    case SystemParts(texts) => NonEmpty(texts)
    case _ => []
  }

  const SystemPath := "$.system"

  function SystemBlock(text: string): Block {
    Block("block_1", Anthropic, SystemPath, "system", System, Stable, ContentText, text, false)
  }

  function SystemBlocks(texts: seq<string>): seq<Block> {
    if texts == [] then []
    else (if texts[0] == "" then [] else [SystemBlock(texts[0])]) + SystemBlocks(texts[1..])
  }

  function PartText(part: AnthropicPart): string {
    if part.text != "" then part.text
    else match part.content
         case Absent => ""
         case Plain(text) => text
         case Items(texts) => Join(NonEmpty(texts), "\n")
         case Verbatim(json) => json
  }

  function PartBlock(c: Classifier, i: nat, j: nat, role: string, part: AnthropicPart): Block {
    var text := PartText(part);
    if part.kind == "tool_result" then
      NewBlock(c, Anthropic, PartPath(i, j, ".content"), role, text)
        .(source := ToolResult, stability := Live, selected := true, contentType := c(text))
    else NewBlock(c, Anthropic, PartPath(i, j, ".text"), role, text)
  }

  function PartBlocks(c: Classifier, i: nat, role: string, parts: seq<AnthropicPart>, j: nat): seq<Block>
    requires j <= |parts|
    decreases |parts| - j
  {
    if j == |parts| then []
    else
      (if PartText(parts[j]) == "" then [] else [PartBlock(c, i, j, role, parts[j])])
      + PartBlocks(c, i, role, parts, j + 1)
  }

  function MessageParts(content: AnthropicContent): seq<AnthropicPart> {
    match content
    case OneText(text) => [AnthropicPart("text", text, Absent)]
    case PartList(parts) => parts
    case Malformed => []
  }

  function AnthropicBlocks(c: Classifier, messages: seq<AnthropicMessage>, i: nat): seq<Block>
    requires i <= |messages|
    decreases |messages| - i
  {
    if i == |messages| then []
    else
      PartBlocks(c, i, messages[i].role, MessageParts(messages[i].content), 0)
      + AnthropicBlocks(c, messages, i + 1)
  }

  function BlockID(i: nat): string {
    "block_" + Dec(i + 1)
  }

  function WithIDs(blocks: seq<Block>): (r: seq<Block>)
    ensures |r| == |blocks|
    ensures forall i :: 0 <= i < |r| ==> r[i] == blocks[i].(id := BlockID(i))
  {
    seq(|blocks|, i requires 0 <= i < |blocks| => blocks[i].(id := BlockID(i)))
  }

  // ----- The detectors -----

  method AssignBlockIDs(blocks: seq<Block>) returns (numbered: seq<Block>)
    ensures numbered == WithIDs(blocks)
  {
    numbered := blocks;
    for i := 0 to |blocks|
      invariant |numbered| == |blocks|
      invariant forall k :: 0 <= k < i ==> numbered[k] == blocks[k].(id := BlockID(k))
      invariant forall k :: i <= k < |blocks| ==> numbered[k] == blocks[k]
    {
      numbered := numbered[i := numbered[i].(id := BlockID(i))];
    }
  }

  /** The inner loop over the texts of one OpenAI message. */
  method AppendTexts(c: Classifier, before: seq<Block>, i: nat, role: string, texts: seq<string>)
    returns (blocks: seq<Block>)
    ensures blocks == before + TextBlocks(c, i, role, texts, 0)
  {
    blocks := before;
    ghost var goal := before + TextBlocks(c, i, role, texts, 0);
    for j := 0 to |texts|
      invariant blocks + TextBlocks(c, i, role, texts, j) == goal
    {
      ghost var later := TextBlocks(c, i, role, texts, j + 1);
      if texts[j] == "" {
        assert [] + later == later;
        continue;
      }
      var block := NewBlock(c, OpenAI, TextPath(i, j, |texts|), role, texts[j]);
      Assoc(blocks, [block], later);
      blocks := blocks + [block];
    }
    assert blocks + [] == blocks;
  }

  /** The inner loop over the parts of one Anthropic message. */
  method AppendParts(c: Classifier, before: seq<Block>, i: nat, role: string, parts: seq<AnthropicPart>)
    returns (blocks: seq<Block>)
    ensures blocks == before + PartBlocks(c, i, role, parts, 0)
  {
    blocks := before;
    ghost var goal := before + PartBlocks(c, i, role, parts, 0);
    for j := 0 to |parts|
      invariant blocks + PartBlocks(c, i, role, parts, j) == goal
    {
      ghost var later := PartBlocks(c, i, role, parts, j + 1);
      if PartText(parts[j]) == "" {
        assert [] + later == later;
        continue;
      }
      var block := PartBlock(c, i, j, role, parts[j]);
      Assoc(blocks, [block], later);
      blocks := blocks + [block];
    }
    assert blocks + [] == blocks;
  }

  method DetectOpenAI(c: Classifier, messages: seq<OpenAIMessage>) returns (blocks: seq<Block>)
    ensures blocks == WithIDs(OpenAIBlocks(c, messages, 0))
  {
    blocks := [];
    ghost var goal := OpenAIBlocks(c, messages, 0);
    for i := 0 to |messages|
      invariant blocks + OpenAIBlocks(c, messages, i) == goal
    {
      var role, texts := messages[i].role, ContentTexts(messages[i].content);
      Assoc(blocks, TextBlocks(c, i, role, texts, 0), OpenAIBlocks(c, messages, i + 1));
      blocks := AppendTexts(c, blocks, i, role, texts);
    }
    assert blocks + [] == blocks;
    blocks := AssignBlockIDs(blocks);
  }

  method DetectAnthropic(c: Classifier, request: AnthropicRequest) returns (result: Result<seq<Block>, string>)
    ensures result.Err? <==> exists i :: 0 <= i < |request.messages| && request.messages[i].content.Malformed?
    ensures result.Ok? ==>
      result.value == WithIDs(SystemBlocks(SystemTexts(request.system)) + AnthropicBlocks(c, request.messages, 0))
  {
    var texts := SystemTexts(request.system);
    var blocks := SystemPrefix(texts);
    ghost var goal := SystemBlocks(texts) + AnthropicBlocks(c, request.messages, 0);
    var messages := request.messages;
    for i := 0 to |messages|
      invariant forall k :: 0 <= k < i ==> !messages[k].content.Malformed?
      invariant blocks + AnthropicBlocks(c, messages, i) == goal
    {
      if messages[i].content.Malformed? {
        return Err("invalid content");
      }
      var role, parts := messages[i].role, MessageParts(messages[i].content);
      ghost var rest := AnthropicBlocks(c, messages, i + 1);
      Assoc(blocks, PartBlocks(c, i, role, parts, 0), rest);
      blocks := AppendParts(c, blocks, i, role, parts);
      assert blocks + rest == goal;
    }
    assert blocks + [] == blocks;
    blocks := AssignBlockIDs(blocks);
    return Ok(blocks);
  }

  method SystemPrefix(texts: seq<string>) returns (blocks: seq<Block>)
    ensures blocks == SystemBlocks(texts)
  {
    blocks := [];
    ghost var goal := SystemBlocks(texts);
    for i := 0 to |texts|
      invariant blocks + SystemBlocks(texts[i..]) == goal
    {
      assert texts[i..][0] == texts[i] && texts[i..][1..] == texts[i + 1..];
      ghost var later := SystemBlocks(texts[i + 1..]);
      if texts[i] == "" {
        assert [] + later == later;
        continue;
      }
      Assoc(blocks, [SystemBlock(texts[i])], later);
      blocks := blocks + [SystemBlock(texts[i])];
    }
    assert blocks + [] == blocks;
  }

  // ----- Only tool results are live -----

  /** Selected, live and tool result are the same thing. */
  predicate Zoned(b: Block) {
    (b.selected <==> b.stability == Live) && (b.selected <==> b.source == ToolResult)
  }

  predicate AllZoned(blocks: seq<Block>) {
    forall i :: 0 <= i < |blocks| ==> Zoned(blocks[i]) && blocks[i].text != ""
  }

  lemma ZonedConcat(a: seq<Block>, b: seq<Block>)
    requires AllZoned(a) && AllZoned(b)
    ensures AllZoned(a + b)
  {
  }

  lemma NewBlockZoned(c: Classifier, provider: Provider, path: string, role: string, text: string)
    requires text != ""
    ensures AllZoned([NewBlock(c, provider, path, role, text)])
  {
  }

  lemma {:induction false} TextBlocksZoned(c: Classifier, i: nat, role: string, texts: seq<string>, j: nat)
    requires j <= |texts|
    ensures AllZoned(TextBlocks(c, i, role, texts, j))
    decreases |texts| - j
  {
    if j < |texts| {
      TextBlocksZoned(c, i, role, texts, j + 1);
      if texts[j] != "" {
        var path := TextPath(i, j, |texts|);
        NewBlockZoned(c, OpenAI, path, role, texts[j]);
        ZonedConcat([NewBlock(c, OpenAI, path, role, texts[j])], TextBlocks(c, i, role, texts, j + 1));
      }
    }
  }

  lemma {:induction false} OpenAIZoned(c: Classifier, messages: seq<OpenAIMessage>, i: nat)
    requires i <= |messages|
    ensures AllZoned(OpenAIBlocks(c, messages, i))
    decreases |messages| - i
  {
    if i < |messages| {
      TextBlocksZoned(c, i, messages[i].role, ContentTexts(messages[i].content), 0);
      OpenAIZoned(c, messages, i + 1);
    }
  }

  lemma {:induction false} PartBlocksZoned(c: Classifier, i: nat, role: string, parts: seq<AnthropicPart>, j: nat)
    requires j <= |parts|
    ensures AllZoned(PartBlocks(c, i, role, parts, j))
    decreases |parts| - j
  {
    if j < |parts| { PartBlocksZoned(c, i, role, parts, j + 1); }
  }

  lemma {:induction false} AnthropicZoned(c: Classifier, messages: seq<AnthropicMessage>, i: nat)
    requires i <= |messages|
    ensures AllZoned(AnthropicBlocks(c, messages, i))
    decreases |messages| - i
  {
    if i < |messages| {
      PartBlocksZoned(c, i, messages[i].role, MessageParts(messages[i].content), 0);
      AnthropicZoned(c, messages, i + 1);
    }
  }

  lemma {:induction false} SystemZoned(texts: seq<string>)
    ensures AllZoned(SystemBlocks(texts))
  {
    if texts != [] { SystemZoned(texts[1..]); }
  }

  // ----- Every text is found -----

  function Texts(blocks: seq<Block>): seq<string> {
    if blocks == [] then [] else [blocks[0].text] + Texts(blocks[1..])
  }

  lemma {:induction false} TextsConcat(a: seq<Block>, b: seq<Block>)
    ensures Texts(a + b) == Texts(a) + Texts(b)
    decreases |a|
  {
    if a == [] {
      assert a + b == b && Texts(a) + Texts(b) == Texts(b);
    } else {
      assert (a + b)[0] == a[0] && (a + b)[1..] == a[1..] + b;
      TextsConcat(a[1..], b);
      Assoc([a[0].text], Texts(a[1..]), Texts(b));
    }
  }

  /** The non-empty texts of an OpenAI message. */
  function ShownTexts(content: OpenAIContent): seq<string> {
    match content
    case PlainText(text) => if text == "" then [] else [text]
    case Parts(texts) => NonEmpty(texts)
    case Opaque => []
  }

  lemma ShownIsNonEmpty(content: OpenAIContent)
    ensures NonEmpty(ContentTexts(content)) == ShownTexts(content)
  {
    match content
    case PlainText(text) =>
      assert [text][1..] == [] && [text] + [] == [text];
      assert NonEmpty([text]) == (if text == "" then [] else [text]) + NonEmpty([text][1..]);
    case Parts(texts) => NonEmptyTwice(texts);
    case Opaque =>
  }

  /** The non-empty texts of an OpenAI request, in order. */
  function RequestTexts(messages: seq<OpenAIMessage>, i: nat): seq<string>
    requires i <= |messages|
    decreases |messages| - i
  {
    if i == |messages| then [] else ShownTexts(messages[i].content) + RequestTexts(messages, i + 1)
  }

  lemma {:induction false} TextBlocksTexts(c: Classifier, i: nat, role: string, texts: seq<string>, j: nat)
    requires j <= |texts|
    ensures Texts(TextBlocks(c, i, role, texts, j)) == NonEmpty(texts[j..])
    decreases |texts| - j
  {
    if j < |texts| {
      TextBlocksTexts(c, i, role, texts, j + 1);
      assert texts[j..][0] == texts[j] && texts[j..][1..] == texts[j + 1..];
      var later := TextBlocks(c, i, role, texts, j + 1);
      if texts[j] == "" {
        assert [] + later == later && [] + NonEmpty(texts[j + 1..]) == NonEmpty(texts[j + 1..]);
      } else {
        ConsDrop(NewBlock(c, OpenAI, TextPath(i, j, |texts|), role, texts[j]), later);
      }
    }
  }

  /** Detection misses no text of an OpenAI request and invents none. */
  lemma {:induction false} OpenAITexts(c: Classifier, messages: seq<OpenAIMessage>, i: nat)
    requires i <= |messages|
    ensures Texts(OpenAIBlocks(c, messages, i)) == RequestTexts(messages, i)
    decreases |messages| - i
  {
    if i < |messages| {
      var texts := ContentTexts(messages[i].content);
      OpenAITexts(c, messages, i + 1);
      TextBlocksTexts(c, i, messages[i].role, texts, 0);
      ShownIsNonEmpty(messages[i].content);
      assert texts[0..] == texts;
      TextsConcat(TextBlocks(c, i, messages[i].role, texts, 0), OpenAIBlocks(c, messages, i + 1));
    }
  }

  function PartTexts(parts: seq<AnthropicPart>): (texts: seq<string>)
    ensures |texts| == |parts| && forall j :: 0 <= j < |parts| ==> texts[j] == PartText(parts[j])
  {
    seq(|parts|, j requires 0 <= j < |parts| => PartText(parts[j]))
  }

  /** The non-empty texts of the messages of an Anthropic request, in order. */
  function MessageTexts(messages: seq<AnthropicMessage>, i: nat): seq<string>
    requires i <= |messages|
    decreases |messages| - i
  {
    if i == |messages| then []
    else NonEmpty(PartTexts(MessageParts(messages[i].content))) + MessageTexts(messages, i + 1)
  }

  lemma {:induction false} PartBlocksTexts(c: Classifier, i: nat, role: string, parts: seq<AnthropicPart>, j: nat)
    requires j <= |parts|
    ensures Texts(PartBlocks(c, i, role, parts, j)) == NonEmpty(PartTexts(parts)[j..])
    decreases |parts| - j
  {
    if j < |parts| {
      PartBlocksTexts(c, i, role, parts, j + 1);
      var texts, later := PartTexts(parts), PartBlocks(c, i, role, parts, j + 1);
      assert texts[j..][0] == texts[j] && texts[j..][1..] == texts[j + 1..];
      if texts[j] == "" {
        assert [] + later == later && [] + NonEmpty(texts[j + 1..]) == NonEmpty(texts[j + 1..]);
      } else {
        ConsDrop(PartBlock(c, i, j, role, parts[j]), later);
      }
    }
  }

  /** Detection misses no text of an Anthropic message and invents none. */
  lemma {:induction false} AnthropicTexts(c: Classifier, messages: seq<AnthropicMessage>, i: nat)
    requires i <= |messages|
    ensures Texts(AnthropicBlocks(c, messages, i)) == MessageTexts(messages, i)
    decreases |messages| - i
  {
    if i < |messages| {
      var parts := MessageParts(messages[i].content);
      AnthropicTexts(c, messages, i + 1);
      PartBlocksTexts(c, i, messages[i].role, parts, 0);
      assert PartTexts(parts)[0..] == PartTexts(parts);
      TextsConcat(PartBlocks(c, i, messages[i].role, parts, 0), AnthropicBlocks(c, messages, i + 1));
    }
  }

  // ----- Paths tell blocks apart -----

  /** The path leads into message i. */
  ghost predicate Into(path: string, i: nat) {
    exists rest :: path == MessagePath(i, rest)
  }

  lemma MessagePathUnique(i: nat, k: nat, x: string, y: string)
    requires MessagePath(i, x) == MessagePath(k, y)
    ensures i == k && x == y
  {
    var p := "$.messages[";
    var s, t := Dec(i) + [']'] + x, Dec(k) + [']'] + y;
    assert MessagePath(i, x) == p + s && MessagePath(k, y) == p + t;
    AppendDrop(p, s);
    AppendDrop(p, t);
    DecPrefixUnique(i, k, ']', x, y);
  }

  lemma PartPathUnique(i: nat, j: nat, x: string, k: nat, m: nat, y: string)
    requires PartPath(i, j, x) == PartPath(k, m, y)
    ensures i == k && j == m
  {
    var p := ".content[";
    var s, t := Dec(j) + [']'] + x, Dec(m) + [']'] + y;
    MessagePathUnique(i, k, p + Dec(j) + "]" + x, p + Dec(m) + "]" + y);
    assert p + Dec(j) + "]" + x == p + s && p + Dec(m) + "]" + y == p + t;
    AppendDrop(p, s);
    AppendDrop(p, t);
    DecPrefixUnique(j, m, ']', x, y);
  }

  predicate DistinctPaths(blocks: seq<Block>) {
    forall a, b :: 0 <= a < b < |blocks| ==> blocks[a].path != blocks[b].path
  }

  lemma DistinctConcat(a: seq<Block>, b: seq<Block>)
    requires DistinctPaths(a) && DistinctPaths(b)
    requires forall x, y :: x in a && y in b ==> x.path != y.path
    ensures DistinctPaths(a + b)
  {
    forall i, j | 0 <= i < j < |a + b| ensures (a + b)[i].path != (a + b)[j].path {
      if i < |a| <= j { assert (a + b)[i] in a && (a + b)[j] in b; }
    }
  }

  lemma {:induction false} TextBlocksPaths(c: Classifier, i: nat, role: string, texts: seq<string>, j: nat)
    requires j <= |texts|
    ensures forall b :: b in TextBlocks(c, i, role, texts, j) ==>
      exists k :: j <= k < |texts| && b.path == TextPath(i, k, |texts|)
    ensures DistinctPaths(TextBlocks(c, i, role, texts, j))
    decreases |texts| - j
  {
    if j < |texts| {
      TextBlocksPaths(c, i, role, texts, j + 1);
      var later := TextBlocks(c, i, role, texts, j + 1);
      if texts[j] != "" {
        var block := NewBlock(c, OpenAI, TextPath(i, j, |texts|), role, texts[j]);
        forall y | y in later ensures y.path != block.path {
          var k :| j + 1 <= k < |texts| && y.path == TextPath(i, k, |texts|);
          if y.path == block.path { PartPathUnique(i, j, ".text", i, k, ".text"); }
        }
        DistinctConcat([block], later);
      }
    }
  }

  lemma TextPathInto(i: nat, k: nat, count: nat)
    ensures Into(TextPath(i, k, count), i)
  {
    if count > 1 {
      assert TextPath(i, k, count) == MessagePath(i, ".content[" + Dec(k) + "]" + ".text");
    } else {
      assert TextPath(i, k, count) == MessagePath(i, ".content");
    }
  }

  /** Blocks of an OpenAI request have pairwise different paths. */
  lemma {:induction false} OpenAIPaths(c: Classifier, messages: seq<OpenAIMessage>, i: nat)
    requires i <= |messages|
    ensures forall b :: b in OpenAIBlocks(c, messages, i) ==> exists k: nat :: k >= i && Into(b.path, k)
    ensures DistinctPaths(OpenAIBlocks(c, messages, i))
    decreases |messages| - i
  {
    if i < |messages| {
      var texts := ContentTexts(messages[i].content);
      var now := TextBlocks(c, i, messages[i].role, texts, 0);
      var later := OpenAIBlocks(c, messages, i + 1);
      OpenAIPaths(c, messages, i + 1);
      TextBlocksPaths(c, i, messages[i].role, texts, 0);
      forall b | b in now ensures Into(b.path, i) {
        var k :| 0 <= k < |texts| && b.path == TextPath(i, k, |texts|);
        TextPathInto(i, k, |texts|);
      }
      SeparateMessages(now, later, i);
      DistinctConcat(now, later);
    }
  }

  lemma SeparateMessages(now: seq<Block>, later: seq<Block>, i: nat)
    requires forall b :: b in now ==> Into(b.path, i)
    requires forall b :: b in later ==> exists k: nat :: k >= i + 1 && Into(b.path, k)
    ensures forall x, y :: x in now && y in later ==> x.path != y.path
  {
    forall x, y | x in now && y in later ensures x.path != y.path {
      var k: nat :| k >= i + 1 && Into(y.path, k);
      var r :| x.path == MessagePath(i, r);
      var s :| y.path == MessagePath(k, s);
      if x.path == y.path { MessagePathUnique(i, k, r, s); }
    }
  }

  lemma {:induction false} PartBlocksPaths(c: Classifier, i: nat, role: string, parts: seq<AnthropicPart>, j: nat)
    requires j <= |parts|
    ensures forall b :: b in PartBlocks(c, i, role, parts, j) ==>
      exists k: nat, leaf :: j <= k && b.path == PartPath(i, k, leaf)
    ensures DistinctPaths(PartBlocks(c, i, role, parts, j))
    decreases |parts| - j
  {
    if j < |parts| {
      PartBlocksPaths(c, i, role, parts, j + 1);
      var later := PartBlocks(c, i, role, parts, j + 1);
      if PartText(parts[j]) != "" {
        var block := PartBlock(c, i, j, role, parts[j]);
        var own := if parts[j].kind == "tool_result" then ".content" else ".text";
        assert block.path == PartPath(i, j, own);
        forall y | y in later ensures y.path != block.path {
          var k: nat, leaf :| j + 1 <= k && y.path == PartPath(i, k, leaf);
          if y.path == block.path { PartPathUnique(i, j, own, i, k, leaf); }
        }
        DistinctConcat([block], later);
      }
    }
  }

  lemma PartsInto(c: Classifier, i: nat, role: string, parts: seq<AnthropicPart>)
    ensures DistinctPaths(PartBlocks(c, i, role, parts, 0))
    ensures forall b :: b in PartBlocks(c, i, role, parts, 0) ==> Into(b.path, i)
  {
    PartBlocksPaths(c, i, role, parts, 0);
    forall b | b in PartBlocks(c, i, role, parts, 0) ensures Into(b.path, i) {
      var k: nat, leaf :| 0 <= k && b.path == PartPath(i, k, leaf);
      assert b.path == MessagePath(i, ".content[" + Dec(k) + "]" + leaf);
    }
  }

  /** Blocks of the messages of an Anthropic request have pairwise different paths. */
  lemma {:induction false} AnthropicPaths(c: Classifier, messages: seq<AnthropicMessage>, i: nat)
    requires i <= |messages|
    ensures forall b :: b in AnthropicBlocks(c, messages, i) ==> exists k: nat :: k >= i && Into(b.path, k)
    ensures DistinctPaths(AnthropicBlocks(c, messages, i))
    decreases |messages| - i
  {
    if i < |messages| {
      var parts := MessageParts(messages[i].content);
      var now := PartBlocks(c, i, messages[i].role, parts, 0);
      var later := AnthropicBlocks(c, messages, i + 1);
      AnthropicPaths(c, messages, i + 1);
      PartsInto(c, i, messages[i].role, parts);
      SeparateMessages(now, later, i);
      DistinctConcat(now, later);
    }
  }

  // ----- Whole requests -----

  function OpenAIRequestBlocks(c: Classifier, messages: seq<OpenAIMessage>): seq<Block> {
    WithIDs(OpenAIBlocks(c, messages, 0))
  }

  function AnthropicRequestBlocks(c: Classifier, request: AnthropicRequest): seq<Block> {
    WithIDs(SystemBlocks(SystemTexts(request.system)) + AnthropicBlocks(c, request.messages, 0))
  }

  predicate Numbered(blocks: seq<Block>) {
    forall i :: 0 <= i < |blocks| ==> blocks[i].id == "block_" + Dec(i + 1)
  }

  /** Every detected block is live exactly when it is a selected tool result, no block
      is empty, and IDs number the blocks from one. */
  lemma DetectedZones(c: Classifier, messages: seq<OpenAIMessage>, request: AnthropicRequest)
    ensures AllZoned(OpenAIRequestBlocks(c, messages)) && AllZoned(AnthropicRequestBlocks(c, request))
    ensures DistinctPaths(OpenAIRequestBlocks(c, messages))
    ensures Numbered(OpenAIRequestBlocks(c, messages)) && Numbered(AnthropicRequestBlocks(c, request))
  {
    OpenAIZoned(c, messages, 0);
    OpenAIPaths(c, messages, 0);
    AnthropicZoned(c, request.messages, 0);
    SystemZoned(SystemTexts(request.system));
  }

  // ----- The system texts of an Anthropic request -----

  lemma {:induction false} SystemBlocksAre(texts: seq<string>)
    ensures Texts(SystemBlocks(texts)) == NonEmpty(texts) && |SystemBlocks(texts)| == |NonEmpty(texts)|
    ensures forall i :: 0 <= i < |SystemBlocks(texts)| ==> SystemBlocks(texts)[i].path == SystemPath
  {
    if texts != [] {
      SystemBlocksAre(texts[1..]);
      var later := SystemBlocks(texts[1..]);
      if texts[0] == "" {
        assert [] + later == later && [] + NonEmpty(texts[1..]) == NonEmpty(texts[1..]);
      } else {
        ConsDrop(SystemBlock(texts[0]), later);
      }
    }
  }

  lemma {:induction false} TextsAt(blocks: seq<Block>, k: nat)
    requires k < |blocks|
    ensures |Texts(blocks)| == |blocks| && Texts(blocks)[k] == blocks[k].text
  {
    if |blocks| > 1 { TextsAt(blocks[1..], if k == 0 then 0 else k - 1); }
  }

  lemma SameTexts(a: seq<Block>, b: seq<Block>)
    requires |a| == |b| && forall i :: 0 <= i < |a| ==> a[i].text == b[i].text
    ensures Texts(a) == Texts(b)
  {
    if a != [] {
      forall k | 0 <= k < |a| ensures |Texts(a)| == |Texts(b)| == |a| && Texts(a)[k] == Texts(b)[k] {
        TextsAt(a, k);
        TextsAt(b, k);
      }
      TextsAt(a, 0);
      TextsAt(b, 0);
    }
  }

  /** The non-empty system texts. */
  function ShownSystem(system: AnthropicSystem): seq<string> {
    match system
    case SystemText(text) => if text == "" then [] else [text]
    case SystemParts(texts) => NonEmpty(texts)
    case _ => []
  }

  lemma ShownSystemIs(system: AnthropicSystem)
    ensures NonEmpty(SystemTexts(system)) == ShownSystem(system)
  {
    match system
    case SystemText(text) =>
      assert [text][1..] == [] && [text] + [] == [text];
      assert NonEmpty([text]) == (if text == "" then [] else [text]) + NonEmpty([text][1..]);
    case SystemParts(texts) => NonEmptyTwice(texts);
    case _ =>
  }

  /** Detection finds exactly the non-empty texts of an Anthropic request, those of the
      system first. */
  lemma AnthropicRequestTexts(c: Classifier, request: AnthropicRequest)
    ensures Texts(AnthropicRequestBlocks(c, request)) ==
            ShownSystem(request.system) + MessageTexts(request.messages, 0)
  {
    ShownSystemIs(request.system);
    var system, messages := SystemBlocks(SystemTexts(request.system)), AnthropicBlocks(c, request.messages, 0);
    SystemBlocksAre(SystemTexts(request.system));
    AnthropicTexts(c, request.messages, 0);
    TextsConcat(system, messages);
    SameTexts(AnthropicRequestBlocks(c, request), system + messages);
  }

  lemma SystemPathApart(k: nat, rest: string)
    ensures SystemPath != MessagePath(k, rest)
  {
    assert SystemPath[2] == 's' && MessagePath(k, rest)[2] == 'm';
  }

  lemma DistinctWithIDs(blocks: seq<Block>)
    ensures DistinctPaths(WithIDs(blocks)) <==> DistinctPaths(blocks)
  {
    var numbered := WithIDs(blocks);
    assert forall i :: 0 <= i < |blocks| ==> numbered[i].path == blocks[i].path;
  }

  /** All system texts share one path, so the paths of an Anthropic request are pairwise
      different if and only if it has at most one non-empty system text. */
  lemma AnthropicPathsIff(c: Classifier, request: AnthropicRequest)
    ensures DistinctPaths(AnthropicRequestBlocks(c, request)) <==> |ShownSystem(request.system)| <= 1
  {
    ShownSystemIs(request.system);
    var system, messages := SystemBlocks(SystemTexts(request.system)), AnthropicBlocks(c, request.messages, 0);
    DistinctWithIDs(system + messages);
    SystemBlocksAre(SystemTexts(request.system));
    if |system| > 1 {
      assert (system + messages)[0] == system[0] && (system + messages)[1] == system[1];
    } else {
      AnthropicPaths(c, request.messages, 0);
      forall x, y | x in system && y in messages ensures x.path != y.path {
        var k: nat :| Into(y.path, k);
        var rest :| y.path == MessagePath(k, rest);
        SystemPathApart(k, rest);
      }
      DistinctConcat(system, messages);
    }
  }

  /** Two system parts are two blocks with one path. */
  lemma SystemPathsCollide(c: Classifier, messages: seq<AnthropicMessage>, a: string, b: string)
    requires a != "" && b != ""
    ensures !DistinctPaths(AnthropicRequestBlocks(c, AnthropicRequest(SystemParts([a] + [b]), messages)))
  {
    var request := AnthropicRequest(SystemParts([a] + [b]), messages);
    AnthropicPathsIff(c, request);
    assert ([a] + [b])[1..] == [b] && [b][1..] == [];
    assert NonEmpty([b]) == [b] + [] && NonEmpty([a] + [b]) == [a] + NonEmpty([b]);
  }

  lemma {:induction false} NonEmptyTwice(texts: seq<string>)
    ensures NonEmpty(NonEmpty(texts)) == NonEmpty(texts)
  {
    if texts != [] {
      NonEmptyTwice(texts[1..]);
      ConsDrop(texts[0], NonEmpty(texts[1..]));
      assert [] + NonEmpty(texts[1..]) == NonEmpty(texts[1..]);
    }
  }

  // ----- Which blocks a request has -----

  /** What the role of a message makes of a block: tool messages alone are live. */
  predicate FromRole(b: Block, role: string) {
    && b.role == role
    && (b.selected <==> role == "tool") && (b.stability == Live <==> role == "tool")
    && (b.source == ToolResult <==> role == "tool")
    && (b.source == System <==> role == "system" || role == "developer")
    && (b.source == AssistantMessage <==> role == "assistant")
  }

  /** A block as a message of this role and this text gives it. */
  predicate Describes(c: Classifier, b: Block, provider: Provider, path: string, role: string, text: string) {
    && b.id == "" && b.provider == provider && b.path == path && b.text == text && b.contentType == c(text)
    && FromRole(b, role)
  }

  lemma NewBlockIff(c: Classifier, b: Block, provider: Provider, path: string, role: string, text: string)
    ensures b == NewBlock(c, provider, path, role, text) <==> Describes(c, b, provider, path, role, text)
  {
  }

  /** NonEmpty drops the empty texts and nothing else. */
  lemma {:induction false} NonEmptyCount(texts: seq<string>, x: string)
    ensures multiset(NonEmpty(texts))[x] == if x == "" then 0 else multiset(texts)[x]
  {
    if texts != [] {
      NonEmptyCount(texts[1..], x);
      assert texts == [texts[0]] + texts[1..];
    }
  }

  /** The block is the k-th non-empty text of message i. */
  predicate OpenAIBlockAt(c: Classifier, messages: seq<OpenAIMessage>, i: nat, k: nat, b: Block) {
    && i < |messages|
    && var texts := ShownTexts(messages[i].content);
       && k < |texts|
       && Describes(c, b, OpenAI,
                    if |texts| > 1 then "$.messages[" + Dec(i) + "]" + (".content[" + Dec(k) + "]" + ".text")
                    else "$.messages[" + Dec(i) + "]" + ".content",
                    messages[i].role, texts[k])
  }

  lemma InConcat<T>(x: T, a: seq<T>, b: seq<T>)
    ensures x in a + b <==> x in a || x in b
  {
  }

  /** The block is that of text k of an OpenAI message. */
  predicate IsTextBlock(c: Classifier, i: nat, role: string, texts: seq<string>, k: nat, b: Block) {
    k < |texts| && texts[k] != "" && b == NewBlock(c, OpenAI, TextPath(i, k, |texts|), role, texts[k])
  }

  ghost predicate IsTextBlockFrom(c: Classifier, i: nat, role: string, texts: seq<string>, j: nat, b: Block) {
    exists k: nat :: j <= k && IsTextBlock(c, i, role, texts, k, b)
  }

  lemma TextBlockStep(c: Classifier, i: nat, role: string, texts: seq<string>, j: nat, b: Block)
    ensures IsTextBlockFrom(c, i, role, texts, j, b) <==>
      IsTextBlock(c, i, role, texts, j, b) || IsTextBlockFrom(c, i, role, texts, j + 1, b)
  {
  }

  lemma {:induction false} TextBlocksIff(c: Classifier, i: nat, role: string, texts: seq<string>, j: nat, b: Block)
    requires j <= |texts|
    ensures b in TextBlocks(c, i, role, texts, j) <==> IsTextBlockFrom(c, i, role, texts, j, b)
    decreases |texts| - j
  {
    if j < |texts| {
      TextBlocksIff(c, i, role, texts, j + 1, b);
      TextBlockStep(c, i, role, texts, j, b);
      var block := NewBlock(c, OpenAI, TextPath(i, j, |texts|), role, texts[j]);
      InConcat(b, if texts[j] == "" then [] else [block], TextBlocks(c, i, role, texts, j + 1));
    }
  }

  lemma {:induction false} NonEmptyAll(texts: seq<string>)
    ensures forall k :: 0 <= k < |NonEmpty(texts)| ==> NonEmpty(texts)[k] != ""
  {
    if texts != [] { NonEmptyAll(texts[1..]); }
  }

  lemma MessageBlocksIff(c: Classifier, messages: seq<OpenAIMessage>, i: nat, k: nat, b: Block)
    requires i < |messages|
    ensures IsTextBlock(c, i, messages[i].role, ContentTexts(messages[i].content), k, b) <==>
      OpenAIBlockAt(c, messages, i, k, b)
  {
    var role, texts := messages[i].role, ContentTexts(messages[i].content);
    if messages[i].content.Parts? { NonEmptyAll(messages[i].content.texts); }
    if k < |texts| { NewBlockIff(c, b, OpenAI, TextPath(i, k, |texts|), role, texts[k]); }
  }

  /** The block belongs to message i. */
  ghost predicate OpenAIBlockIn(c: Classifier, messages: seq<OpenAIMessage>, i: nat, b: Block) {
    exists k: nat :: OpenAIBlockAt(c, messages, i, k, b)
  }

  lemma MessageBlocks(c: Classifier, messages: seq<OpenAIMessage>, i: nat, b: Block)
    requires i < |messages|
    ensures b in TextBlocks(c, i, messages[i].role, ContentTexts(messages[i].content), 0) <==>
      OpenAIBlockIn(c, messages, i, b)
  {
    var role, texts := messages[i].role, ContentTexts(messages[i].content);
    TextBlocksIff(c, i, role, texts, 0, b);
    forall k: nat ensures IsTextBlock(c, i, role, texts, k, b) <==> OpenAIBlockAt(c, messages, i, k, b) {
      MessageBlocksIff(c, messages, i, k, b);
    }
  }

  ghost predicate OpenAIBlockFrom(c: Classifier, messages: seq<OpenAIMessage>, i: nat, b: Block) {
    exists m: nat :: i <= m && OpenAIBlockIn(c, messages, m, b)
  }

  lemma OpenAIStep(c: Classifier, messages: seq<OpenAIMessage>, i: nat, b: Block)
    ensures OpenAIBlockFrom(c, messages, i, b) <==>
      OpenAIBlockIn(c, messages, i, b) || OpenAIBlockFrom(c, messages, i + 1, b)
    ensures i >= |messages| ==> !OpenAIBlockFrom(c, messages, i, b)
  {
  }

  lemma {:induction false} OpenAIBlocksFrom(c: Classifier, messages: seq<OpenAIMessage>, i: nat, b: Block)
    requires i <= |messages|
    ensures b in OpenAIBlocks(c, messages, i) <==> OpenAIBlockFrom(c, messages, i, b)
    decreases |messages| - i
  {
    OpenAIStep(c, messages, i, b);
    if i < |messages| {
      OpenAIBlocksFrom(c, messages, i + 1, b);
      MessageBlocks(c, messages, i, b);
      InConcat(b, TextBlocks(c, i, messages[i].role, ContentTexts(messages[i].content), 0),
               OpenAIBlocks(c, messages, i + 1));
    }
  }

  /** The blocks of an OpenAI request are exactly the non-empty texts of its messages,
      each with the path, the role and the zone its message gives it. */
  lemma OpenAIBlocksIff(c: Classifier, messages: seq<OpenAIMessage>, b: Block)
    ensures b in OpenAIBlocks(c, messages, 0) <==> exists i: nat, k: nat :: OpenAIBlockAt(c, messages, i, k, b)
  {
    OpenAIBlocksFrom(c, messages, 0, b);
    forall i: nat, k: nat | OpenAIBlockAt(c, messages, i, k, b) ensures OpenAIBlockIn(c, messages, i, b) {
    }
  }

  /** What an Anthropic part shows: its own text, or else what its content holds. */
  lemma PartTextReads(part: AnthropicPart)
    ensures part.text != "" ==> PartText(part) == part.text
    ensures part.text == "" ==>
      match part.content
      case Absent => PartText(part) == ""
      case Plain(text) => PartText(part) == text
      case Items(texts) => PartText(part) == Join(NonEmpty(texts), "\n")
      case Verbatim(json) => PartText(part) == json
  {
  }

  /** The part of this index, if the content has one. */
  predicate HasPart(content: AnthropicContent, j: nat, kind: string, text: string) {
    match content
    case OneText(t) => j == 0 && kind == "text" && text == t
    case PartList(parts) => j < |parts| && kind == parts[j].kind && text == PartText(parts[j])
    case Malformed => false
  }

  /** The block is part j of message i: a tool result is live whatever the role. */
  predicate AnthropicBlockAt(c: Classifier, messages: seq<AnthropicMessage>, i: nat, j: nat, kind: string, b: Block) {
    && i < |messages| && HasPart(messages[i].content, j, kind, b.text) && b.text != ""
    && if kind == "tool_result" then
         && b.id == "" && b.provider == Anthropic && b.role == messages[i].role && b.contentType == c(b.text)
         && b.path == "$.messages[" + Dec(i) + "]" + (".content[" + Dec(j) + "]" + ".content")
         && b.selected && b.stability == Live && b.source == ToolResult
       else
         Describes(c, b, Anthropic, "$.messages[" + Dec(i) + "]" + (".content[" + Dec(j) + "]" + ".text"),
                   messages[i].role, b.text)
  }

  predicate IsPartBlock(c: Classifier, i: nat, role: string, parts: seq<AnthropicPart>, k: nat, b: Block) {
    k < |parts| && PartText(parts[k]) != "" && b == PartBlock(c, i, k, role, parts[k])
  }

  ghost predicate IsPartBlockFrom(c: Classifier, i: nat, role: string, parts: seq<AnthropicPart>, j: nat, b: Block) {
    exists k: nat :: j <= k && IsPartBlock(c, i, role, parts, k, b)
  }

  lemma PartBlockStep(c: Classifier, i: nat, role: string, parts: seq<AnthropicPart>, j: nat, b: Block)
    ensures IsPartBlockFrom(c, i, role, parts, j, b) <==>
      IsPartBlock(c, i, role, parts, j, b) || IsPartBlockFrom(c, i, role, parts, j + 1, b)
  {
  }

  lemma {:induction false} PartBlocksIff(c: Classifier, i: nat, role: string, parts: seq<AnthropicPart>, j: nat,
                                         b: Block)
    requires j <= |parts|
    ensures b in PartBlocks(c, i, role, parts, j) <==> IsPartBlockFrom(c, i, role, parts, j, b)
    decreases |parts| - j
  {
    if j < |parts| {
      PartBlocksIff(c, i, role, parts, j + 1, b);
      PartBlockStep(c, i, role, parts, j, b);
      var block := PartBlock(c, i, j, role, parts[j]);
      InConcat(b, if PartText(parts[j]) == "" then [] else [block], PartBlocks(c, i, role, parts, j + 1));
    }
  }

  lemma PartBlockIff(c: Classifier, messages: seq<AnthropicMessage>, i: nat, k: nat, part: AnthropicPart, b: Block)
    requires i < |messages| && HasPart(messages[i].content, k, part.kind, PartText(part))
    ensures b == PartBlock(c, i, k, messages[i].role, part) && PartText(part) != "" <==>
      AnthropicBlockAt(c, messages, i, k, part.kind, b)
  {
    NewBlockIff(c, b, Anthropic, PartPath(i, k, ".text"), messages[i].role, PartText(part));
  }

  lemma PartsAreParts(content: AnthropicContent, k: nat, kind: string, text: string)
    ensures HasPart(content, k, kind, text) <==>
      k < |MessageParts(content)| && MessageParts(content)[k].kind == kind && PartText(MessageParts(content)[k]) == text
  {
  }

  /** The block belongs to message i. */
  ghost predicate AnthropicBlockIn(c: Classifier, messages: seq<AnthropicMessage>, i: nat, b: Block) {
    exists k: nat, kind :: AnthropicBlockAt(c, messages, i, k, kind, b)
  }

  lemma AnthropicMessageIff(c: Classifier, messages: seq<AnthropicMessage>, i: nat, b: Block)
    requires i < |messages|
    ensures b in PartBlocks(c, i, messages[i].role, MessageParts(messages[i].content), 0) <==>
      AnthropicBlockIn(c, messages, i, b)
  {
    var role, parts := messages[i].role, MessageParts(messages[i].content);
    PartBlocksIff(c, i, role, parts, 0, b);
    if IsPartBlockFrom(c, i, role, parts, 0, b) {
      var k: nat :| IsPartBlock(c, i, role, parts, k, b);
      PartsAreParts(messages[i].content, k, parts[k].kind, PartText(parts[k]));
      PartBlockIff(c, messages, i, k, parts[k], b);
    }
    if AnthropicBlockIn(c, messages, i, b) {
      var k: nat, kind :| AnthropicBlockAt(c, messages, i, k, kind, b);
      PartsAreParts(messages[i].content, k, kind, b.text);
      PartBlockIff(c, messages, i, k, parts[k], b);
      assert IsPartBlock(c, i, role, parts, k, b);
    }
  }

  ghost predicate AnthropicBlockFrom(c: Classifier, messages: seq<AnthropicMessage>, i: nat, b: Block) {
    exists m: nat :: i <= m && AnthropicBlockIn(c, messages, m, b)
  }

  lemma AnthropicStep(c: Classifier, messages: seq<AnthropicMessage>, i: nat, b: Block)
    ensures AnthropicBlockFrom(c, messages, i, b) <==>
      AnthropicBlockIn(c, messages, i, b) || AnthropicBlockFrom(c, messages, i + 1, b)
    ensures i >= |messages| ==> !AnthropicBlockFrom(c, messages, i, b)
  {
  }

  lemma {:induction false} AnthropicBlocksFrom(c: Classifier, messages: seq<AnthropicMessage>, i: nat, b: Block)
    requires i <= |messages|
    ensures b in AnthropicBlocks(c, messages, i) <==> AnthropicBlockFrom(c, messages, i, b)
    decreases |messages| - i
  {
    AnthropicStep(c, messages, i, b);
    if i < |messages| {
      AnthropicBlocksFrom(c, messages, i + 1, b);
      AnthropicMessageIff(c, messages, i, b);
      InConcat(b, PartBlocks(c, i, messages[i].role, MessageParts(messages[i].content), 0),
               AnthropicBlocks(c, messages, i + 1));
    }
  }

  /** The message blocks of an Anthropic request are exactly the parts that show a text. */
  lemma AnthropicBlocksIff(c: Classifier, messages: seq<AnthropicMessage>, b: Block)
    ensures b in AnthropicBlocks(c, messages, 0) <==>
      exists i: nat, j: nat, kind :: AnthropicBlockAt(c, messages, i, j, kind, b)
  {
    AnthropicBlocksFrom(c, messages, 0, b);
    forall i: nat, j: nat, kind | AnthropicBlockAt(c, messages, i, j, kind, b)
      ensures AnthropicBlockIn(c, messages, i, b)
    {
    }
  }

  // ----- Which blocks may be compressed -----

  /** A block of an OpenAI request is live if and only if its message is a tool message. */
  lemma OpenAISelected(c: Classifier, messages: seq<OpenAIMessage>, n: nat, i: nat)
    requires n < |OpenAIRequestBlocks(c, messages)| && i < |messages|
    requires Into(OpenAIRequestBlocks(c, messages)[n].path, i)
    ensures var b := OpenAIRequestBlocks(c, messages)[n];
            b.role == messages[i].role && (b.selected <==> messages[i].role == "tool")
  {
    var b := OpenAIBlocks(c, messages, 0)[n];
    assert b in OpenAIBlocks(c, messages, 0);
    OpenAIBlocksIff(c, messages, b);
    var m: nat, k: nat :| OpenAIBlockAt(c, messages, m, k, b);
    var shown := |ShownTexts(messages[m].content)|;
    TextPathInto(m, k, shown);
    assert b.path == TextPath(m, k, shown);
    SameMessage(b.path, i, m);
  }

  lemma SameMessage(path: string, i: nat, m: nat)
    requires Into(path, i) && Into(path, m)
    ensures i == m
  {
    var r :| path == MessagePath(i, r);
    var s :| path == MessagePath(m, s);
    MessagePathUnique(i, m, r, s);
  }

  /** A block of an Anthropic message is live if and only if its part is a tool result or
      its message a tool message; a system block never is. */
  lemma AnthropicSelected(c: Classifier, request: AnthropicRequest, n: nat, i: nat, j: nat, leaf: string)
    requires n < |AnthropicRequestBlocks(c, request)| && i < |request.messages|
    requires AnthropicRequestBlocks(c, request)[n].path == PartPath(i, j, leaf)
    ensures var b := AnthropicRequestBlocks(c, request)[n];
            && b.role == request.messages[i].role
            && exists kind :: HasPart(request.messages[i].content, j, kind, b.text)
                              && (b.selected <==> kind == "tool_result" || request.messages[i].role == "tool")
  {
    var system, messages := SystemBlocks(SystemTexts(request.system)), AnthropicBlocks(c, request.messages, 0);
    var b := (system + messages)[n];
    SystemBlocksAre(SystemTexts(request.system));
    SystemPathApart(i, ".content[" + Dec(j) + "]" + leaf);
    assert b in messages by { assert n >= |system|; }
    AnthropicBlocksIff(c, request.messages, b);
    var m: nat, k: nat, kind :| AnthropicBlockAt(c, request.messages, m, k, kind, b);
    var own := if kind == "tool_result" then ".content" else ".text";
    assert b.path == PartPath(m, k, own);
    PartPathUnique(i, j, leaf, m, k, own);
    assert HasPart(request.messages[i].content, j, kind, b.text);
  }

  lemma SystemNeverSelected(c: Classifier, request: AnthropicRequest, n: nat)
    requires n < |AnthropicRequestBlocks(c, request)|
    requires AnthropicRequestBlocks(c, request)[n].path == "$.system"
    ensures !AnthropicRequestBlocks(c, request)[n].selected
  {
    var system, messages := SystemBlocks(SystemTexts(request.system)), AnthropicBlocks(c, request.messages, 0);
    var b := (system + messages)[n];
    SystemUnselected(SystemTexts(request.system));
    if b in messages { MessageIsNotSystem(c, request.messages, b); }
  }

  lemma MessageIsNotSystem(c: Classifier, messages: seq<AnthropicMessage>, b: Block)
    requires b in AnthropicBlocks(c, messages, 0)
    ensures b.path != "$.system"
  {
    AnthropicPaths(c, messages, 0);
    var k: nat :| Into(b.path, k);
    var rest :| b.path == MessagePath(k, rest);
    SystemPathApart(k, rest);
  }

  /** The system blocks of an Anthropic request are exactly its non-empty system texts. */
  lemma {:induction false} SystemBlocksIff(texts: seq<string>, b: Block)
    ensures b in SystemBlocks(texts) <==>
      && b.text in texts && b.text != ""
      && b == Block("block_1", Anthropic, "$.system", "system", System, Stable, ContentText, b.text, false)
  {
    if texts != [] { SystemBlocksIff(texts[1..], b); }
  }

  lemma {:induction false} SystemUnselected(texts: seq<string>)
    ensures forall i :: 0 <= i < |SystemBlocks(texts)| ==> !SystemBlocks(texts)[i].selected
  {
    if texts != [] { SystemUnselected(texts[1..]); }
  }
}

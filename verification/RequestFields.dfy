/** What an accepted request becomes in the other protocol, field by field and message by message, and exactly which requests
    are accepted. */
module RequestFields {
  import opened Outcomes
  import opened Strings
  import opened Requests

  // ------------------------------------------------------------------ images

  /** What an image URL stands for. Trimmed, it is a data URL of base64 bytes under an image type, or a remote address. */
  predicate ImageIs(lib: Lib, raw: string, s: Source) {
    match s
    case UrlSource(url) => url == Trim(raw) && !("data:" <= url) && lib.remote(url)
    case DataSource(media, data) =>
      && Trim(raw) == "data:" + (media + ";base64") + "," + data
      && ',' !in media && ';' !in media && !Strings.Blank(media) && !Strings.Blank(data) && lib.imageType(media) && lib.base64(data)
  }

  lemma FirstIndex(s: string, c: char, k: int)
    requires 0 <= k < |s| && s[k] == c && c !in s[..k]
    ensures IndexOf(s, c) == k
  {
    assert forall j :: 0 <= j < k ==> s[j] == s[..k][j];
  }

  /** A URL is read as an image exactly as that. */
  lemma ImageMeans(lib: Lib, raw: string)
    ensures ParseImage(lib, raw).Some? ==> ImageIs(lib, raw, ParseImage(lib, raw).value)
    ensures forall s :: ImageIs(lib, raw, s) ==> ParseImage(lib, raw) == Some(s)
  {
    hide Trim, Strings.Blank, IndexOf;
    var value := Trim(raw);
    if ParseImage(lib, raw).Some? && ParseImage(lib, raw).value.DataSource? { DataIs(lib, value[5..], value); }
    forall s | ImageIs(lib, raw, s) ensures ParseImage(lib, raw) == Some(s) {
      if s.DataSource? { IsData(lib, s.media, s.data, value); }
    }
  }

  lemma DataIs(lib: Lib, payload: string, value: string)
    requires "data:" <= value && payload == value[5..] && ParseData(lib, payload).Some?
    ensures var s := ParseData(lib, payload).value;
            s.DataSource? && value == "data:" + (s.media + ";base64") + "," + s.data && ',' !in s.media && ';' !in s.media
  {
    hide Strings.Blank, IndexOf;
    var comma := IndexOf(payload, ',');
    var semi := IndexOf(payload[..comma], ';');
    Rejoined(payload, comma, semi, value);
    assert forall c :: c in payload[..comma][..semi] ==> c in payload[..comma];
  }

  lemma Rejoined(payload: string, comma: nat, semi: nat, value: string)
    requires "data:" <= value && payload == value[5..]
    requires semi <= comma < |payload| && payload[comma] == ',' && payload[..comma][semi..] == BASE64_MARK
    ensures value == "data:" + (payload[..comma][..semi] + ";base64") + "," + payload[comma + 1..]
  {
    var metadata := payload[..comma];
    assert metadata == metadata[..semi] + BASE64_MARK;
    assert payload == metadata + "," + payload[comma + 1..];
    assert value == "data:" + payload;
  }

  lemma IsData(lib: Lib, media: string, data: string, value: string)
    requires value == "data:" + (media + ";base64") + "," + data && ',' !in media && ';' !in media
    ensures "data:" <= value
    ensures !Strings.Blank(media) && !Strings.Blank(data) && lib.imageType(media) && lib.base64(data) ==>
              ParseData(lib, value[5..]) == Some(DataSource(media, data))
  {
    hide Strings.Blank, IndexOf;
    var metadata := media + ";base64";
    var payload := value[5..];
    assert payload == metadata + "," + data;
    assert payload[..|metadata|] == metadata && payload[|metadata| + 1..] == data;
    assert ',' !in ";base64";
    FirstIndex(payload, ',', |metadata|);
    assert metadata[..|media|] == media && metadata[|media|..] == BASE64_MARK;
    FirstIndex(metadata, ';', |media|);
  }

  // ------------------------------------------------------------------ one message to Anthropic

  /** A part of the content arrives as a block of its kind with its own text or image. */
  predicate PartArrives(lib: Lib, p: Part, b: Block) {
    match p
    case TextPart(text) => text != "" && b == TextBlock(text)
    case ImagePart(url, detail) =>
      && !Strings.Blank(url) && (detail == "" || detail == "auto" || detail == "low" || detail == "high")
      && b.ImageBlock? && PrintImage(b.source) == Trim(url) && ParseImage(lib, url) == Some(b.source)
    case OtherPart => false
  }

  /** A tool call arrives under its own id and name, with its arguments re-encoded. */
  predicate CallArrives(lib: Lib, c: ToolCall, b: Block) {
    && c.kind == "function" && !Strings.Blank(c.id) && !Strings.Blank(c.name)
    && b.ToolUse? && b.id == c.id && b.name == c.name && lib.canon(c.arguments) == Some(b.input)
  }

  predicate PartsArrive(lib: Lib, parts: seq<Part>, blocks: seq<Block>) {
    |blocks| == |parts| && forall i :: 0 <= i < |parts| ==> PartArrives(lib, parts[i], blocks[i])
  }

  predicate CallsArrive(lib: Lib, calls: seq<ToolCall>, blocks: seq<Block>) {
    |blocks| == |calls| && forall i :: 0 <= i < |calls| ==> CallArrives(lib, calls[i], blocks[i])
  }

  /** The blocks of a content, in order. */
  predicate ContentArrives(lib: Lib, c: Content, blocks: seq<Block>) {
    match c
    case Missing => blocks == []
    case Text(text) => blocks == [TextBlock(text)]
    case Parts(parts) => parts != [] && PartsArrive(lib, parts, blocks)
    case OtherContent => false
  }

  /** A tool message becomes a user message with its one result under its call id. A user or assistant message keeps its role;
      its blocks are those of its content followed by those of its calls, and there is at least one. */
  ghost predicate MessageArrives(lib: Lib, m: Message, a: AnthropicMessage) {
    if m.role == Tool then
      && !Strings.Blank(m.callId) && m.content.Text?
      && a == AnthropicMessage(User, Blocks([ToolResult(m.callId, Plain(m.content.text))]))
    else
      && (m.role == User || m.role == Assistant) && a.role == m.role
      && exists content, calls :: ContentArrives(lib, m.content, content) && CallsArrive(lib, m.calls, calls)
                                  && content + calls != [] && a.content == Blocks(content + calls)
  }

  lemma PartForward(lib: Lib, p: Part)
    ensures ForwardPart(lib, p).Some? ==> PartArrives(lib, p, ForwardPart(lib, p).value)
    ensures forall b :: PartArrives(lib, p, b) ==> ForwardPart(lib, p) == Some(b)
  {
    if p.ImagePart? && ParseImage(lib, p.url).Some? { PrintParsed(lib, p.url); }
  }

  lemma {:induction false} PartsForward(lib: Lib, parts: seq<Part>)
    ensures ForwardParts(lib, parts).Some? ==> PartsArrive(lib, parts, ForwardParts(lib, parts).value)
    ensures forall blocks :: PartsArrive(lib, parts, blocks) ==> ForwardParts(lib, parts) == Some(blocks)
  {
    hide PartArrives, ForwardPart;
    if parts != [] {
      var init, last := parts[..|parts| - 1], parts[|parts| - 1];
      PartsForward(lib, init);
      PartForward(lib, last);
      forall blocks | PartsArrive(lib, parts, blocks) ensures ForwardParts(lib, parts) == Some(blocks) {
        var n := |parts| - 1;
        assert PartsArrive(lib, init, blocks[..n]) && PartArrives(lib, last, blocks[n]);
        assert blocks == blocks[..n] + [blocks[n]];
      }
    }
  }

  lemma {:induction false} CallsForward(lib: Lib, calls: seq<ToolCall>)
    ensures ForwardCalls(lib, calls).Some? ==> CallsArrive(lib, calls, ForwardCalls(lib, calls).value)
    ensures forall blocks :: CallsArrive(lib, calls, blocks) ==> ForwardCalls(lib, calls) == Some(blocks)
  {
    if calls != [] {
      var init, last := calls[..|calls| - 1], calls[|calls| - 1];
      CallsForward(lib, init);
      forall blocks | CallsArrive(lib, calls, blocks) ensures ForwardCalls(lib, calls) == Some(blocks) {
        var n := |calls| - 1;
        assert CallsArrive(lib, init, blocks[..n]) && CallArrives(lib, last, blocks[n]);
        assert blocks == blocks[..n] + [blocks[n]];
      }
    }
  }

  lemma ContentForward(lib: Lib, c: Content)
    ensures ForwardContent(lib, c).Some? ==> ContentArrives(lib, c, ForwardContent(lib, c).value)
    ensures forall blocks :: ContentArrives(lib, c, blocks) ==> ForwardContent(lib, c) == Some(blocks)
  {
    hide PartsArrive, ForwardParts;
    if c.Parts? { PartsForward(lib, c.parts); }
  }

  /** Every message but a system message: it converts to what it must arrive as, and is refused only if nothing is that. */
  lemma MessageForward(lib: Lib, m: Message)
    ensures ForwardMessage(lib, m).Some? ==> MessageArrives(lib, m, ForwardMessage(lib, m).value)
    ensures forall a :: MessageArrives(lib, m, a) ==> ForwardMessage(lib, m) == Some(a)
  {
    hide ContentArrives, CallsArrive, ForwardContent, ForwardCalls;
    ContentForward(lib, m.content);
    CallsForward(lib, m.calls);
  }

  // ------------------------------------------------------------------ a whole request to Anthropic

  /** The messages that are not system messages, in order. */
  function Others(messages: seq<Message>): seq<Message> {
    if messages == [] then []
    else
      var last := messages[|messages| - 1];
      Others(messages[..|messages| - 1]) + if last.role == System then [] else [last]
  }

  /** The texts of the system messages, in order. */
  function Systems(messages: seq<Message>): seq<string> {
    if messages == [] then []
    else
      var last := messages[|messages| - 1];
      Systems(messages[..|messages| - 1]) + if last.role == System && last.content.Text? then [last.content.text] else []
  }

  ghost predicate MessagesArrive(lib: Lib, messages: seq<Message>, out: seq<AnthropicMessage>) {
    && (forall i :: 0 <= i < |messages| && messages[i].role == System ==> messages[i].content.Text?)
    && |out| == |Others(messages)|
    && forall i :: 0 <= i < |out| ==> MessageArrives(lib, Others(messages)[i], out[i])
  }

  predicate ToolsArrive(tools: seq<ToolDef>, out: seq<AnthropicTool>) {
    && |out| == |tools|
    && forall i :: 0 <= i < |tools| ==>
         && tools[i].kind == "function" && !Strings.Blank(tools[i].name) && tools[i].parameters.isObject
         && out[i].name == tools[i].name && out[i].description == tools[i].description && out[i].schema == tools[i].parameters
  }

  /** The stop sequences a stop field asks for. */
  predicate StopsArrive(stop: StopField, out: seq<string>) {
    match stop
    case NoStop => out == []
    case OneStop(s) => out == [s]
    case ManyStops(stops) => out == stops
    case OtherStop => false
  }

  /** The Anthropic request that stands for an OpenAI request. */
  ghost predicate RequestArrives(lib: Lib, r: Request, a: AnthropicRequest) {
    && !Strings.Blank(r.model) && a.model == r.model
    && !r.stream && !a.stream
    && r.maxTokens == Some(a.maxTokens) && a.maxTokens > 0
    && a.temperature == r.temperature && a.topP == r.topP
    && StopsArrive(r.stop, a.stopSequences)
    && ToolsArrive(r.tools, a.tools)
    && MessagesArrive(lib, r.messages, a.messages) && a.messages != []
    && (Systems(r.messages) == [] ==> a.system == None)
    && (Systems(r.messages) != [] ==> a.system == Some(Plain(Join(Systems(r.messages)))))
  }

  /** System texts are joined by blank lines. */
  lemma JoinMeans(texts: seq<string>, last: string)
    ensures Join([last]) == last
    ensures texts != [] ==> Join(texts + [last]) == Join(texts) + "\n\n" + last
  {
    assert (texts + [last])[..|texts|] == texts;
  }

  lemma OthersPush(init: seq<Message>, last: Message)
    ensures Others(init + [last]) == Others(init) + if last.role == System then [] else [last]
    ensures Systems(init + [last]) == Systems(init) + if last.role == System && last.content.Text? then [last.content.text] else []
  {
    assert (init + [last])[..|init|] == init;
  }

  lemma MessagesPush(lib: Lib, init: seq<Message>, last: Message, out: seq<AnthropicMessage>)
    ensures MessagesArrive(lib, init + [last], out) <==>
              if last.role == System then last.content.Text? && MessagesArrive(lib, init, out)
              else out != [] && MessagesArrive(lib, init, out[..|out| - 1]) && MessageArrives(lib, last, out[|out| - 1])
  {
    hide MessageArrives;
    OthersPush(init, last);
    var all := init + [last];
    assert all[|init|] == last && forall i :: 0 <= i < |init| ==> all[i] == init[i];
    if last.role == System {
      assert Others(init) + [] == Others(init);
    } else {
      if MessagesArrive(lib, all, out) {
        var before := out[..|out| - 1];
        assert forall i :: 0 <= i < |before| ==> before[i] == out[i] && Others(init)[i] == Others(all)[i];
      }
      if out != [] && MessagesArrive(lib, init, out[..|out| - 1]) && MessageArrives(lib, last, out[|out| - 1]) {
        var before := out[..|out| - 1];
        forall i | 0 <= i < |out| ensures MessageArrives(lib, Others(all)[i], out[i]) {
          if i < |before| { assert MessageArrives(lib, Others(init)[i], before[i]); }
        }
      }
    }
  }

  lemma {:induction false} MessagesForward(lib: Lib, messages: seq<Message>)
    ensures ForwardMessages(lib, messages).Some? ==>
              var (systems, out) := ForwardMessages(lib, messages).value; systems == Systems(messages) && MessagesArrive(lib, messages, out)
    ensures forall out :: MessagesArrive(lib, messages, out) ==>
              ForwardMessages(lib, messages) == Some((Systems(messages), out))
  {
    hide MessageArrives, ForwardMessage, MessagesArrive, Others, Systems, ForwardMessages;
    if messages == [] {
      NoMessages(lib);
    } else {
      var init, last := messages[..|messages| - 1], messages[|messages| - 1];
      assert messages == init + [last];
      MessagesForward(lib, init);
      ForwardPush(lib, init, last);
      OthersPush(init, last);
      MessageForward(lib, last);
      if ForwardMessages(lib, messages).Some? {
        var out := ForwardMessages(lib, messages).value.1;
        MessagesPush(lib, init, last, out);
        if last.role != System { assert out[..|out| - 1] == ForwardMessages(lib, init).value.1; }
      }
      forall out | MessagesArrive(lib, messages, out) ensures ForwardMessages(lib, messages) == Some((Systems(messages), out)) {
        MessagesPush(lib, init, last, out);
        if last.role != System { assert out == out[..|out| - 1] + [out[|out| - 1]]; }
        assert Systems(init) + [] == Systems(init);
      }
    }
  }

  lemma NoMessages(lib: Lib)
    ensures ForwardMessages(lib, []) == Some(([], [])) && Systems([]) == []
    ensures forall out :: MessagesArrive(lib, [], out) <==> out == []
  {}

  lemma {:induction false} ToolsForward(tools: seq<ToolDef>)
    ensures ForwardTools(tools).Some? ==> ToolsArrive(tools, ForwardTools(tools).value)
    ensures forall out :: ToolsArrive(tools, out) ==> ForwardTools(tools) == Some(out)
  {
    hide Strings.Blank;
    if tools != [] {
      var init, last := tools[..|tools| - 1], tools[|tools| - 1];
      ToolsForward(init);
      forall out | ToolsArrive(tools, out) ensures ForwardTools(tools) == Some(out) {
        var n := |tools| - 1;
        assert ToolsArrive(init, out[..n]);
        assert out == out[..n] + [out[n]];
      }
    }
  }

  /** A request is accepted exactly if some Anthropic request stands for it, and becomes that one: every field under its own
      name, every message in its place and role, every text, image, call and tool under its own id, name and schema. */
  lemma ForwardMeans(lib: Lib, r: Request)
    ensures Forward(lib, r).Ok? ==> RequestArrives(lib, r, Forward(lib, r).value)
    ensures forall a :: RequestArrives(lib, r, a) ==> Forward(lib, r) == Ok(a)
  {
    hide ForwardMessages, MessagesArrive, ForwardTools, ToolsArrive, Systems, Join, Strings.Blank;
    MessagesForward(lib, r.messages);
    ToolsForward(r.tools);
    NoMessages(lib);
  }

  /** Streaming and malformed tools are unsupported, every other refusal is of an invalid message. */
  lemma ForwardRefusals(lib: Lib, r: Request)
    ensures Forward(lib, r) == Err(UnsupportedProtocol) <==>
              && !Strings.Blank(r.model) && r.messages != []
              && (r.stream || (r.maxTokens.Some? && r.maxTokens.value > 0 && forall out :: !ToolsArrive(r.tools, out)))
  {
    hide ForwardMessages, ForwardTools, ToolsArrive, Join, Strings.Blank;
    ToolsForward(r.tools);
  }

  // ------------------------------------------------------------------ one message back to OpenAI

  /** The blocks that are content, tool calls or tool results, each kind in order. */
  function ContentBlocks(blocks: seq<Block>): seq<Block> {
    if blocks == [] then []
    else
      var last := blocks[|blocks| - 1];
      ContentBlocks(blocks[..|blocks| - 1]) + if last.TextBlock? || last.ImageBlock? then [last] else []
  }

  function CallBlocks(blocks: seq<Block>): seq<Block> {
    if blocks == [] then []
    else
      var last := blocks[|blocks| - 1];
      CallBlocks(blocks[..|blocks| - 1]) + if last.ToolUse? then [last] else []
  }

  function ResultBlocks(blocks: seq<Block>): seq<Block> {
    if blocks == [] then []
    else
      var last := blocks[|blocks| - 1];
      ResultBlocks(blocks[..|blocks| - 1]) + if last.ToolResult? then [last] else []
  }

  /** A text comes back as itself; an image as the URL it came from, or as the data URL of its bytes, without a detail. */
  predicate PartReturns(lib: Lib, b: Block, p: Part) {
    match b
    case TextBlock(text) => p == TextPart(text)
    case ImageBlock(UrlSource(url)) => p == ImagePart(Trim(url), "") && ParseImage(lib, url) == Some(UrlSource(Trim(url)))
    case ImageBlock(DataSource(media, data)) =>
      && p == ImagePart("data:" + media + ";base64" + "," + data, "")
      && !Strings.Blank(media) && !Strings.Blank(data) && ParseImage(lib, p.url).Some?
    case _ => false
  }

  /** A tool call comes back under its own id and name with its own input. */
  predicate CallReturns(lib: Lib, b: Block, c: ToolCall) {
    && b.ToolUse? && !Strings.Blank(b.id) && !Strings.Blank(b.name) && lib.valid(b.input)
    && c.id == b.id && c.kind == "function" && c.name == b.name && c.arguments == b.input
  }

  /** A tool result becomes a tool message of its own, under the id of the call it answers. */
  predicate ResultReturns(b: Block, m: Message) {
    && b.ToolResult? && !Strings.Blank(b.useId) && m.role == Tool && m.callId == b.useId && m.name == "" && m.calls == []
    && m.content.Text? && RichText(b.result) == Some(m.content.text)
  }

  /** Text that comes as a list is put together. */
  lemma RichMeans(text: string, texts: seq<string>, last: string)
    ensures RichText(Plain(text)) == Some(text) && RichText(Unreadable) == None && RichText(TextBlocks([])) == None
    ensures RichText(TextBlocks([last])) == Some(last)
    ensures texts != [] ==> RichText(TextBlocks(texts)).Some?
                            && RichText(TextBlocks(texts + [last])) == Some(RichText(TextBlocks(texts)).value + last)
  {
    assert (texts + [last])[..|texts|] == texts;
    assert [last][..0] == [] && ConcatAll([last]) == "" + last == last;
  }

  predicate PartsReturn(lib: Lib, blocks: seq<Block>, parts: seq<Part>) {
    |parts| == |blocks| && forall i :: 0 <= i < |blocks| ==> PartReturns(lib, blocks[i], parts[i])
  }

  predicate CallsReturn(lib: Lib, blocks: seq<Block>, calls: seq<ToolCall>) {
    |calls| == |blocks| && forall i :: 0 <= i < |blocks| ==> CallReturns(lib, blocks[i], calls[i])
  }

  predicate ResultsReturn(blocks: seq<Block>, results: seq<Message>) {
    |results| == |blocks| && forall i :: 0 <= i < |blocks| ==> ResultReturns(blocks[i], results[i])
  }

  /** Blocks a message of this role may hold. */
  predicate Allowed(role: Role, blocks: seq<Block>) {
    forall i :: 0 <= i < |blocks| ==>
      !blocks[i].OtherBlock? && (blocks[i].ToolUse? ==> role == Assistant) && (blocks[i].ToolResult? ==> role == User)
  }

  predicate BlocksReturn(lib: Lib, role: Role, blocks: seq<Block>, g: Gathered) {
    && Allowed(role, blocks)
    && PartsReturn(lib, ContentBlocks(blocks), g.parts)
    && CallsReturn(lib, CallBlocks(blocks), g.calls)
    && ResultsReturn(ResultBlocks(blocks), g.results)
  }

  /** The content a list of parts stands for: none, the texts put together if all are texts, else the list. */
  predicate ContentReturns(parts: seq<Part>, c: Content) {
    && (parts == [] ==> c == Missing)
    && (parts != [] && (exists i :: 0 <= i < |parts| && !parts[i].TextPart?) ==> c == Parts(parts))
    && (parts != [] && (forall i :: 0 <= i < |parts| ==> parts[i].TextPart?) ==> c == Text(TextOf(parts)))
  }

  lemma TextOfMeans(parts: seq<Part>, text: string)
    ensures TextOf([]) == "" && TextOf(parts + [TextPart(text)]) == TextOf(parts) + text
  {
    assert (parts + [TextPart(text)])[..|parts|] == parts;
  }

  /** A message becomes one message of its role that holds its content and its calls, unless it has neither, followed by one
      tool message for each of its results. */
  ghost predicate MessageReturns(lib: Lib, a: AnthropicMessage, out: seq<Message>) {
    && (a.role == User || a.role == Assistant)
    && match a.content
       case PlainContent(text) => out == [Message(a.role, Text(text), "", [], "")]
       case OtherBlocks => false
       case Blocks(blocks) =>
         && blocks != []
         && exists g :: BlocksReturn(lib, a.role, blocks, g) && Listed(a.role, g, out)
  }

  predicate Listed(role: Role, g: Gathered, out: seq<Message>) {
    if g.parts == [] && g.calls == [] then out == g.results
    else
      && out != [] && out[1..] == g.results
      && out[0].role == role && out[0].calls == g.calls && ContentReturns(g.parts, out[0].content)
      && out[0].name == "" && out[0].callId == ""
  }

  /** One more block goes with one more part, call or result. */
  lemma ReturnsPush(lib: Lib, blocks: seq<Block>, b: Block, parts: seq<Part>, calls: seq<ToolCall>, results: seq<Message>)
    ensures PartsReturn(lib, blocks + [b], parts) <==>
              parts != [] && PartsReturn(lib, blocks, parts[..|parts| - 1]) && PartReturns(lib, b, parts[|parts| - 1])
    ensures CallsReturn(lib, blocks + [b], calls) <==>
              calls != [] && CallsReturn(lib, blocks, calls[..|calls| - 1]) && CallReturns(lib, b, calls[|calls| - 1])
    ensures ResultsReturn(blocks + [b], results) <==>
              results != [] && ResultsReturn(blocks, results[..|results| - 1]) && ResultReturns(b, results[|results| - 1])
  {
    hide PartReturns, CallReturns, ResultReturns;
    var all := blocks + [b];
    assert all[|blocks|] == b && forall i :: 0 <= i < |blocks| ==> all[i] == blocks[i];
  }

  lemma BlockBack(lib: Lib, role: Role, init: seq<Block>, last: Block, g: Gathered)
    requires BlocksReturn(lib, role, init, g)
    ensures GatherBlock(lib, role, g, last).Ok? ==> BlocksReturn(lib, role, init + [last], GatherBlock(lib, role, g, last).value)
  {
    hide Strings.Blank, ParseImage, RichText, Trim, BackImage, PartsReturn, CallsReturn, ResultsReturn, Allowed;
    FilterPush(init, last);
    AllowedPush(role, init, last);
    BackImageMeans(lib, last);
    assert ContentBlocks(init) + [] == ContentBlocks(init) && CallBlocks(init) + [] == CallBlocks(init);
    assert ResultBlocks(init) + [] == ResultBlocks(init);
    if GatherBlock(lib, role, g, last).Ok? {
      var next := GatherBlock(lib, role, g, last).value;
      if last.TextBlock? || last.ImageBlock? {
        ReturnsPush(lib, ContentBlocks(init), last, next.parts, next.calls, next.results);
        assert next.parts[..|g.parts|] == g.parts;
      } else if last.ToolUse? {
        ReturnsPush(lib, CallBlocks(init), last, next.parts, next.calls, next.results);
        assert next.calls[..|g.calls|] == g.calls;
      } else if last.ToolResult? {
        ReturnsPush(lib, ResultBlocks(init), last, next.parts, next.calls, next.results);
        assert next.results[..|g.results|] == g.results;
      }
    }
  }

  lemma BackImageMeans(lib: Lib, b: Block)
    ensures b.ImageBlock? && BackImage(lib, b.source).Some? ==> PartReturns(lib, b, BackImage(lib, b.source).value)
    ensures b.ImageBlock? ==> forall p :: PartReturns(lib, b, p) ==> BackImage(lib, b.source) == Some(p)
  {
    hide Strings.Blank, IndexOf, Trim;
  }

  lemma FilterPush(init: seq<Block>, last: Block)
    ensures ContentBlocks(init + [last]) == ContentBlocks(init) + if last.TextBlock? || last.ImageBlock? then [last] else []
    ensures CallBlocks(init + [last]) == CallBlocks(init) + if last.ToolUse? then [last] else []
    ensures ResultBlocks(init + [last]) == ResultBlocks(init) + if last.ToolResult? then [last] else []
  {
    assert (init + [last])[..|init|] == init;
  }

  lemma AllowedPush(role: Role, init: seq<Block>, last: Block)
    ensures Allowed(role, init + [last]) <==>
              Allowed(role, init) && !last.OtherBlock? && (last.ToolUse? ==> role == Assistant) && (last.ToolResult? ==> role == User)
  {
    var all := init + [last];
    assert all[|init|] == last && forall i :: 0 <= i < |init| ==> all[i] == init[i];
  }

  lemma {:induction false} BlocksBack(lib: Lib, role: Role, blocks: seq<Block>)
    ensures Gather(lib, role, blocks).Ok? ==> BlocksReturn(lib, role, blocks, Gather(lib, role, blocks).value)
    ensures forall g :: BlocksReturn(lib, role, blocks, g) ==> Gather(lib, role, blocks) == Ok(g)
  {
    hide GatherBlock, BlocksReturn, Gather;
    if blocks == [] {
      NoBlocks(lib, role);
    } else {
      var init, last := blocks[..|blocks| - 1], blocks[|blocks| - 1];
      assert blocks == init + [last];
      BlocksBack(lib, role, init);
      GatherPush(lib, role, init, last);
      if Gather(lib, role, init).Ok? { BlockBack(lib, role, init, last, Gather(lib, role, init).value); }
      forall g | BlocksReturn(lib, role, blocks, g) ensures Gather(lib, role, blocks) == Ok(g) {
        var before := BlockUndone(lib, role, init, last, g);
      }
    }
  }

  lemma NoBlocks(lib: Lib, role: Role)
    ensures Gather(lib, role, []) == Ok(Gathered([], [], []))
    ensures forall g :: BlocksReturn(lib, role, [], g) <==> g == Gathered([], [], [])
  {}

  lemma GathersOne(lib: Lib, role: Role, g: Gathered, b: Block, p: Part, c: ToolCall, m: Message)
    requires !b.OtherBlock? && (b.ToolUse? ==> role == Assistant) && (b.ToolResult? ==> role == User)
    ensures PartReturns(lib, b, p) ==> GatherBlock(lib, role, g, b) == Ok(g.(parts := g.parts + [p]))
    ensures CallReturns(lib, b, c) ==> GatherBlock(lib, role, g, b) == Ok(g.(calls := g.calls + [c]))
    ensures ResultReturns(b, m) ==> GatherBlock(lib, role, g, b) == Ok(g.(results := g.results + [m]))
  {
    hide Strings.Blank, ParseImage, RichText, Trim, BackImage;
    BackImageMeans(lib, b);
  }

  lemma PartUndone(lib: Lib, role: Role, blocks: seq<Block>, last: Block, g: Gathered) returns (before: Gathered)
    requires last.TextBlock? || last.ImageBlock?
    requires PartsReturn(lib, blocks + [last], g.parts)
    ensures g.parts != [] && before == g.(parts := g.parts[..|g.parts| - 1])
    ensures PartsReturn(lib, blocks, before.parts) && GatherBlock(lib, role, before, last) == Ok(g)
  {
    hide GatherBlock, PartReturns, CallReturns, ResultReturns, PartsReturn, CallsReturn, ResultsReturn;
    ReturnsPush(lib, blocks, last, g.parts, g.calls, g.results);
    var x := g.parts[|g.parts| - 1];
    before := g.(parts := g.parts[..|g.parts| - 1]);
    assert g == before.(parts := before.parts + [x]);
    GathersOne(lib, role, before, last, x, ToolCall("", "", "", ""), Message(Tool, Missing, "", [], ""));
  }

  lemma CallUndone(lib: Lib, role: Role, blocks: seq<Block>, last: Block, g: Gathered) returns (before: Gathered)
    requires last.ToolUse? && role == Assistant
    requires CallsReturn(lib, blocks + [last], g.calls)
    ensures g.calls != [] && before == g.(calls := g.calls[..|g.calls| - 1])
    ensures CallsReturn(lib, blocks, before.calls) && GatherBlock(lib, role, before, last) == Ok(g)
  {
    hide GatherBlock, PartReturns, CallReturns, ResultReturns, PartsReturn, CallsReturn, ResultsReturn;
    ReturnsPush(lib, blocks, last, g.parts, g.calls, g.results);
    var x := g.calls[|g.calls| - 1];
    before := g.(calls := g.calls[..|g.calls| - 1]);
    assert g == before.(calls := before.calls + [x]);
    GathersOne(lib, role, before, last, OtherPart, x, Message(Tool, Missing, "", [], ""));
  }

  lemma ResultUndone(lib: Lib, role: Role, blocks: seq<Block>, last: Block, g: Gathered) returns (before: Gathered)
    requires last.ToolResult? && role == User
    requires ResultsReturn(blocks + [last], g.results)
    ensures g.results != [] && before == g.(results := g.results[..|g.results| - 1])
    ensures ResultsReturn(blocks, before.results) && GatherBlock(lib, role, before, last) == Ok(g)
  {
    hide GatherBlock, PartReturns, CallReturns, ResultReturns, PartsReturn, CallsReturn, ResultsReturn;
    ReturnsPush(lib, blocks, last, g.parts, g.calls, g.results);
    var x := g.results[|g.results| - 1];
    before := g.(results := g.results[..|g.results| - 1]);
    assert g == before.(results := before.results + [x]);
    GathersOne(lib, role, before, last, OtherPart, ToolCall("", "", "", ""), x);
  }

  /** What is gathered from the blocks before the last one. */
  lemma BlockUndone(lib: Lib, role: Role, init: seq<Block>, last: Block, g: Gathered) returns (before: Gathered)
    requires BlocksReturn(lib, role, init + [last], g)
    ensures BlocksReturn(lib, role, init, before) && GatherBlock(lib, role, before, last) == Ok(g)
  {
    hide GatherBlock, PartsReturn, CallsReturn, ResultsReturn, Allowed, ContentBlocks, CallBlocks, ResultBlocks;
    FilterPush(init, last);
    AllowedPush(role, init, last);
    assert forall blocks: seq<Block> :: blocks + [] == blocks;
    if last.TextBlock? || last.ImageBlock? {
      before := PartUndone(lib, role, ContentBlocks(init), last, g);
    } else if last.ToolUse? {
      before := CallUndone(lib, role, CallBlocks(init), last, g);
    } else {
      before := ResultUndone(lib, role, ResultBlocks(init), last, g);
    }
  }

  lemma MessageBack(lib: Lib, a: AnthropicMessage)
    ensures BackMessage(lib, a).Ok? ==> MessageReturns(lib, a, BackMessage(lib, a).value)
    ensures forall out :: MessageReturns(lib, a, out) ==> BackMessage(lib, a) == Ok(out)
  {
    hide Gather, BlocksReturn, TextOf, ContentRaw, ContentReturns;
    if a.content.Blocks? {
      var blocks := a.content.blocks;
      BlocksBack(lib, a.role, blocks);
      forall parts, c ensures ContentReturns(parts, c) <==> c == ContentRaw(parts) { ContentMeans(parts, c); }
      if BackMessage(lib, a).Ok? {
        var g := Gather(lib, a.role, blocks).value;
        assert [] + g.results == g.results;
        assert Listed(a.role, g, BackMessage(lib, a).value);
      }
      forall out | MessageReturns(lib, a, out) ensures BackMessage(lib, a) == Ok(out) {
        var g :| BlocksReturn(lib, a.role, blocks, g) && Listed(a.role, g, out);
        assert [] + g.results == g.results;
        if g.parts != [] || g.calls != [] { assert out == [out[0]] + out[1..]; }
      }
    }
  }

  lemma ContentMeans(parts: seq<Part>, c: Content)
    ensures ContentReturns(parts, c) <==> c == ContentRaw(parts)
  {
    hide TextOf;
  }

  // ------------------------------------------------------------------ a whole request back to OpenAI

  /** Each message in turn becomes its messages. */
  ghost predicate MessagesReturn(lib: Lib, messages: seq<AnthropicMessage>, out: seq<Message>) {
    if messages == [] then out == []
    else
      exists k :: 0 <= k <= |out| && MessagesReturn(lib, messages[..|messages| - 1], out[..k])
                  && MessageReturns(lib, messages[|messages| - 1], out[k..])
  }

  lemma ReturnAfter(lib: Lib, messages: seq<AnthropicMessage>, before: seq<Message>, after: seq<Message>)
    requires messages != [] && MessagesReturn(lib, messages[..|messages| - 1], before) && MessageReturns(lib, messages[|messages| - 1], after)
    ensures MessagesReturn(lib, messages, before + after)
  {
    hide MessageReturns;
    var out := before + after;
    assert out[..|before|] == before && out[|before|..] == after;
  }

  lemma ReturnedLast(lib: Lib, messages: seq<AnthropicMessage>, out: seq<Message>) returns (before: seq<Message>, after: seq<Message>)
    requires messages != [] && MessagesReturn(lib, messages, out)
    ensures MessagesReturn(lib, messages[..|messages| - 1], before) && MessageReturns(lib, messages[|messages| - 1], after)
    ensures out == before + after
  {
    hide MessageReturns;
    var k :| 0 <= k <= |out| && MessagesReturn(lib, messages[..|messages| - 1], out[..k]) && MessageReturns(lib, messages[|messages| - 1], out[k..]);
    before, after := out[..k], out[k..];
  }

  lemma {:induction false} MessagesBack(lib: Lib, messages: seq<AnthropicMessage>)
    ensures BackMessages(lib, messages).Ok? ==> MessagesReturn(lib, messages, BackMessages(lib, messages).value)
    ensures forall out :: MessagesReturn(lib, messages, out) ==> BackMessages(lib, messages) == Ok(out)
  {
    hide MessageReturns, BackMessage, MessagesReturn;
    if messages == [] {
      NothingReturns(lib);
    } else {
      var init, last := messages[..|messages| - 1], messages[|messages| - 1];
      MessagesBack(lib, init);
      MessageBack(lib, last);
      if BackMessages(lib, messages).Ok? {
        ReturnAfter(lib, messages, BackMessages(lib, init).value, BackMessage(lib, last).value);
      }
      forall out | MessagesReturn(lib, messages, out) ensures BackMessages(lib, messages) == Ok(out) {
        var before, after := ReturnedLast(lib, messages, out);
      }
    }
  }

  lemma NothingReturns(lib: Lib)
    ensures forall out :: MessagesReturn(lib, [], out) <==> out == []
  {}

  predicate ToolsReturn(tools: seq<AnthropicTool>, out: seq<ToolDef>) {
    && |out| == |tools|
    && forall i :: 0 <= i < |tools| ==>
         && !Strings.Blank(tools[i].name) && tools[i].schema.isObject && out[i].kind == "function"
         && out[i].name == tools[i].name && out[i].description == tools[i].description && out[i].parameters == tools[i].schema
  }

  lemma {:induction false} ToolsBack(tools: seq<AnthropicTool>)
    ensures BackTools(tools).Some? ==> ToolsReturn(tools, BackTools(tools).value)
    ensures forall out :: ToolsReturn(tools, out) ==> BackTools(tools) == Some(out)
  {
    hide Strings.Blank;
    if tools != [] {
      var init, last := tools[..|tools| - 1], tools[|tools| - 1];
      ToolsBack(init);
      forall out | ToolsReturn(tools, out) ensures BackTools(tools) == Some(out) {
        var n := |tools| - 1;
        assert ToolsReturn(init, out[..n]);
        assert out == out[..n] + [out[n]];
      }
    }
  }

  /** The system text, if there is one, comes first, as a system message. */
  predicate SystemReturns(system: Option<Rich>, front: seq<Message>) {
    if system.None? then front == []
    else RichText(system.value).Some? && front == [Message(System, Text(RichText(system.value).value), "", [], "")]
  }

  /** The OpenAI request that stands for an Anthropic request. */
  ghost predicate RequestReturns(lib: Lib, r: AnthropicRequest, o: Request) {
    && !Strings.Blank(r.model) && o.model == r.model
    && !r.stream && !o.stream
    && r.maxTokens > 0 && o.maxTokens == Some(r.maxTokens)
    && o.temperature == r.temperature && o.topP == r.topP
    && o.stop == (if r.stopSequences == [] then NoStop else ManyStops(r.stopSequences))
    && ToolsReturn(r.tools, o.tools)
    && r.messages != []
    && exists front, rest :: SystemReturns(r.system, front) && MessagesReturn(lib, r.messages, rest) && o.messages == front + rest
  }

  /** The way back: a request is accepted exactly if some OpenAI request stands for it, and becomes that one. */
  lemma BackMeans(lib: Lib, r: AnthropicRequest)
    ensures Back(lib, r).Ok? ==> RequestReturns(lib, r, Back(lib, r).value)
    ensures forall o :: RequestReturns(lib, r, o) ==> Back(lib, r) == Ok(o)
  {
    hide BackMessages, MessagesReturn, BackTools, ToolsReturn, RichText, Strings.Blank;
    MessagesBack(lib, r.messages);
    ToolsBack(r.tools);
    if Back(lib, r).Ok? {
      var front := if r.system.None? then [] else [SystemMessage(RichText(r.system.value).value)];
      assert SystemReturns(r.system, front) && Back(lib, r).value.messages == front + BackMessages(lib, r.messages).value;
    }
  }

  /** The first block that is refused is of an unknown kind. */
  ghost predicate MeetsUnknown(lib: Lib, role: Role, blocks: seq<Block>) {
    exists i :: 0 <= i < |blocks| && blocks[i].OtherBlock? && exists g :: BlocksReturn(lib, role, blocks[..i], g)
  }

  lemma {:induction false} UnknownBlock(lib: Lib, role: Role, blocks: seq<Block>)
    ensures Gather(lib, role, blocks) == Err(UnsupportedProtocol) <==> MeetsUnknown(lib, role, blocks)
  {
    hide BlocksReturn, Strings.Blank, BackImage, RichText;
    if blocks != [] {
      var init, last := blocks[..|blocks| - 1], blocks[|blocks| - 1];
      UnknownBlock(lib, role, init);
      BlocksBack(lib, role, init);
      assert forall i :: 0 <= i < |init| ==> init[i] == blocks[i] && init[..i] == blocks[..i];
      if MeetsUnknown(lib, role, blocks) && !MeetsUnknown(lib, role, init) {
        var i :| 0 <= i < |blocks| && blocks[i].OtherBlock? && exists g :: BlocksReturn(lib, role, blocks[..i], g);
        assert i == |blocks| - 1;
      }
      if Gather(lib, role, init).Ok? && last.OtherBlock? { assert BlocksReturn(lib, role, blocks[..|blocks| - 1], Gather(lib, role, init).value); }
    }
  }

  /** The first message that is refused is refused for an unknown block. */
  ghost predicate RefusedAsUnknown(lib: Lib, messages: seq<AnthropicMessage>) {
    exists i :: 0 <= i < |messages| && UnknownIn(lib, messages[i]) && exists out :: MessagesReturn(lib, messages[..i], out)
  }

  ghost predicate UnknownIn(lib: Lib, a: AnthropicMessage) {
    (a.role == User || a.role == Assistant) && a.content.Blocks? && MeetsUnknown(lib, a.role, a.content.blocks)
  }

  lemma UnknownMessage(lib: Lib, a: AnthropicMessage)
    ensures BackMessage(lib, a) == Err(UnsupportedProtocol) <==> UnknownIn(lib, a)
  {
    hide Gather, MeetsUnknown, ContentRaw;
    if a.content.Blocks? {
      UnknownBlock(lib, a.role, a.content.blocks);
      NoBlocks(lib, a.role);
    }
  }

  lemma {:induction false} UnknownMessages(lib: Lib, messages: seq<AnthropicMessage>)
    ensures BackMessages(lib, messages) == Err(UnsupportedProtocol) <==> RefusedAsUnknown(lib, messages)
  {
    hide MessagesReturn, UnknownIn, BackMessage;
    if messages != [] {
      var init, last := messages[..|messages| - 1], messages[|messages| - 1];
      UnknownMessages(lib, init);
      MessagesBack(lib, init);
      UnknownMessage(lib, last);
      assert forall i :: 0 <= i < |init| ==> init[i] == messages[i] && init[..i] == messages[..i];
      if RefusedAsUnknown(lib, messages) && !RefusedAsUnknown(lib, init) {
        var i :| 0 <= i < |messages| && UnknownIn(lib, messages[i]) && exists out :: MessagesReturn(lib, messages[..i], out);
        assert i == |messages| - 1;
      }
      if BackMessages(lib, init).Ok? && UnknownIn(lib, last) {
        assert MessagesReturn(lib, messages[..|messages| - 1], BackMessages(lib, init).value);
      }
    }
  }

  /** On the way back streaming is unsupported, and so is the first message refused if it is for an unknown block; every other
      refusal is of an invalid message. */
  lemma BackRefusals(lib: Lib, r: AnthropicRequest)
    ensures Back(lib, r) == Err(UnsupportedProtocol) <==>
              && !Strings.Blank(r.model) && r.messages != [] && r.maxTokens > 0
              && (r.stream || ((r.system.Some? ==> RichText(r.system.value).Some?) && RefusedAsUnknown(lib, r.messages)))
  {
    hide BackMessages, RefusedAsUnknown, BackTools, RichText, Strings.Blank;
    UnknownMessages(lib, r.messages);
  }
}

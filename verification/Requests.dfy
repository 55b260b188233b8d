/** OpenAI and Anthropic requests, decoded, and the two converters between them (pkg/protokit/protokit.go). */
module Requests {
  import opened Outcomes
  import opened Strings

  datatype Failure = InvalidMessage | UnsupportedProtocol

  // ------------------------------------------------------------------ OpenAI

  datatype Role = System | User | Assistant | Tool | OtherRole

  datatype Part = TextPart(text: string) | ImagePart(url: string, detail: string) | OtherPart

  /** Message content: absent or null, a string, a list of parts, or something else. */
  datatype Content = Missing | Text(text: string) | Parts(parts: seq<Part>) | OtherContent

  datatype ToolCall = ToolCall(id: string, kind: string, name: string, arguments: string)

  datatype Message = Message(role: Role, content: Content, name: string, calls: seq<ToolCall>, callId: string)

  datatype Json = Json(text: string, isObject: bool)

  datatype ToolDef = ToolDef(kind: string, name: string, description: string, parameters: Json)

  datatype StopField = NoStop | OneStop(stop: string) | ManyStops(stops: seq<string>) | OtherStop

  datatype Request = Request(
    model: string, messages: seq<Message>, stream: bool, tools: seq<ToolDef>, maxTokens: Option<int>,
    temperature: Option<real>, topP: Option<real>, stop: StopField)

  // ------------------------------------------------------------------ Anthropic

  datatype Source = UrlSource(url: string) | DataSource(media: string, data: string)

  /** Text that may be given as a string or as a list of text blocks. */
  datatype Rich = Plain(text: string) | TextBlocks(texts: seq<string>) | Unreadable

  datatype Block =
    | TextBlock(text: string)
    | ImageBlock(source: Source)
    | ToolUse(id: string, name: string, input: string)
    | ToolResult(useId: string, result: Rich)
    | OtherBlock

  datatype BlockContent = PlainContent(text: string) | Blocks(blocks: seq<Block>) | OtherBlocks

  datatype AnthropicMessage = AnthropicMessage(role: Role, content: BlockContent)

  datatype AnthropicTool = AnthropicTool(name: string, description: string, schema: Json)

  datatype AnthropicRequest = AnthropicRequest(
    model: string, messages: seq<AnthropicMessage>, system: Option<Rich>, maxTokens: int, stream: bool,
    tools: seq<AnthropicTool>, temperature: Option<real>, topP: Option<real>, stopSequences: seq<string>)

  // ------------------------------------------------------------------ foreign code

  /** What the JSON, URL and base64 libraries decide. `canon` re-encodes the text of a JSON object and refuses any
      other text; `valid` accepts the text of any JSON value. */
  datatype Lib = Lib(canon: string -> Option<string>, valid: string -> bool, remote: string -> bool, base64: string -> bool, imageType: string -> bool)

  /** Re-encoding yields valid text, and re-encoding it again changes nothing. */
  ghost predicate Lawful(lib: Lib) {
    forall x :: lib.canon(x).Some? ==> lib.canon(lib.canon(x).value) == lib.canon(x) && lib.valid(lib.canon(x).value)
  }

  // ------------------------------------------------------------------ images

  function IndexOf(s: string, c: char): (i: int)
    ensures -1 <= i < |s|
    ensures i >= 0 ==> s[i] == c && forall j :: 0 <= j < i ==> s[j] != c
    ensures i < 0 ==> c !in s
  {
    if s == "" then -1
    else if s[0] == c then 0
    else
      var rest := IndexOf(s[1..], c);
      assert forall j :: 1 <= j < |s| ==> s[j] == s[1..][j - 1];
      if rest < 0 then -1 else rest + 1
  }

  const DATA_PREFIX := "data:"
  const BASE64_MARK := ";base64"

  /** A data URL splits at its first comma into metadata, which is a media type and the word base64, and payload. */
  function ParseData(lib: Lib, payload: string): Option<Source> {
    var comma := IndexOf(payload, ',');
    if comma <= 0 then None
    else
      var metadata, encoded := payload[..comma], payload[comma + 1..];
      var semi := IndexOf(metadata, ';');
      if semi < 0 || metadata[semi..] != BASE64_MARK then None
      else
        var media := metadata[..semi];
        if Strings.Blank(media) || Strings.Blank(encoded) || !lib.imageType(media) || !lib.base64(encoded) then None
        else Some(DataSource(media, encoded))
  }

  function ParseImage(lib: Lib, raw: string): Option<Source> {
    var value := Trim(raw);
    if DATA_PREFIX <= value then ParseData(lib, value[|DATA_PREFIX|..])
    else if lib.remote(value) then Some(UrlSource(value))
    else None
  }

  function PrintImage(s: Source): string {
    match s
    case UrlSource(url) => url
    case DataSource(media, data) => DATA_PREFIX + media + BASE64_MARK + "," + data
  }

  lemma Rejoin(prefix: string, value: string, comma: int, semi: int, mark: string)
    requires prefix <= value
    requires var payload := value[|prefix|..];
             && 0 <= semi <= comma < |payload| && payload[comma] == ',' && payload[..comma][semi..] == mark
    ensures var payload := value[|prefix|..];
            prefix + payload[..comma][..semi] + mark + [','] + payload[comma + 1..] == value
  {
    var payload := value[|prefix|..];
    assert payload[..comma] == payload[..comma][..semi] + mark;
    assert payload == payload[..comma] + [','] + payload[comma + 1..];
    assert value == prefix + payload;
  }

  /** An image URL printed from what was parsed is the trimmed URL, and parses to the same again. */
  lemma PrintParsed(lib: Lib, raw: string)
    requires ParseImage(lib, raw).Some?
    ensures PrintImage(ParseImage(lib, raw).value) == Trim(raw)
    ensures ParseImage(lib, Trim(raw)) == ParseImage(lib, raw)
  {
    TrimIsIdempotent(raw);
    hide Trim, IndexOf, Strings.Blank;
    var value := Trim(raw);
    if DATA_PREFIX <= value {
      var payload := value[|DATA_PREFIX|..];
      var comma := IndexOf(payload, ',');
      Rejoin(DATA_PREFIX, value, comma, IndexOf(payload[..comma], ';'), BASE64_MARK);
    }
  }

  // ------------------------------------------------------------------ OpenAI to Anthropic

  predicate KnownDetail(detail: string) { detail == "" || detail == "auto" || detail == "low" || detail == "high" }

  function ForwardPart(lib: Lib, p: Part): Option<Block> {
    match p
    case TextPart(text) => if text == "" then None else Some(TextBlock(text))
    case ImagePart(url, detail) =>
      if Strings.Blank(url) || !KnownDetail(detail) || ParseImage(lib, url).None? then None
      else Some(ImageBlock(ParseImage(lib, url).value))
    case OtherPart => None
  }

  function ForwardParts(lib: Lib, parts: seq<Part>): Option<seq<Block>> {
    if parts == [] then Some([])
    else
      var before, last := ForwardParts(lib, parts[..|parts| - 1]), ForwardPart(lib, parts[|parts| - 1]);
      if before.None? || last.None? then None else Some(before.value + [last.value])
  }

  function ForwardContent(lib: Lib, c: Content): Option<seq<Block>> {
    match c
    case Missing => Some([])
    case Text(text) => Some([TextBlock(text)])
    case Parts(parts) => if parts == [] then None else ForwardParts(lib, parts)
    case OtherContent => None
  }

  function ForwardCall(lib: Lib, c: ToolCall): Option<Block> {
    if c.kind != "function" || Strings.Blank(c.id) || Strings.Blank(c.name) || lib.canon(c.arguments).None? then None
    else Some(ToolUse(c.id, c.name, lib.canon(c.arguments).value))
  }

  function ForwardCalls(lib: Lib, calls: seq<ToolCall>): Option<seq<Block>> {
    if calls == [] then Some([])
    else
      var before, last := ForwardCalls(lib, calls[..|calls| - 1]), ForwardCall(lib, calls[|calls| - 1]);
      if before.None? || last.None? then None else Some(before.value + [last.value])
  }

  /** A user, assistant or tool message. */
  function ForwardMessage(lib: Lib, m: Message): Option<AnthropicMessage> {
    if m.role == Tool then
      if Strings.Blank(m.callId) || !m.content.Text? then None
      else Some(AnthropicMessage(User, Blocks([ToolResult(m.callId, Plain(m.content.text))])))
    else if m.role == User || m.role == Assistant then
      var content, calls := ForwardContent(lib, m.content), ForwardCalls(lib, m.calls);
      if content.None? || calls.None? || content.value + calls.value == [] then None
      else Some(AnthropicMessage(m.role, Blocks(content.value + calls.value)))
    else None
  }

  /** The system texts and the other messages converted, both in order. */
  function ForwardMessages(lib: Lib, messages: seq<Message>): Option<(seq<string>, seq<AnthropicMessage>)> {
    if messages == [] then Some(([], []))
    else
      var before, m := ForwardMessages(lib, messages[..|messages| - 1]), messages[|messages| - 1];
      if before.None? then None
      else if m.role == System then
        if m.content.Text? then Some((before.value.0 + [m.content.text], before.value.1)) else None
      else
        var converted := ForwardMessage(lib, m);
        if converted.None? then None else Some((before.value.0, before.value.1 + [converted.value]))
  }

  function ForwardTool(t: ToolDef): Option<AnthropicTool> {
    if t.kind != "function" || Strings.Blank(t.name) || !t.parameters.isObject then None
    else Some(AnthropicTool(t.name, t.description, t.parameters))
  }

  function ForwardTools(tools: seq<ToolDef>): Option<seq<AnthropicTool>> {
    if tools == [] then Some([])
    else
      var before, last := ForwardTools(tools[..|tools| - 1]), ForwardTool(tools[|tools| - 1]);
      if before.None? || last.None? then None else Some(before.value + [last.value])
  }

  function Join(texts: seq<string>): string {
    if texts == [] then ""
    else if |texts| == 1 then texts[0]
    else Join(texts[..|texts| - 1]) + "\n\n" + texts[|texts| - 1]
  }

  function StopList(stop: StopField): Option<seq<string>> {
    match stop
    case NoStop => Some([])
    case OneStop(s) => Some([s])
    case ManyStops(stops) => Some(stops)
    case OtherStop => None
  }

  function Forward(lib: Lib, r: Request): Result<AnthropicRequest, Failure> {
    if Strings.Blank(r.model) || r.messages == [] then Err(InvalidMessage)
    else if r.stream then Err(UnsupportedProtocol)
    else if r.maxTokens.None? || r.maxTokens.value <= 0 then Err(InvalidMessage)
    else
      var tools := ForwardTools(r.tools);
      if tools.None? then Err(UnsupportedProtocol)
      else
        var converted := ForwardMessages(lib, r.messages);
        if converted.None? || converted.value.1 == [] || StopList(r.stop).None? then Err(InvalidMessage)
        else
          var systems := converted.value.0;
          Ok(AnthropicRequest(r.model, converted.value.1, if systems == [] then None else Some(Plain(Join(systems))),
                              r.maxTokens.value, false, tools.value, r.temperature, r.topP, StopList(r.stop).value))
  }

  // ------------------------------------------------------------------ Anthropic to OpenAI

  function ConcatAll(texts: seq<string>): string {
    if texts == [] then "" else ConcatAll(texts[..|texts| - 1]) + texts[|texts| - 1]
  }

  function RichText(r: Rich): Option<string> {
    match r
    case Plain(text) => Some(text)
    case TextBlocks(texts) => if texts == [] then None else Some(ConcatAll(texts))
    case Unreadable => None
  }

  function BackImage(lib: Lib, s: Source): Option<Part> {
    match s
    case UrlSource(url) =>
      var parsed := ParseImage(lib, url);
      if parsed.Some? && parsed.value.UrlSource? then Some(ImagePart(parsed.value.url, "")) else None
    case DataSource(media, data) =>
      if Strings.Blank(media) || Strings.Blank(data) || ParseImage(lib, PrintImage(s)).None? then None
      else Some(ImagePart(PrintImage(s), ""))
  }

  predicate AllText(parts: seq<Part>) { forall i :: 0 <= i < |parts| ==> parts[i].TextPart? }

  function TextOf(parts: seq<Part>): string {
    if parts == [] then ""
    else TextOf(parts[..|parts| - 1]) + if parts[|parts| - 1].TextPart? then parts[|parts| - 1].text else ""
  }

  /** A list of text parts becomes one string; anything else stays a list. */
  function ContentRaw(parts: seq<Part>): Content {
    if parts == [] then Missing else if AllText(parts) then Text(TextOf(parts)) else Parts(parts)
  }

  /** What has been gathered from the blocks of one message. */
  datatype Gathered = Gathered(parts: seq<Part>, calls: seq<ToolCall>, results: seq<Message>)

  /** One block sorted in. A block of a kind it does not know is unsupported, a malformed one invalid. */
  function GatherBlock(lib: Lib, role: Role, g: Gathered, b: Block): Result<Gathered, Failure> {
    match b
    case TextBlock(text) => Ok(g.(parts := g.parts + [TextPart(text)]))
    case ImageBlock(source) =>
      var part := BackImage(lib, source);
      if part.None? then Err(InvalidMessage) else Ok(g.(parts := g.parts + [part.value]))
    case ToolUse(id, name, input) =>
      if role != Assistant || Strings.Blank(id) || Strings.Blank(name) || !lib.valid(input) then Err(InvalidMessage)
      else Ok(g.(calls := g.calls + [ToolCall(id, "function", name, input)]))
    case ToolResult(useId, result) =>
      if role != User || Strings.Blank(useId) || RichText(result).None? then Err(InvalidMessage)
      else Ok(g.(results := g.results + [Message(Tool, Text(RichText(result).value), "", [], useId)]))
    case OtherBlock => Err(UnsupportedProtocol)
  }

  /** All blocks, or the failure of the first one that is refused. */
  function Gather(lib: Lib, role: Role, blocks: seq<Block>): Result<Gathered, Failure> {
    if blocks == [] then Ok(Gathered([], [], []))
    else
      var before := Gather(lib, role, blocks[..|blocks| - 1]);
      if before.Err? then before else GatherBlock(lib, role, before.value, blocks[|blocks| - 1])
  }

  function BackMessage(lib: Lib, m: AnthropicMessage): Result<seq<Message>, Failure> {
    if m.role != User && m.role != Assistant then Err(InvalidMessage)
    else
      match m.content
      case PlainContent(text) => Ok([Message(m.role, Text(text), "", [], "")])
      case OtherBlocks => Err(InvalidMessage)
      case Blocks(blocks) =>
        var g := Gather(lib, m.role, blocks);
        if blocks == [] then Err(InvalidMessage)
        else if g.Err? then Err(g.error)
        else
          Ok((if g.value.parts == [] && g.value.calls == [] then []
              else [Message(m.role, ContentRaw(g.value.parts), "", g.value.calls, "")]) + g.value.results)
  }

  function BackMessages(lib: Lib, messages: seq<AnthropicMessage>): Result<seq<Message>, Failure> {
    if messages == [] then Ok([])
    else
      var before, last := BackMessages(lib, messages[..|messages| - 1]), BackMessage(lib, messages[|messages| - 1]);
      if before.Err? then before else if last.Err? then last else Ok(before.value + last.value)
  }

  function BackTool(t: AnthropicTool): Option<ToolDef> {
    if Strings.Blank(t.name) || !t.schema.isObject then None else Some(ToolDef("function", t.name, t.description, t.schema))
  }

  function BackTools(tools: seq<AnthropicTool>): Option<seq<ToolDef>> {
    if tools == [] then Some([])
    else
      var before, last := BackTools(tools[..|tools| - 1]), BackTool(tools[|tools| - 1]);
      if before.None? || last.None? then None else Some(before.value + [last.value])
  }

  function SystemMessage(text: string): Message { Message(System, Text(text), "", [], "") }

  function Back(lib: Lib, r: AnthropicRequest): Result<Request, Failure> {
    if Strings.Blank(r.model) || r.messages == [] || r.maxTokens <= 0 then Err(InvalidMessage)
    else if r.stream then Err(UnsupportedProtocol)
    else
      var system := if r.system.None? then Some([]) else
                      var text := RichText(r.system.value);
                      if text.None? then None else Some([SystemMessage(text.value)]);
      var messages, tools := BackMessages(lib, r.messages), BackTools(r.tools);
      if system.None? then Err(InvalidMessage)
      else if messages.Err? then Err(messages.error)
      else if tools.None? then Err(InvalidMessage)
      else
        Ok(Request(r.model, system.value + messages.value, false, tools.value, Some(r.maxTokens), r.temperature, r.topP,
                   if r.stopSequences == [] then NoStop else ManyStops(r.stopSequences)))
  }

  // ------------------------------------------------------------------ one more element

  /** One more message forward. */
  lemma ForwardPush(lib: Lib, before: seq<Message>, m: Message)
    ensures ForwardMessages(lib, before).None? ==> ForwardMessages(lib, before + [m]).None?
    ensures ForwardMessages(lib, before).Some? ==>
              var (systems, done) := ForwardMessages(lib, before).value;
              ForwardMessages(lib, before + [m]) ==
                if m.role == System then if m.content.Text? then Some((systems + [m.content.text], done)) else None
                else if ForwardMessage(lib, m).None? then None
                else Some((systems, done + [ForwardMessage(lib, m).value]))
  {
    hide ForwardMessage;
    assert (before + [m])[..|before|] == before;
  }

  /** One more message back. */
  lemma BackPush(lib: Lib, before: seq<AnthropicMessage>, m: AnthropicMessage)
    ensures BackMessages(lib, before + [m]) ==
              var first, last := BackMessages(lib, before), BackMessage(lib, m);
              if first.Err? then first else if last.Err? then last else Ok(first.value + last.value)
  {
    hide BackMessage;
    assert (before + [m])[..|before|] == before;
  }

  /** One more block. */
  lemma GatherPush(lib: Lib, role: Role, a: seq<Block>, b: Block)
    ensures Gather(lib, role, a + [b]) == var g := Gather(lib, role, a); if g.Err? then g else GatherBlock(lib, role, g.value, b)
  {
    assert (a + [b])[..|a|] == a;
  }
}

/** The request converters as the loops they are (pkg/protokit/protokit.go), each against its specification. */
module Converters {
  import opened Outcomes
  import opened Strings
  import opened Requests

  lemma PartsPush(lib: Lib, parts: seq<Part>, i: nat)
    requires i < |parts|
    ensures ForwardParts(lib, parts[..i + 1]) ==
              var before, last := ForwardParts(lib, parts[..i]), ForwardPart(lib, parts[i]);
              if before.None? || last.None? then None else Some(before.value + [last.value])
  {
    hide ForwardPart;
    assert parts[..i + 1][..i] == parts[..i];
  }

  lemma {:induction false} PartsFail(lib: Lib, parts: seq<Part>, i: nat)
    requires i <= |parts| && ForwardParts(lib, parts[..i]).None?
    ensures ForwardParts(lib, parts).None?
    decreases |parts| - i
  {
    hide ForwardPart;
    if i < |parts| {
      PartsPush(lib, parts, i);
      PartsFail(lib, parts, i + 1);
    } else {
      assert parts[..i] == parts;
    }
  }

  method ContentToBlocks(lib: Lib, c: Content) returns (r: Option<seq<Block>>)
    ensures r == ForwardContent(lib, c)
  {
    hide ForwardPart;
    match c {
      case Missing => return Some([]);
      case Text(text) => return Some([TextBlock(text)]);
      case OtherContent => return None;
      case Parts(parts) =>
        if parts == [] { return None; }
        var blocks: seq<Block> := [];
        for i := 0 to |parts|
          invariant ForwardParts(lib, parts[..i]) == Some(blocks)
        {
          PartsPush(lib, parts, i);
          var block := ForwardPart(lib, parts[i]);
          if block.None? {
            PartsFail(lib, parts, i + 1);
            return None;
          }
          blocks := blocks + [block.value];
        }
        assert parts[..|parts|] == parts;
        return Some(blocks);
    }
  }

  lemma CallsPush(lib: Lib, calls: seq<ToolCall>, i: nat)
    requires i < |calls|
    ensures ForwardCalls(lib, calls[..i + 1]) ==
              var before, last := ForwardCalls(lib, calls[..i]), ForwardCall(lib, calls[i]);
              if before.None? || last.None? then None else Some(before.value + [last.value])
  {
    hide ForwardCall;
    assert calls[..i + 1][..i] == calls[..i];
  }

  lemma {:induction false} CallsFail(lib: Lib, calls: seq<ToolCall>, i: nat)
    requires i <= |calls| && ForwardCalls(lib, calls[..i]).None?
    ensures ForwardCalls(lib, calls).None?
    decreases |calls| - i
  {
    hide ForwardCall;
    if i < |calls| {
      CallsPush(lib, calls, i);
      CallsFail(lib, calls, i + 1);
    } else {
      assert calls[..i] == calls;
    }
  }

  method MessageToAnthropic(lib: Lib, m: Message) returns (r: Option<AnthropicMessage>)
    ensures r == ForwardMessage(lib, m)
  {
    hide ForwardCall, ForwardContent;
    if m.role == Tool {
      if Strings.Blank(m.callId) || !m.content.Text? { return None; }
      return Some(AnthropicMessage(User, Blocks([ToolResult(m.callId, Plain(m.content.text))])));
    }
    if m.role != User && m.role != Assistant { return None; }
    var content := ContentToBlocks(lib, m.content);
    if content.None? { return None; }
    var blocks := content.value;
    for i := 0 to |m.calls|
      invariant ForwardCalls(lib, m.calls[..i]).Some?
      invariant blocks == content.value + ForwardCalls(lib, m.calls[..i]).value
    {
      CallsPush(lib, m.calls, i);
      var call := ForwardCall(lib, m.calls[i]);
      if call.None? {
        CallsFail(lib, m.calls, i + 1);
        return None;
      }
      blocks := blocks + [call.value];
    }
    assert m.calls[..|m.calls|] == m.calls;
    if blocks == [] { return None; }
    return Some(AnthropicMessage(m.role, Blocks(blocks)));
  }

  lemma {:induction false} MessagesFail(lib: Lib, messages: seq<Message>, i: nat)
    requires i <= |messages| && ForwardMessages(lib, messages[..i]).None?
    ensures ForwardMessages(lib, messages).None?
    decreases |messages| - i
  {
    hide ForwardMessage;
    if i < |messages| {
      assert messages[..i + 1] == messages[..i] + [messages[i]];
      ForwardPush(lib, messages[..i], messages[i]);
      MessagesFail(lib, messages, i + 1);
    } else {
      assert messages[..i] == messages;
    }
  }

  lemma ToolsPush(tools: seq<ToolDef>, i: nat)
    requires i < |tools|
    ensures ForwardTools(tools[..i + 1]) ==
              var before, last := ForwardTools(tools[..i]), ForwardTool(tools[i]);
              if before.None? || last.None? then None else Some(before.value + [last.value])
  {
    hide ForwardTool;
    assert tools[..i + 1][..i] == tools[..i];
  }

  lemma {:induction false} ToolsFail(tools: seq<ToolDef>, i: nat)
    requires i <= |tools| && ForwardTools(tools[..i]).None?
    ensures ForwardTools(tools).None?
    decreases |tools| - i
  {
    hide ForwardTool;
    if i < |tools| {
      ToolsPush(tools, i);
      ToolsFail(tools, i + 1);
    } else {
      assert tools[..i] == tools;
    }
  }

  method ToolsToAnthropic(tools: seq<ToolDef>) returns (r: Option<seq<AnthropicTool>>)
    ensures r == ForwardTools(tools)
  {
    hide ForwardTool;
    var converted: seq<AnthropicTool> := [];
    for i := 0 to |tools|
      invariant ForwardTools(tools[..i]) == Some(converted)
    {
      ToolsPush(tools, i);
      var tool := ForwardTool(tools[i]);
      if tool.None? {
        ToolsFail(tools, i + 1);
        return None;
      }
      converted := converted + [tool.value];
    }
    assert tools[..|tools|] == tools;
    return Some(converted);
  }

  method MessagesToAnthropic(lib: Lib, messages: seq<Message>) returns (r: Option<(seq<string>, seq<AnthropicMessage>)>)
    ensures r == ForwardMessages(lib, messages)
  {
    hide ForwardMessage;
    var systems: seq<string> := [];
    var converted: seq<AnthropicMessage> := [];
    for i := 0 to |messages|
      invariant ForwardMessages(lib, messages[..i]) == Some((systems, converted))
    {
      assert messages[..i + 1] == messages[..i] + [messages[i]];
      ForwardPush(lib, messages[..i], messages[i]);
      var m := messages[i];
      if m.role == System {
        if !m.content.Text? {
          MessagesFail(lib, messages, i + 1);
          return None;
        }
        systems := systems + [m.content.text];
      } else {
        var one := MessageToAnthropic(lib, m);
        if one.None? {
          MessagesFail(lib, messages, i + 1);
          return None;
        }
        converted := converted + [one.value];
      }
    }
    assert messages[..|messages|] == messages;
    return Some((systems, converted));
  }

  method OpenAIToAnthropicRequest(lib: Lib, r: Request) returns (a: Result<AnthropicRequest, Failure>)
    ensures a == Forward(lib, r)
  {
    hide ForwardMessages, ForwardTools, Join;
    if Strings.Blank(r.model) || r.messages == [] { return Err(InvalidMessage); }
    if r.stream { return Err(UnsupportedProtocol); }
    if r.maxTokens.None? || r.maxTokens.value <= 0 { return Err(InvalidMessage); }
    var tools := ToolsToAnthropic(r.tools);
    if tools.None? { return Err(UnsupportedProtocol); }
    var converted := MessagesToAnthropic(lib, r.messages);
    if converted.None? || converted.value.1 == [] { return Err(InvalidMessage); }
    var systems := converted.value.0;
    var stops := StopList(r.stop);
    if stops.None? { return Err(InvalidMessage); }
    return Ok(AnthropicRequest(r.model, converted.value.1, if systems == [] then None else Some(Plain(Join(systems))),
                               r.maxTokens.value, false, tools.value, r.temperature, r.topP, stops.value));
  }

  // ------------------------------------------------------------------ and back

  /** A list of text parts becomes one string; the loop stops at the first part that is not text. */
  method OpenAIContentRaw(parts: seq<Part>) returns (c: Content)
    ensures c == ContentRaw(parts)
  {
    if parts == [] { return Missing; }
    var text := "";
    for i := 0 to |parts|
      invariant AllText(parts[..i]) && text == TextOf(parts[..i])
    {
      assert parts[..i + 1][..i] == parts[..i];
      if !parts[i].TextPart? { return Parts(parts); }
      text := text + parts[i].text;
    }
    assert parts[..|parts|] == parts;
    return Text(text);
  }

  lemma {:induction false} GatherFails(lib: Lib, role: Role, blocks: seq<Block>, i: nat)
    requires i <= |blocks| && Gather(lib, role, blocks[..i]).Err?
    ensures Gather(lib, role, blocks) == Gather(lib, role, blocks[..i])
    decreases |blocks| - i
  {
    hide GatherBlock;
    if i < |blocks| {
      assert blocks[..i + 1] == blocks[..i] + [blocks[i]];
      GatherPush(lib, role, blocks[..i], blocks[i]);
      GatherFails(lib, role, blocks, i + 1);
    } else {
      assert blocks[..i] == blocks;
    }
  }

  /** The blocks of one message sorted into content parts, tool calls and tool results. */
  method GatherAll(lib: Lib, role: Role, blocks: seq<Block>) returns (g: Result<Gathered, Failure>)
    ensures g == Gather(lib, role, blocks)
  {
    hide BackImage, RichText, Gather;
    var parts: seq<Part>, calls: seq<ToolCall>, results: seq<Message> := [], [], [];
    GatherNothing(lib, role);
    assert blocks[..0] == [];
    for i := 0 to |blocks|
      invariant Gather(lib, role, blocks[..i]) == Ok(Gathered(parts, calls, results))
    {
      assert blocks[..i + 1] == blocks[..i] + [blocks[i]];
      GatherPush(lib, role, blocks[..i], blocks[i]);
      var failure: Option<Failure> := None;
      match blocks[i] {
        case TextBlock(text) => parts := parts + [TextPart(text)];
        case ImageBlock(source) =>
          var part := BackImage(lib, source);
          if part.None? { failure := Some(InvalidMessage); } else { parts := parts + [part.value]; }
        case ToolUse(id, name, input) =>
          if role != Assistant || Strings.Blank(id) || Strings.Blank(name) || !lib.valid(input) { failure := Some(InvalidMessage); }
          else { calls := calls + [ToolCall(id, "function", name, input)]; }
        case ToolResult(useId, result) =>
          var text := RichText(result);
          if role != User || Strings.Blank(useId) || text.None? { failure := Some(InvalidMessage); }
          else { results := results + [Message(Tool, Text(text.value), "", [], useId)]; }
        case OtherBlock => failure := Some(UnsupportedProtocol);
      }
      if failure.Some? {
        GatherFails(lib, role, blocks, i + 1);
        return Err(failure.value);
      }
    }
    assert blocks[..|blocks|] == blocks;
    return Ok(Gathered(parts, calls, results));
  }

  lemma GatherNothing(lib: Lib, role: Role)
    ensures Gather(lib, role, []) == Ok(Gathered([], [], []))
  {}

  method AnthropicMessageToOpenAI(lib: Lib, m: AnthropicMessage) returns (r: Result<seq<Message>, Failure>)
    ensures r == BackMessage(lib, m)
  {
    hide Gather, ContentRaw;
    if m.role != User && m.role != Assistant { return Err(InvalidMessage); }
    match m.content {
      case PlainContent(text) => return Ok([Message(m.role, Text(text), "", [], "")]);
      case OtherBlocks => return Err(InvalidMessage);
      case Blocks(blocks) =>
        if blocks == [] { return Err(InvalidMessage); }
        var g := GatherAll(lib, m.role, blocks);
        if g.Err? { return Err(g.error); }
        var results := g.value.results;
        assert [] + results == results;
        if g.value.parts != [] || g.value.calls != [] {
          var content := OpenAIContentRaw(g.value.parts);
          results := [Message(m.role, content, "", g.value.calls, "")] + results;
        }
        return Ok(results);
    }
  }

  lemma {:induction false} BackFails(lib: Lib, messages: seq<AnthropicMessage>, i: nat)
    requires i <= |messages| && BackMessages(lib, messages[..i]).Err?
    ensures BackMessages(lib, messages) == BackMessages(lib, messages[..i])
    decreases |messages| - i
  {
    hide BackMessage;
    if i < |messages| {
      assert messages[..i + 1] == messages[..i] + [messages[i]];
      BackPush(lib, messages[..i], messages[i]);
      BackFails(lib, messages, i + 1);
    } else {
      assert messages[..i] == messages;
    }
  }

  lemma BackToolsPush(tools: seq<AnthropicTool>, i: nat)
    requires i < |tools|
    ensures BackTools(tools[..i + 1]) ==
              var before, last := BackTools(tools[..i]), BackTool(tools[i]);
              if before.None? || last.None? then None else Some(before.value + [last.value])
  {
    hide BackTool;
    assert tools[..i + 1][..i] == tools[..i];
  }

  lemma {:induction false} BackToolsFail(tools: seq<AnthropicTool>, i: nat)
    requires i <= |tools| && BackTools(tools[..i]).None?
    ensures BackTools(tools).None?
    decreases |tools| - i
  {
    hide BackTool;
    if i < |tools| {
      BackToolsPush(tools, i);
      BackToolsFail(tools, i + 1);
    } else {
      assert tools[..i] == tools;
    }
  }

  method ToolsToOpenAI(tools: seq<AnthropicTool>) returns (r: Option<seq<ToolDef>>)
    ensures r == BackTools(tools)
  {
    hide BackTool;
    var converted: seq<ToolDef> := [];
    for i := 0 to |tools|
      invariant BackTools(tools[..i]) == Some(converted)
    {
      BackToolsPush(tools, i);
      var tool := BackTool(tools[i]);
      if tool.None? {
        BackToolsFail(tools, i + 1);
        return None;
      }
      converted := converted + [tool.value];
    }
    assert tools[..|tools|] == tools;
    return Some(converted);
  }

  method MessagesToOpenAI(lib: Lib, messages: seq<AnthropicMessage>) returns (r: Result<seq<Message>, Failure>)
    ensures r == BackMessages(lib, messages)
  {
    hide BackMessage;
    var converted: seq<Message> := [];
    for i := 0 to |messages|
      invariant BackMessages(lib, messages[..i]) == Ok(converted)
    {
      assert messages[..i + 1] == messages[..i] + [messages[i]];
      BackPush(lib, messages[..i], messages[i]);
      var some := AnthropicMessageToOpenAI(lib, messages[i]);
      if some.Err? {
        BackFails(lib, messages, i + 1);
        return Err(some.error);
      }
      converted := converted + some.value;
    }
    assert messages[..|messages|] == messages;
    return Ok(converted);
  }

  method AnthropicToOpenAIRequest(lib: Lib, r: AnthropicRequest) returns (o: Result<Request, Failure>)
    ensures o == Back(lib, r)
  {
    hide BackMessages, BackTools, RichText;
    if Strings.Blank(r.model) || r.messages == [] || r.maxTokens <= 0 { return Err(InvalidMessage); }
    if r.stream { return Err(UnsupportedProtocol); }
    var messages: seq<Message> := [];
    if r.system.Some? {
      var text := RichText(r.system.value);
      if text.None? { return Err(InvalidMessage); }
      messages := [SystemMessage(text.value)];
    }
    var converted := MessagesToOpenAI(lib, r.messages);
    if converted.Err? { return Err(converted.error); }
    var tools := ToolsToOpenAI(r.tools);
    if tools.None? { return Err(InvalidMessage); }
    return Ok(Request(r.model, messages + converted.value, false, tools.value, Some(r.maxTokens), r.temperature, r.topP,
                      if r.stopSequences == [] then NoStop else ManyStops(r.stopSequences)));
  }
}

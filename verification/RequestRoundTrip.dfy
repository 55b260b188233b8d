/** An OpenAI request sent through the Anthropic converter and back: it succeeds exactly when tool calls sit on
    assistant messages only, and then yields a normal form that is a fixed point. */
module RequestRoundTrip {
  import opened Outcomes
  import opened Strings
  import opened Requests

  // ------------------------------------------------------------------ the normal form

  function NormalPart(p: Part): Part { if p.ImagePart? then ImagePart(Trim(p.url), "") else p }

  function NormalParts(parts: seq<Part>): seq<Part> {
    if parts == [] then [] else NormalParts(parts[..|parts| - 1]) + [NormalPart(parts[|parts| - 1])]
  }

  function NormalContent(c: Content): Content { if c.Parts? then ContentRaw(NormalParts(c.parts)) else c }

  function NormalCall(lib: Lib, c: ToolCall): ToolCall
    requires lib.canon(c.arguments).Some?
  {
    c.(arguments := lib.canon(c.arguments).value)
  }

  predicate CallsOk(lib: Lib, calls: seq<ToolCall>) { forall i :: 0 <= i < |calls| ==> lib.canon(calls[i].arguments).Some? }

  function NormalCalls(lib: Lib, calls: seq<ToolCall>): seq<ToolCall>
    requires CallsOk(lib, calls)
  {
    if calls == [] then [] else NormalCalls(lib, calls[..|calls| - 1]) + [NormalCall(lib, calls[|calls| - 1])]
  }

  /** A message without its name; a tool message keeps its call id, the others their content and calls. */
  function NormalMessage(lib: Lib, m: Message): Message {
    if m.role == Tool then Message(Tool, m.content, "", [], m.callId)
    else Message(m.role, NormalContent(m.content), "", if CallsOk(lib, m.calls) then NormalCalls(lib, m.calls) else m.calls, "")
  }

  /** The messages other than system messages, in order. */
  function NormalRest(lib: Lib, messages: seq<Message>): seq<Message> {
    if messages == [] then []
    else
      var before, last := NormalRest(lib, messages[..|messages| - 1]), messages[|messages| - 1];
      before + if last.role == System then [] else [NormalMessage(lib, last)]
  }

  function SystemTexts(messages: seq<Message>): seq<string> {
    if messages == [] then []
    else
      var last := messages[|messages| - 1];
      SystemTexts(messages[..|messages| - 1]) + if last.role == System && last.content.Text? then [last.content.text] else []
  }

  function NormalMessages(lib: Lib, messages: seq<Message>): seq<Message> {
    var systems := SystemTexts(messages);
    (if systems == [] then [] else [SystemMessage(Join(systems))]) + NormalRest(lib, messages)
  }

  function NormalStop(s: StopField): StopField {
    match StopList(s)
    case None => s
    case Some(stops) => if stops == [] then NoStop else ManyStops(stops)
  }

  function Normal(lib: Lib, r: Request): Request { r.(messages := NormalMessages(lib, r.messages), stop := NormalStop(r.stop)) }

  predicate CallsOnAssistants(messages: seq<Message>) {
    forall i :: 0 <= i < |messages| && messages[i].role == User ==> messages[i].calls == []
  }

  // ------------------------------------------------------------------ one message

  lemma BackForwardPart(lib: Lib, role: Role, g: Gathered, p: Part)
    requires ForwardPart(lib, p).Some?
    ensures GatherBlock(lib, role, g, ForwardPart(lib, p).value) == Ok(g.(parts := g.parts + [NormalPart(p)]))
  {
    if p.ImagePart? {
      PrintParsed(lib, p.url);
    }
  }

  lemma {:induction false} GatherParts(lib: Lib, role: Role, parts: seq<Part>)
    requires ForwardParts(lib, parts).Some?
    ensures Gather(lib, role, ForwardParts(lib, parts).value) == Ok(Gathered(NormalParts(parts), [], []))
    ensures |ForwardParts(lib, parts).value| == |parts|
  {
    hide ForwardPart, GatherBlock, NormalPart;
    if parts != [] {
      var init, last := parts[..|parts| - 1], parts[|parts| - 1];
      GatherParts(lib, role, init);
      GatherPush(lib, role, ForwardParts(lib, init).value, ForwardPart(lib, last).value);
      BackForwardPart(lib, role, Gathered(NormalParts(init), [], []), last);
    }
  }

  /** The parts a content stands for: a string is one text part. */
  function PartsOf(c: Content): seq<Part> {
    match c
    case Missing => []
    case Text(text) => [TextPart(text)]
    case Parts(parts) => NormalParts(parts)
    case OtherContent => []
  }

  lemma GatherText(lib: Lib, role: Role, text: string)
    ensures Gather(lib, role, [TextBlock(text)]) == Ok(Gathered([TextPart(text)], [], []))
    ensures ContentRaw([TextPart(text)]) == Text(text)
  {
    GatherPush(lib, role, [], TextBlock(text));
    assert [] + [TextBlock(text)] == [TextBlock(text)] && [] + [TextPart(text)] == [TextPart(text)];
    assert [TextPart(text)][..0] == [];
    assert TextOf([TextPart(text)]) == "" + text == text;
  }

  lemma GatherContent(lib: Lib, role: Role, c: Content)
    requires ForwardContent(lib, c).Some?
    ensures Gather(lib, role, ForwardContent(lib, c).value) == Ok(Gathered(PartsOf(c), [], []))
    ensures ForwardContent(lib, c).value == [] <==> PartsOf(c) == []
    ensures NormalContent(c) == ContentRaw(PartsOf(c))
  {
    hide TextOf, AllText, ForwardParts, NormalParts;
    match c {
      case Missing =>
      case Text(text) => GatherText(lib, role, text);
      case Parts(parts) =>
        GatherParts(lib, role, parts);
        NormalPartsLength(parts);
    }
  }

  lemma {:induction false} NormalPartsLength(parts: seq<Part>)
    ensures |NormalParts(parts)| == |parts|
    ensures forall i :: 0 <= i < |parts| ==> NormalParts(parts)[i] == NormalPart(parts[i])
  {
    if parts != [] { NormalPartsLength(parts[..|parts| - 1]); }
  }

  lemma {:induction false} ForwardedCalls(lib: Lib, calls: seq<ToolCall>)
    requires ForwardCalls(lib, calls).Some?
    ensures CallsOk(lib, calls) && |ForwardCalls(lib, calls).value| == |NormalCalls(lib, calls)| == |calls|
  {
    if calls != [] { ForwardedCalls(lib, calls[..|calls| - 1]); }
  }

  lemma {:induction false} GatherCalls(lib: Lib, parts: seq<Part>, blocks: seq<Block>, calls: seq<ToolCall>)
    requires Lawful(lib) && ForwardCalls(lib, calls).Some? && CallsOk(lib, calls)
    requires Gather(lib, Assistant, blocks) == Ok(Gathered(parts, [], []))
    ensures Gather(lib, Assistant, blocks + ForwardCalls(lib, calls).value) == Ok(Gathered(parts, NormalCalls(lib, calls), []))
  {
    if calls == [] {
      assert blocks + [] == blocks;
    } else {
      var init, last := calls[..|calls| - 1], calls[|calls| - 1];
      GatherCalls(lib, parts, blocks, init);
      var before, use := ForwardCalls(lib, init).value, ForwardCall(lib, last).value;
      assert blocks + (before + [use]) == (blocks + before) + [use];
      hide Gather;
      GatherPush(lib, Assistant, blocks + before, use);
    }
  }

  /** A user message that carries tool calls converts forward but not back. */
  lemma UserCallsRefused(lib: Lib, blocks: seq<Block>, calls: seq<ToolCall>)
    requires ForwardCalls(lib, calls).Some? && calls != []
    requires Gather(lib, User, blocks).Ok?
    ensures Gather(lib, User, blocks + ForwardCalls(lib, calls).value) == Err(InvalidMessage)
  {
    var init, last := calls[..|calls| - 1], calls[|calls| - 1];
    var before, use := ForwardCalls(lib, init).value, ForwardCall(lib, last).value;
    assert blocks + (before + [use]) == (blocks + before) + [use];
    GatherPush(lib, User, blocks + before, use);
  }

  lemma BackForwardResult(lib: Lib, m: Message)
    requires m.role == Tool && ForwardMessage(lib, m).Some?
    ensures BackMessage(lib, ForwardMessage(lib, m).value) == Ok([NormalMessage(lib, m)])
  {
    var block := ToolResult(m.callId, Plain(m.content.text));
    GatherPush(lib, User, [], block);
    assert [] + [block] == [block] && [] + [NormalMessage(lib, m)] == [NormalMessage(lib, m)];
    assert GatherBlock(lib, User, Gathered([], [], []), block) == Ok(Gathered([], [], [NormalMessage(lib, m)]));
  }

  lemma BackForwardMessage(lib: Lib, m: Message)
    requires Lawful(lib) && m.role != System && ForwardMessage(lib, m).Some?
    ensures var back := BackMessage(lib, ForwardMessage(lib, m).value);
            if m.role == User && m.calls != [] then back == Err(InvalidMessage) else back == Ok([NormalMessage(lib, m)])
  {
    if m.role == Tool {
      BackForwardResult(lib, m);
    } else {
      ForwardedCalls(lib, m.calls);
      hide Gather, ContentRaw, NormalContent, PartsOf, NormalCalls, ForwardContent, ForwardCalls;
      var content, calls := ForwardContent(lib, m.content).value, ForwardCalls(lib, m.calls).value;
      GatherContent(lib, m.role, m.content);
      assert [NormalMessage(lib, m)] + [] == [NormalMessage(lib, m)];
      if m.role == Assistant {
        GatherCalls(lib, PartsOf(m.content), content, m.calls);
      } else if m.calls != [] {
        UserCallsRefused(lib, content, m.calls);
      } else {
        assert calls == [] && NormalCalls(lib, m.calls) == [];
        assert content + calls == content;
      }
    }
  }

  // ------------------------------------------------------------------ all messages

  lemma {:induction false} ForwardSystems(lib: Lib, messages: seq<Message>)
    requires ForwardMessages(lib, messages).Some?
    ensures ForwardMessages(lib, messages).value.0 == SystemTexts(messages)
  {
    hide ForwardMessage;
    if messages != [] { ForwardSystems(lib, messages[..|messages| - 1]); }
  }

  lemma CallsSplit(before: seq<Message>, m: Message)
    ensures CallsOnAssistants(before + [m]) <==> CallsOnAssistants(before) && (m.role == User ==> m.calls == [])
  {
    var all := before + [m];
    assert forall i :: 0 <= i < |before| ==> all[i] == before[i];
    assert all[|before|] == m;
  }

  lemma NormalPush(lib: Lib, before: seq<Message>, m: Message)
    ensures NormalRest(lib, before + [m]) == if m.role == System then NormalRest(lib, before) else NormalRest(lib, before) + [NormalMessage(lib, m)]
    ensures SystemTexts(before + [m]) == SystemTexts(before) + if m.role == System && m.content.Text? then [m.content.text] else []
  {
    hide NormalMessage;
    assert (before + [m])[..|before|] == before;
    assert NormalRest(lib, before) + [] == NormalRest(lib, before);
  }

  lemma {:induction false} BackForwardMessages(lib: Lib, messages: seq<Message>)
    requires Lawful(lib) && ForwardMessages(lib, messages).Some?
    ensures var back := BackMessages(lib, ForwardMessages(lib, messages).value.1);
            back == if CallsOnAssistants(messages) then Ok(NormalRest(lib, messages)) else Err(InvalidMessage)
  {
    if messages != [] {
      hide Lawful, ForwardMessage, BackMessage, NormalMessage, ForwardMessages, BackMessages, NormalRest, CallsOnAssistants, SystemTexts;
      var init, last := messages[..|messages| - 1], messages[|messages| - 1];
      assert messages == init + [last];
      ForwardPush(lib, init, last);
      BackForwardMessages(lib, init);
      CallsSplit(init, last);
      NormalPush(lib, init, last);
      if last.role != System {
        BackForwardMessage(lib, last);
        BackPush(lib, ForwardMessages(lib, init).value.1, ForwardMessage(lib, last).value);
      }
    }
  }

  lemma {:induction false} BackForwardTools(tools: seq<ToolDef>)
    requires ForwardTools(tools).Some?
    ensures BackTools(ForwardTools(tools).value) == Some(tools)
  {
    if tools != [] {
      var init, last := tools[..|tools| - 1], tools[|tools| - 1];
      BackForwardTools(init);
      var before, tool := ForwardTools(init).value, ForwardTool(last).value;
      assert (before + [tool])[..|before|] == before;
      assert init + [last] == tools;
    }
  }

  // ------------------------------------------------------------------ the round trip

  /** For every request the Anthropic converter accepts: converting back yields the normal form exactly when no user
      message carries tool calls, and is refused as invalid otherwise. */
  lemma RoundTrip(lib: Lib, r: Request)
    requires Lawful(lib) && Forward(lib, r).Ok?
    ensures var back := Back(lib, Forward(lib, r).value);
            back == if CallsOnAssistants(r.messages) then Ok(Normal(lib, r)) else Err(InvalidMessage)
  {
    hide Lawful, ForwardMessages, BackMessages, NormalRest, ForwardTools, BackTools, Join, CallsOnAssistants, SystemTexts;
    ForwardSystems(lib, r.messages);
    BackForwardMessages(lib, r.messages);
    BackForwardTools(r.tools);
  }

  /** One user message that carries an acceptable tool call: it converts to Anthropic, and what comes out is refused on
      the way back. */
  lemma UserCallIsNotReversible(lib: Lib, call: ToolCall, r: Request)
    requires Lawful(lib) && ForwardCall(lib, call).Some?
    requires r == Request("m", [Message(User, Text("hi"), "", [call], "")], false, [], Some(1), None, None, NoStop)
    ensures Forward(lib, r).Ok? && Back(lib, Forward(lib, r).value) == Err(InvalidMessage)
  {
    hide Lawful, ForwardCall, Back;
    var m := r.messages[0];
    assert r.messages[..0] == [] && [] + [m] == r.messages && m.calls[..0] == [];
    assert !IsSpace(r.model[0]) && ForwardTools(r.tools) == Some([]);
    assert ForwardCalls(lib, m.calls).Some?;
    assert ForwardMessage(lib, m).Some?;
    NoMessages(lib);
    ForwardPush(lib, [], m);
    RoundTrip(lib, r);
  }

  // ------------------------------------------------------------------ the normal form is a fixed point

  lemma NormalUrl(lib: Lib, url: string)
    requires !Strings.Blank(url) && ParseImage(lib, url).Some?
    ensures !Strings.Blank(Trim(url)) && ParseImage(lib, Trim(url)).Some? && Trim(Trim(url)) == Trim(url)
  {
    PrintParsed(lib, url);
    TrimIsIdempotent(url);
    TrimBlank(url);
    TrimBlank(Trim(url));
  }

  lemma NormalPartAgain(lib: Lib, p: Part)
    requires ForwardPart(lib, p).Some?
    ensures ForwardPart(lib, NormalPart(p)).Some? && NormalPart(NormalPart(p)) == NormalPart(p)
  {
    if p.ImagePart? { NormalUrl(lib, p.url); }
  }

  lemma {:induction false} NormalPartsAgain(lib: Lib, parts: seq<Part>)
    requires ForwardParts(lib, parts).Some?
    ensures ForwardParts(lib, NormalParts(parts)).Some? && NormalParts(NormalParts(parts)) == NormalParts(parts)
  {
    hide ForwardPart, NormalPart;
    if parts != [] {
      var init, last := parts[..|parts| - 1], parts[|parts| - 1];
      NormalPartsAgain(lib, init);
      NormalPartAgain(lib, last);
      assert NormalParts(parts)[..|NormalParts(init)|] == NormalParts(init);
    }
  }

  lemma NormalContentAgain(lib: Lib, c: Content)
    requires ForwardContent(lib, c).Some?
    ensures ForwardContent(lib, NormalContent(c)).Some? && NormalContent(NormalContent(c)) == NormalContent(c)
    ensures ForwardContent(lib, c).value != [] ==> ForwardContent(lib, NormalContent(c)).value != []
  {
    hide ForwardParts, NormalParts, AllText, TextOf;
    if c.Parts? {
      NormalPartsAgain(lib, c.parts);
      NormalPartsLength(c.parts);
      GatherParts(lib, User, NormalParts(c.parts));
    }
  }

  lemma {:induction false} NormalCallsAgain(lib: Lib, calls: seq<ToolCall>)
    requires Lawful(lib) && ForwardCalls(lib, calls).Some? && CallsOk(lib, calls)
    ensures var normal := NormalCalls(lib, calls);
            && CallsOk(lib, normal) && ForwardCalls(lib, normal) == ForwardCalls(lib, calls) && NormalCalls(lib, normal) == normal
  {
    if calls != [] {
      var init, last := calls[..|calls| - 1], calls[|calls| - 1];
      NormalCallsAgain(lib, init);
      assert NormalCalls(lib, calls)[..|NormalCalls(lib, init)|] == NormalCalls(lib, init);
    }
  }

  lemma NormalMessageAgain(lib: Lib, m: Message)
    requires Lawful(lib) && m.role != System && ForwardMessage(lib, m).Some? && (m.role == User ==> m.calls == [])
    ensures var normal := NormalMessage(lib, m);
            && normal.role == m.role && ForwardMessage(lib, normal).Some? && NormalMessage(lib, normal) == normal
            && (normal.role == User ==> normal.calls == [])
  {
    if m.role != Tool {
      ForwardedCalls(lib, m.calls);
      NormalCallsAgain(lib, m.calls);
      NormalContentAgain(lib, m.content);
    }
  }

  /** The normal messages behind `front` are accepted and normal already. */
  ghost predicate Again(lib: Lib, front: seq<Message>, messages: seq<Message>, n: nat) {
    var all := front + NormalRest(lib, messages);
    && SystemTexts(all) == SystemTexts(front) && NormalRest(lib, all) == NormalRest(lib, messages)
    && ForwardMessages(lib, all).Some? && CallsOnAssistants(all)
    && |ForwardMessages(lib, all).value.1| == n
  }

  lemma {:induction false} NormalRestAgain(lib: Lib, front: seq<Message>, messages: seq<Message>)
    requires Lawful(lib) && ForwardMessages(lib, messages).Some? && CallsOnAssistants(messages)
    requires front == [] || (|front| == 1 && front[0].role == System && front[0].content.Text?)
    ensures Again(lib, front, messages, |ForwardMessages(lib, messages).value.1|)
  {
    if messages == [] {
      FrontAlone(lib, front);
      assert front + [] == front;
    } else {
      hide Lawful, ForwardMessage, NormalMessage, ForwardMessages, NormalRest, CallsOnAssistants, Again;
      var init, last := messages[..|messages| - 1], messages[|messages| - 1];
      assert messages == init + [last];
      ForwardPush(lib, init, last);
      CallsSplit(init, last);
      NormalRestAgain(lib, front, init);
      var n := |ForwardMessages(lib, init).value.1|;
      if last.role == System {
        SystemAgain(lib, front, init, last, n);
      } else {
        MessageAgain(lib, front, init, last, n);
      }
    }
  }

  lemma SystemAgain(lib: Lib, front: seq<Message>, init: seq<Message>, last: Message, n: nat)
    requires Again(lib, front, init, n) && last.role == System
    ensures Again(lib, front, init + [last], n)
  {
    hide ForwardMessages, NormalRest, CallsOnAssistants, SystemTexts;
    NormalPush(lib, init, last);
  }

  lemma MessageAgain(lib: Lib, front: seq<Message>, init: seq<Message>, last: Message, n: nat)
    requires Again(lib, front, init, n) && last.role != System
    requires Lawful(lib) && ForwardMessage(lib, last).Some? && (last.role == User ==> last.calls == [])
    ensures Again(lib, front, init + [last], n + 1)
  {
    hide Lawful, ForwardMessage, NormalMessage, ForwardMessages, NormalRest, CallsOnAssistants, SystemTexts;
    NormalPush(lib, init, last);
    NormalMessageAgain(lib, last);
    var before, normal := front + NormalRest(lib, init), NormalMessage(lib, last);
    assert front + (NormalRest(lib, init) + [normal]) == before + [normal];
    ForwardPush(lib, before, normal);
    CallsSplit(before, normal);
    NormalPush(lib, before, normal);
    assert SystemTexts(before) + [] == SystemTexts(before);
  }

  lemma FrontAlone(lib: Lib, front: seq<Message>)
    requires front == [] || (|front| == 1 && front[0].role == System && front[0].content.Text?)
    ensures NormalRest(lib, front) == [] && CallsOnAssistants(front)
    ensures ForwardMessages(lib, front).Some? && ForwardMessages(lib, front).value.1 == []
  {
    if front != [] { assert front[..0] == []; }
  }

  /** The normal form of an acceptable request is accepted in turn and comes back unchanged. */
  lemma NormalIsFixed(lib: Lib, r: Request)
    requires Lawful(lib) && Forward(lib, r).Ok? && CallsOnAssistants(r.messages)
    ensures var n := Normal(lib, r);
            Forward(lib, n).Ok? && Normal(lib, n) == n && Back(lib, Forward(lib, n).value) == Ok(n)
  {
    hide Lawful, ForwardMessages, BackMessages, NormalRest, ForwardTools, BackTools, SystemTexts, Join, CallsOnAssistants, Strings.Blank;
    var n, systems := Normal(lib, r), SystemTexts(r.messages);
    var front := if systems == [] then [] else [SystemMessage(Join(systems))];
    NormalRestAgain(lib, front, r.messages);
    FrontTexts(front);
    JoinOne(Join(systems));
    assert n.messages == front + NormalRest(lib, r.messages);
    assert NormalMessages(lib, n.messages) == n.messages;
    NoMessages(lib);
    RoundTrip(lib, n);
  }

  lemma FrontTexts(front: seq<Message>)
    ensures front == [] ==> SystemTexts(front) == []
    ensures |front| == 1 && front[0].role == System && front[0].content.Text? ==> SystemTexts(front) == [front[0].content.text]
  {
    if |front| == 1 { assert front[..0] == []; }
  }

  lemma JoinOne(text: string)
    ensures Join([text]) == text
  {}

  lemma NoMessages(lib: Lib)
    ensures ForwardMessages(lib, []) == Some(([], []))
  {}
}

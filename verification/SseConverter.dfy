/** The streaming protocol converter (internal/gateway/server.go): decoded source events in, Anthropic or Responses
    events out, one state machine per stream. */
module SseConverter {
  import opened Outcomes

  datatype Finish = Unset | Stop | Length

  /** A source event once decoded: its text, its finish reason if it carries one, whether it ends the stream; or an
      event that cannot be converted. */
  datatype Input = Good(text: string, finish: Finish, done: bool) | Bad

  datatype Target = Anthropic | Responses

  /** Emitted events. Responses events carry a sequence number. */
  datatype Block =
    | MessageStart
    | BlockStart
    | BlockDelta(delta: string)
    | BlockStop
    | MessageDelta(maxTokens: bool)
    | MessageStop
    | Numbered(number: nat, event: ResponsesEvent)

  datatype ResponsesEvent =
    | Created
    | InProgress
    | ItemAdded
    | PartAdded
    | TextDelta(delta: string)
    | TextDone(text: string)
    | PartDone(text: string)
    | ItemDone(text: string)
    | Completed(text: string, incomplete: bool)

  datatype Unsupported = UnsupportedEvent

  // ------------------------------------------------------------------ the specification

  /** The convertible events up to and including the first that ends the stream. */
  function Effective(inputs: seq<Input>): seq<Input> {
    if inputs == [] then []
    else
      var before, last := Effective(inputs[..|inputs| - 1]), inputs[|inputs| - 1];
      if Ended(before) || last.Bad? then before else before + [last]
  }

  predicate Ended(events: seq<Input>) { exists k :: 0 <= k < |events| && events[k].Good? && events[k].done }

  /** The texts that are not empty, in order. */
  function Texts(events: seq<Input>): seq<string> {
    if events == [] then []
    else
      var last := events[|events| - 1];
      Texts(events[..|events| - 1]) + if last.Good? && last.text != "" then [last.text] else []
  }

  /** The last finish reason given. */
  function Reason(events: seq<Input>): Finish {
    if events == [] then Unset
    else
      var last := events[|events| - 1];
      if last.Good? && last.finish != Unset then last.finish else Reason(events[..|events| - 1])
  }

  function Concat(texts: seq<string>): string {
    if texts == [] then "" else Concat(texts[..|texts| - 1]) + texts[|texts| - 1]
  }

  function Number(events: seq<ResponsesEvent>, from: nat): (blocks: seq<Block>)
    ensures |blocks| == |events| && forall i :: 0 <= i < |events| ==> blocks[i] == Numbered(from + i, events[i])
  {
    seq(|events|, i requires 0 <= i < |events| => Numbered(from + i, events[i]))
  }

  function Opening(t: Target): seq<Block> {
    if t == Anthropic then [MessageStart, BlockStart] else Number([Created, InProgress, ItemAdded, PartAdded], 0)
  }

  function Delta(t: Target, text: string, number: nat): Block {
    if t == Anthropic then BlockDelta(text) else Numbered(number, TextDelta(text))
  }

  function Deltas(t: Target, texts: seq<string>): seq<Block> {
    seq(|texts|, i requires 0 <= i < |texts| => Delta(t, texts[i], 4 + i))
  }

  function Closing(t: Target, text: string, finish: Finish, number: nat): seq<Block> {
    if t == Anthropic then [BlockStop, MessageDelta(finish == Length), MessageStop]
    else Number([TextDone(text), PartDone(text), ItemDone(text), Completed(text, finish == Length)], number)
  }

  /** The whole stream that a sequence of source events must turn into: nothing until there is text or an end; then
      the opening, one delta for each text, and the closing once the end has come. */
  function Stream(t: Target, inputs: seq<Input>): seq<Block> {
    var events := Effective(inputs);
    Frame(t, Texts(events), Ended(events), Reason(events))
  }

  function Frame(t: Target, texts: seq<string>, ended: bool, finish: Finish): seq<Block> {
    if texts == [] && !ended then []
    else Opening(t) + Deltas(t, texts) + if ended then Closing(t, Concat(texts), finish, 4 + |texts|) else []
  }

  // ------------------------------------------------------------------ one more event

  lemma EffectivePush(seen: seq<Input>, x: Input)
    ensures var before := Effective(seen);
            Effective(seen + [x]) == if Ended(before) || x.Bad? then before else before + [x]
  {
    assert (seen + [x])[..|seen|] == seen;
  }

  lemma EventsPush(events: seq<Input>, x: Input)
    requires x.Good?
    ensures Texts(events + [x]) == Longer(Texts(events), x)
    ensures Reason(events + [x]) == LastReason(Reason(events), x)
    ensures Ended(events + [x]) <==> Ended(events) || x.done
  {
    var longer := events + [x];
    assert longer[..|events|] == events;
    if Ended(events) {
      var k :| 0 <= k < |events| && events[k].Good? && events[k].done;
      assert longer[k] == events[k];
    }
    assert x.done ==> longer[|events|].done;
  }

  lemma ConcatPush(texts: seq<string>, text: string)
    ensures Concat(texts + [text]) == Concat(texts) + text
  {
    assert (texts + [text])[..|texts|] == texts;
  }

  function Three(opening: seq<Block>, delta: seq<Block>, closing: seq<Block>): seq<Block> { opening + delta + closing }

  function OpenPart(t: Target, opens: bool): seq<Block> { if opens then Opening(t) else [] }

  function DeltaPart(t: Target, text: string, number: nat): seq<Block> { if text != "" then [Delta(t, text, number)] else [] }

  function ClosePart(t: Target, done: bool, text: string, finish: Finish, number: nat): seq<Block> {
    if done then Closing(t, text, finish, number) else []
  }

  function Longer(texts: seq<string>, x: Input): seq<string>
    requires x.Good?
  {
    texts + if x.text != "" then [x.text] else []
  }

  function LastReason(finish: Finish, x: Input): Finish
    requires x.Good?
  {
    if x.finish != Unset then x.finish else finish
  }

  /** What one event adds to the stream, while the stream is open. */
  function Added(t: Target, texts: seq<string>, finish: Finish, x: Input): seq<Block>
    requires x.Good?
  {
    var longer := Longer(texts, x);
    Three(OpenPart(t, texts == [] && (x.text != "" || x.done)), DeltaPart(t, x.text, 4 + |texts|),
          ClosePart(t, x.done, Concat(longer), LastReason(finish, x), 4 + |longer|))
  }

  lemma DeltasPush(t: Target, texts: seq<string>, text: string)
    ensures Deltas(t, texts + [text]) == Deltas(t, texts) + [Delta(t, text, 4 + |texts|)]
  {
    hide Delta;
  }

  lemma Regroup(o: seq<Block>, d: seq<Block>, e: seq<Block>, c: seq<Block>)
    ensures o + (d + e) + c == (o + d + []) + ([] + e + c)
    ensures o + ([] + e) + c == [] + (o + e + c)
  {}

  lemma LongerDeltas(t: Target, texts: seq<string>, x: Input)
    requires x.Good?
    ensures Deltas(t, Longer(texts, x)) == Deltas(t, texts) + DeltaPart(t, x.text, 4 + |texts|)
  {
    hide Delta;
    if x.text != "" {
      DeltasPush(t, texts, x.text);
    } else {
      assert texts + [] == texts && Deltas(t, texts) + [] == Deltas(t, texts);
    }
  }

  lemma FramePush(t: Target, texts: seq<string>, finish: Finish, x: Input)
    requires x.Good?
    ensures Frame(t, Longer(texts, x), x.done, LastReason(finish, x)) == Frame(t, texts, false, finish) + Added(t, texts, finish, x)
  {
    LongerDeltas(t, texts, x);
    assert Deltas(t, []) == [];
    var longer, last := Longer(texts, x), LastReason(finish, x);
    hide Opening, Closing, Concat, Delta, Deltas, LastReason;
    var c := ClosePart(t, x.done, Concat(longer), last, 4 + |longer|);
    Regroup(Opening(t), Deltas(t, texts), DeltaPart(t, x.text, 4 + |texts|), c);
  }

  lemma StreamPush(t: Target, seen: seq<Input>, x: Input)
    ensures var before := Effective(seen);
            Stream(t, seen + [x]) == Stream(t, seen) + if Ended(before) || x.Bad? then [] else Added(t, Texts(before), Reason(before), x)
  {
    hide Reason, Texts, Ended, Effective, Frame, Added;
    EffectivePush(seen, x);
    var before := Effective(seen);
    if !Ended(before) && x.Good? {
      EventsPush(before, x);
      FramePush(t, Texts(before), Reason(before), x);
    }
  }

  lemma OpenLength(t: Target, inputs: seq<Input>)
    requires !Ended(Effective(inputs))
    ensures var n := |Texts(Effective(inputs))|;
            |Stream(t, inputs)| == if n == 0 then 0 else |Opening(t)| + n
    ensures t == Responses ==> |Opening(t)| == 4
  {
  }

  // ------------------------------------------------------------------ the converter

  datatype State = State(started: bool, contentStarted: bool, finished: bool, finishReason: Finish, text: string, sequenceNumber: nat)

  ghost predicate StateShows(t: Target, s: State, inputs: seq<Input>) {
    var events := Effective(inputs);
    var texts := Texts(events);
    && s.started == (texts != [] || Ended(events))
    && s.contentStarted == (s.started && t == Anthropic)
    && s.finished == Ended(events)
    && s.finishReason == Reason(events)
    && (t == Responses ==> s.text == Concat(texts) && s.sequenceNumber == |Stream(t, inputs)|)
  }

  /** An event after the end, or one that cannot be converted, changes nothing. */
  lemma IdleEvent(t: Target, s: State, seen: seq<Input>, x: Input)
    requires StateShows(t, s, seen) && (s.finished || x.Bad?)
    ensures StateShows(t, s, seen + [x]) && Stream(t, seen + [x]) == Stream(t, seen)
  {
    hide Effective, Texts, Reason, Concat, Ended, Stream;
    EffectivePush(seen, x);
    StreamPush(t, seen, x);
    assert Stream(t, seen) + [] == Stream(t, seen);
  }

  /** The blocks of one event, given the state before it. */
  function BlocksFor(t: Target, s: State, x: Input): seq<Block>
    requires x.Good?
  {
    var number := if s.started then s.sequenceNumber else 4;
    Three(OpenPart(t, !s.started && (x.text != "" || x.done)), DeltaPart(t, x.text, number),
          ClosePart(t, x.done, s.text + x.text, LastReason(s.finishReason, x), number + if x.text != "" then 1 else 0))
  }

  function StateAfter(t: Target, s: State, x: Input): State
    requires x.Good?
  {
    var started := s.started || x.text != "" || x.done;
    State(started, started && t == Anthropic, x.done, LastReason(s.finishReason, x),
          if t == Responses then s.text + x.text else s.text,
          if t == Responses then s.sequenceNumber + |BlocksFor(t, s, x)| else s.sequenceNumber)
  }

  lemma AnthropicAdded(s: State, texts: seq<string>, x: Input)
    requires x.Good? && s.started == (texts != [])
    ensures BlocksFor(Anthropic, s, x) == Added(Anthropic, texts, s.finishReason, x)
  {
    hide Concat, OpenPart, ClosePart, DeltaPart, Three, LastReason, Longer;
    var number := if s.started then s.sequenceNumber else 4;
    AnthropicIsUnnumbered(x.text, number, 4 + |texts|, x.done, s.text + x.text, Concat(Longer(texts, x)),
                          LastReason(s.finishReason, x), number + (if x.text != "" then 1 else 0), 4 + |Longer(texts, x)|);
  }

  lemma ResponsesAdded(s: State, texts: seq<string>, x: Input)
    requires x.Good? && s.started == (texts != [])
    requires s.text == Concat(texts) && s.sequenceNumber == if texts == [] then 0 else 4 + |texts|
    ensures BlocksFor(Responses, s, x) == Added(Responses, texts, s.finishReason, x)
  {
    hide Concat, OpenPart, ClosePart, DeltaPart, Three, LastReason, Longer;
    LongerText(texts, x);
    assert (if s.started then s.sequenceNumber else 4) == 4 + |texts|;
  }

  lemma LongerText(texts: seq<string>, x: Input)
    requires x.Good?
    ensures Concat(Longer(texts, x)) == Concat(texts) + x.text
    ensures |Longer(texts, x)| == |texts| + if x.text != "" then 1 else 0
  {
    if x.text != "" {
      ConcatPush(texts, x.text);
    } else {
      assert texts + [] == texts && Concat(texts) + x.text == Concat(texts);
    }
  }

  lemma AnthropicIsUnnumbered(text: string, n: nat, m: nat, done: bool, a: string, b: string, finish: Finish, k: nat, l: nat)
    ensures DeltaPart(Anthropic, text, n) == DeltaPart(Anthropic, text, m)
    ensures ClosePart(Anthropic, done, a, finish, k) == ClosePart(Anthropic, done, b, finish, l)
  {}

  lemma LiveEvent(t: Target, s: State, seen: seq<Input>, x: Input)
    requires StateShows(t, s, seen) && !s.finished && x.Good?
    ensures Stream(t, seen + [x]) == Stream(t, seen) + BlocksFor(t, s, x)
    ensures StateShows(t, StateAfter(t, s, x), seen + [x])
  {
    hide Effective, Texts, Reason, Concat, Ended, Stream, Opening, BlocksFor, Added;
    var events := Effective(seen);
    var texts := Texts(events);
    EffectivePush(seen, x);
    EventsPush(events, x);
    StreamPush(t, seen, x);
    OpenLength(t, seen);
    ConcatPush(texts, x.text);
    assert texts + [] == texts && (x.text == "" ==> s.text + x.text == s.text);
    if t == Anthropic { AnthropicAdded(s, texts, x); } else { ResponsesAdded(s, texts, x); }
  }

  class Converter {
    const target: Target
    var started: bool
    var contentStarted: bool
    var finished: bool
    var finishReason: Finish
    var text: string
    var sequenceNumber: nat

    constructor (target: Target)
      ensures this.target == target && Shows([])
    {
      this.target := target;
      started, contentStarted, finished, finishReason, text, sequenceNumber := false, false, false, Unset, "", 0;
    }

    /** The fields are what the events seen so far make them. */
    ghost predicate Shows(inputs: seq<Input>)
      reads this
    {
      StateShows(target, State(started, contentStarted, finished, finishReason, text, sequenceNumber), inputs)
    }

    method NextEvent(event: ResponsesEvent) returns (block: Block)
      modifies `sequenceNumber
      ensures block == Numbered(old(sequenceNumber), event) && sequenceNumber == old(sequenceNumber) + 1
    {
      block := Numbered(sequenceNumber, event);
      sequenceNumber := sequenceNumber + 1;
    }

    method StartResponses() returns (blocks: seq<Block>)
      requires !started ==> sequenceNumber == 0
      modifies `started, `sequenceNumber
      ensures started
      ensures old(started) ==> blocks == [] && sequenceNumber == old(sequenceNumber)
      ensures !old(started) ==> blocks == Opening(Responses) && sequenceNumber == 4 == |blocks|
    {
      if started { return []; }
      started := true;
      var created := NextEvent(Created);
      var progress := NextEvent(InProgress);
      var item := NextEvent(ItemAdded);
      var part := NextEvent(PartAdded);
      blocks := [created, progress, item, part];
    }

    method StartAnthropic() returns (blocks: seq<Block>)
      modifies `started, `contentStarted
      ensures started && contentStarted == (old(contentStarted) || !old(started))
      ensures blocks == if old(started) then [] else Opening(Anthropic)
    {
      if started { return []; }
      started := true;
      contentStarted := true;
      return [MessageStart, BlockStart];
    }

    method ConvertToAnthropic(chunk: string, done: bool) returns (blocks: seq<Block>)
      requires !finished && contentStarted == started
      modifies `started, `contentStarted, `finished
      ensures started == (old(started) || chunk != "" || done) && contentStarted == started && finished == done
      ensures blocks == (if !old(started) && (chunk != "" || done) then Opening(Anthropic) else [])
                        + (if chunk != "" then [BlockDelta(chunk)] else [])
                        + (if done then [BlockStop, MessageDelta(finishReason == Length), MessageStop] else [])
    {
      blocks := [];
      if chunk != "" || done {
        var opening := StartAnthropic();
        blocks := blocks + opening;
      }
      if chunk != "" {
        blocks := blocks + [BlockDelta(chunk)];
      }
      if !done { return; }
      if contentStarted {
        blocks := blocks + [BlockStop];
      }
      var maxTokens := finishReason == Length;
      blocks := blocks + [MessageDelta(maxTokens)] + [MessageStop];
      finished := true;
    }

    method ConvertToResponses(chunk: string, done: bool) returns (blocks: seq<Block>)
      requires !finished && (!started ==> sequenceNumber == 0)
      modifies `started, `finished, `text, `sequenceNumber
      ensures started == (old(started) || chunk != "" || done) && finished == done && text == old(text) + chunk
      ensures sequenceNumber == old(sequenceNumber) + |blocks|
      ensures var number := if old(started) then old(sequenceNumber) else 4;
              blocks == (if !old(started) && (chunk != "" || done) then Opening(Responses) else [])
                        + (if chunk != "" then [Numbered(number, TextDelta(chunk))] else [])
                        + (if done then Closing(Responses, text, finishReason, number + if chunk != "" then 1 else 0) else [])
    {
      hide Opening, Closing;
      blocks := [];
      if chunk != "" || done {
        var opening := StartResponses();
        blocks := blocks + opening;
      }
      if chunk != "" {
        text := text + chunk;
        var delta := NextEvent(TextDelta(chunk));
        blocks := blocks + [delta];
      }
      if !done { return; }
      var closing := CloseResponses();
      blocks := blocks + closing;
    }

    method CloseResponses() returns (blocks: seq<Block>)
      modifies `finished, `sequenceNumber
      ensures finished && blocks == Closing(Responses, text, finishReason, old(sequenceNumber))
      ensures sequenceNumber == old(sequenceNumber) + 4 == old(sequenceNumber) + |blocks|
    {
      var textDone := NextEvent(TextDone(text));
      var partDone := NextEvent(PartDone(text));
      var itemDone := NextEvent(ItemDone(text));
      var completed := NextEvent(Completed(text, finishReason == Length));
      finished := true;
      blocks := [textDone, partDone, itemDone, completed];
    }

    /** One source event. What has been emitted so far, together with what this returns, is the stream that all the
        events so far must turn into. An unconvertible event is refused unless the stream is over. */
    method Convert(x: Input, ghost seen: seq<Input>) returns (r: Result<seq<Block>, Unsupported>)
      requires Shows(seen)
      modifies this
      ensures Shows(seen + [x])
      ensures r.Err? <==> x.Bad? && !Ended(Effective(seen))
      ensures Stream(target, seen + [x]) == Stream(target, seen) + if r.Ok? then r.value else []
    {
      hide Effective, Texts, Reason, Concat, Ended, Stream, Opening;
      ghost var s := State(started, contentStarted, finished, finishReason, text, sequenceNumber);
      OpenState(target, s, seen);
      if finished {
        IdleEvent(target, s, seen, x);
        return Ok([]);
      }
      if x.Bad? {
        IdleEvent(target, s, seen, x);
        return Err(UnsupportedEvent);
      }
      LiveEvent(target, s, seen, x);
      if x.finish != Unset {
        finishReason := x.finish;
      }
      var blocks: seq<Block>;
      if target == Anthropic {
        blocks := ConvertToAnthropic(x.text, x.done);
      } else {
        blocks := ConvertToResponses(x.text, x.done);
      }
      assert blocks == BlocksFor(target, s, x);
      assert State(started, contentStarted, finished, finishReason, text, sequenceNumber) == StateAfter(target, s, x);
      return Ok(blocks);
    }
  }

  lemma OpenState(t: Target, s: State, seen: seq<Input>)
    requires StateShows(t, s, seen)
    ensures !s.finished ==> (t == Anthropic ==> s.contentStarted == s.started) && (t == Responses && !s.started ==> s.sequenceNumber == 0)
  {
    if !s.finished { OpenLength(t, seen); }
  }

  /** A whole stream through one converter: blocks are written as they come, and an event that cannot be converted
      ends the conversion. */
  method ConvertAll(target: Target, inputs: seq<Input>) returns (written: seq<Block>, n: nat)
    ensures n <= |inputs| && written == Stream(target, inputs[..n])
    ensures n < |inputs| ==> inputs[n].Bad? && !Ended(Effective(inputs[..n]))
  {
    var c := new Converter(target);
    written, n := [], 0;
    assert Stream(target, []) == [];
    while n < |inputs|
      invariant n <= |inputs| && c.target == target && c.Shows(inputs[..n])
      invariant written == Stream(target, inputs[..n])
    {
      assert inputs[..n + 1] == inputs[..n] + [inputs[n]];
      var r := c.Convert(inputs[n], inputs[..n]);
      if r.Err? { return; }
      written := written + r.value;
      n := n + 1;
    }
  }

  // ------------------------------------------------------------------ what a client can rely on

  function DeltaOf(b: Block): string {
    match b
    case BlockDelta(text) => text
    case Numbered(_, TextDelta(text)) => text
    case _ => ""
  }

  /** The text a client reads: the deltas it has received. */
  function ReadText(blocks: seq<Block>): string {
    if blocks == [] then "" else ReadText(blocks[..|blocks| - 1]) + DeltaOf(blocks[|blocks| - 1])
  }

  /** The text the source has sent, up to the event that ended it. */
  function SentText(events: seq<Input>): string {
    if events == [] then ""
    else
      var last := events[|events| - 1];
      SentText(events[..|events| - 1]) + if last.Good? then last.text else ""
  }

  lemma {:induction false} SentIsConcat(events: seq<Input>)
    ensures SentText(events) == Concat(Texts(events))
  {
    if events != [] {
      var init, last := events[..|events| - 1], events[|events| - 1];
      SentIsConcat(init);
      ConcatPush(Texts(init), if last.Good? then last.text else "");
      assert Texts(init) + [] == Texts(init) && Concat(Texts(init)) + "" == Concat(Texts(init));
    }
  }

  lemma {:induction false} ReadConcat(a: seq<Block>, b: seq<Block>)
    ensures ReadText(a + b) == ReadText(a) + ReadText(b)
  {
    hide DeltaOf;
    if b == [] {
      assert a + b == a && ReadText(a) + "" == ReadText(a);
    } else {
      var init, last := b[..|b| - 1], b[|b| - 1];
      assert (a + b)[..|a + b| - 1] == a + init;
      ReadConcat(a, init);
      assert ReadText(b) == ReadText(init) + DeltaOf(last);
      assert ReadText(a + b) == ReadText(a + init) + DeltaOf(last);
      hide ReadText;
      Associate(ReadText(a), ReadText(init), DeltaOf(last));
    }
  }

  lemma Associate(a: string, b: string, c: string)
    ensures a + (b + c) == (a + b) + c
  {}

  lemma {:induction false} ReadNothing(blocks: seq<Block>)
    requires forall i :: 0 <= i < |blocks| ==> DeltaOf(blocks[i]) == ""
    ensures ReadText(blocks) == ""
  {
    if blocks != [] { ReadNothing(blocks[..|blocks| - 1]); }
  }

  lemma {:induction false} ReadDeltas(t: Target, texts: seq<string>)
    ensures ReadText(Deltas(t, texts)) == Concat(texts)
  {
    if texts != [] {
      var init := texts[..|texts| - 1];
      ReadDeltas(t, init);
      assert Deltas(t, texts)[..|texts| - 1] == Deltas(t, init);
    }
  }

  lemma FrameReadsNothing(t: Target, text: string, finish: Finish, number: nat)
    ensures ReadText(Opening(t)) == "" && ReadText(Closing(t, text, finish, number)) == ""
  {
    ReadNothing(Opening(t));
    ReadNothing(Closing(t, text, finish, number));
  }

  /** The deltas a client has received are the text the source has sent, not a character more or less. */
  lemma TextArrives(t: Target, inputs: seq<Input>)
    ensures ReadText(Stream(t, inputs)) == SentText(Effective(inputs))
  {
    hide Effective, Texts, Reason, Concat, SentText, Ended, Opening, Closing, Deltas, ReadText;
    var events := Effective(inputs);
    var texts := Texts(events);
    var closing := if Ended(events) then Closing(t, Concat(texts), Reason(events), 4 + |texts|) else [];
    SentIsConcat(events);
    ReadNothing([]);
    FrameReadsNothing(t, Concat(texts), Reason(events), 4 + |texts|);
    ReadDeltas(t, texts);
    ReadConcat(Opening(t) + Deltas(t, texts), closing);
    ReadConcat(Opening(t), Deltas(t, texts));
    NoTextNoConcat(texts);
    assert "" + Concat(texts) + "" == Concat(texts);
  }

  lemma NoTextNoConcat(texts: seq<string>)
    ensures texts == [] ==> Concat(texts) == ""
  {}

  /** Closing blocks: the ones that end a message. */
  predicate Closes(b: Block) { b.MessageStop? || (b.Numbered? && b.event.Completed?) }

  /** The stream is a prefix of opening, deltas, closing; it closes exactly when the source has ended, once, as its
      last block, with the length limit reported exactly when it was the source's last finish reason; and the
      closing repeats the text that was sent. Responses events are numbered 0, 1, 2 and so on. */
  lemma StreamShape(t: Target, inputs: seq<Input>)
    ensures var events := Effective(inputs);
            var blocks := Stream(t, inputs);
            var n := |Texts(events)|;
            var closing := Closing(t, SentText(events), Reason(events), 4 + n);
            && blocks <= Opening(t) + Deltas(t, Texts(events)) + closing
            && (Ended(events) ==> blocks == Opening(t) + Deltas(t, Texts(events)) + closing)
            && (forall i :: 0 <= i < |blocks| ==> (Closes(blocks[i]) <==> Ended(events) && i == |blocks| - 1))
            && (t == Responses ==> forall i :: 0 <= i < |blocks| ==> blocks[i].Numbered? && blocks[i].number == i)
  {
    SentIsConcat(Effective(inputs));
    hide Effective, Texts, Reason, Concat, SentText, Ended;
  }

  // ------------------------------------------------------------------ the stream, block by block

  /** The convertible events. */
  function Goods(inputs: seq<Input>): seq<Input> {
    if inputs == [] then []
    else var last := inputs[|inputs| - 1]; Goods(inputs[..|inputs| - 1]) + if last.Good? then [last] else []
  }

  /** The stream ends with the first convertible event that says so. */
  predicate EndsAt(inputs: seq<Input>, k: int) {
    0 <= k < |inputs| && inputs[k].Good? && inputs[k].done && forall j :: 0 <= j < k ==> !(inputs[j].Good? && inputs[j].done)
  }

  /** What counts are the convertible events up to and including the one that ends the stream. */
  lemma {:induction false} EffectiveMeans(inputs: seq<Input>)
    ensures Ended(Effective(inputs)) <==> exists k :: EndsAt(inputs, k)
    ensures forall k :: EndsAt(inputs, k) ==> Effective(inputs) == Goods(inputs[..k + 1])
    ensures !Ended(Effective(inputs)) ==> Effective(inputs) == Goods(inputs)
  {
    hide Effective, Goods, Ended;
    if inputs == [] {
      NoInputs();
    } else {
      var init, last := inputs[..|inputs| - 1], inputs[|inputs| - 1];
      assert inputs == init + [last];
      EffectiveMeans(init);
      EffectivePush(init, last);
      EndStays(init, last);
      GoodsPush(init, last);
      if !Ended(Effective(init)) && last.Good? { EventsPush(Effective(init), last); }
      assert Effective(init) + [] == Effective(init) && Goods(init) + [] == Goods(init);
      if Ended(Effective(init)) {
        var k :| EndsAt(init, k);
        assert EndsAt(inputs, k);
      } else if last.Good? && last.done {
        assert EndsAt(inputs, |init|);
      }
      forall k | EndsAt(inputs, k) ensures Effective(inputs) == Goods(inputs[..k + 1]) {
        EndIsAnIndex(inputs, k);
        if EndsAt(init, k) {
          EndIsAnIndex(init, k);
          assert inputs[..k + 1] == init[..k + 1];
        } else {
          assert inputs[..k + 1] == inputs;
        }
      }
    }
  }

  lemma NoInputs()
    ensures Effective([]) == [] && Goods([]) == [] && !Ended([]) && forall k :: !EndsAt([], k)
  {}

  lemma EndIsAnIndex(inputs: seq<Input>, k: int)
    requires EndsAt(inputs, k)
    ensures 0 <= k < |inputs|
  {}

  lemma GoodsPush(init: seq<Input>, last: Input)
    ensures Goods(init + [last]) == Goods(init) + if last.Good? then [last] else []
  {
    assert (init + [last])[..|init|] == init;
  }

  lemma EndStays(init: seq<Input>, last: Input)
    ensures forall k :: EndsAt(init + [last], k) <==>
              EndsAt(init, k) || (k == |init| && last.Good? && last.done && forall j :: !EndsAt(init, j))
  {
    var all := init + [last];
    assert all[|init|] == last && forall i :: 0 <= i < |init| ==> all[i] == init[i];
    if forall j :: !EndsAt(init, j) {
      forall j | 0 <= j < |init| ensures !(init[j].Good? && init[j].done) { NoneBefore(init, j); }
    }
  }

  lemma {:induction false} NoneBefore(inputs: seq<Input>, j: nat)
    requires j < |inputs| && forall k :: !EndsAt(inputs, k)
    ensures !(inputs[j].Good? && inputs[j].done)
    decreases j
  {
    forall i: nat | i < j ensures !(inputs[i].Good? && inputs[i].done) { NoneBefore(inputs, i); }
    assert !EndsAt(inputs, j);
  }

  /** The last finish reason any of the events gives. */
  lemma {:induction false} ReasonMeans(events: seq<Input>)
    requires forall i :: 0 <= i < |events| ==> events[i].Good?
    ensures if Reason(events) == Unset then forall i :: 0 <= i < |events| ==> events[i].finish == Unset
            else exists k :: 0 <= k < |events| && events[k].finish == Reason(events)
                             && forall j :: k < j < |events| ==> events[j].finish == Unset
  {
    if events != [] {
      var init, last := events[..|events| - 1], events[|events| - 1];
      assert forall i :: 0 <= i < |init| ==> init[i] == events[i];
      ReasonMeans(init);
      if last.finish != Unset {
        assert events[|events| - 1].finish == Reason(events);
      } else if Reason(init) != Unset {
        var k :| 0 <= k < |init| && init[k].finish == Reason(init) && forall j :: k < j < |init| ==> init[j].finish == Unset;
        assert events[k].finish == Reason(events);
      }
    }
  }

  /** The texts are those of the events, in order, without the empty ones. */
  lemma TextsMean(events: seq<Input>, x: Input)
    ensures Texts([]) == []
    ensures Texts(events + [x]) == Texts(events) + if x.Good? && x.text != "" then [x.text] else []
  {
    assert (events + [x])[..|events|] == events;
  }

  /** The stream an Anthropic client gets: nothing before the first text or the end; then a message with one block of one delta
      for each text; and at the end block, stop reason and message are closed. */
  lemma AnthropicStream(inputs: seq<Input>)
    ensures var events := Effective(inputs);
            var blocks, texts, n := Stream(Anthropic, inputs), Texts(events), |Texts(events)|;
            if texts == [] && !Ended(events) then blocks == []
            else
              && |blocks| == 2 + n + (if Ended(events) then 3 else 0)
              && blocks[0] == MessageStart && blocks[1] == BlockStart
              && (forall i :: 0 <= i < n ==> blocks[2 + i] == BlockDelta(texts[i]))
              && (Ended(events) ==> blocks[2 + n] == BlockStop && blocks[3 + n] == MessageDelta(Reason(events) == Length) && blocks[4 + n] == MessageStop)
  {
    hide Effective, Texts, Reason, Ended;
  }

  /** The stream a Responses client gets, each event under its own number from zero: created, in progress, item and part added;
      one delta for each text; and at the end text, part, item and response are done with the whole text that was sent, the
      response incomplete exactly if the length limit was the last reason given. */
  lemma ResponsesStream(inputs: seq<Input>)
    ensures var events := Effective(inputs);
            var blocks, texts, n, text := Stream(Responses, inputs), Texts(events), |Texts(events)|, SentText(events);
            if texts == [] && !Ended(events) then blocks == []
            else
              && |blocks| == 4 + n + (if Ended(events) then 4 else 0)
              && (forall i :: 0 <= i < |blocks| ==> blocks[i].Numbered? && blocks[i].number == i)
              && blocks[0].event == Created && blocks[1].event == InProgress && blocks[2].event == ItemAdded && blocks[3].event == PartAdded
              && (forall i :: 0 <= i < n ==> blocks[4 + i].event == TextDelta(texts[i]))
              && (Ended(events) ==>
                    && blocks[4 + n].event == TextDone(text) && blocks[5 + n].event == PartDone(text)
                    && blocks[6 + n].event == ItemDone(text) && blocks[7 + n].event == Completed(text, Reason(events) == Length))
  {
    SentIsConcat(Effective(inputs));
    hide Effective, Texts, Reason, Concat, SentText, Ended;
  }
}

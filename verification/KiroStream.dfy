/** The incremental splitter of concatenated JSON objects against whole-body parsing (internal/gateway/kiro.go).
    Strings inside an item follow the escape rules of section 7 of RFC 8259. */
module KiroStream {
  import opened Outcomes
  import opened Strings

  newtype byte = x: int | 0 <= x < 256

  type Bytes = seq<byte>

  const OPEN: byte := 123
  const CLOSE: byte := 125
  const QUOTE: byte := 34
  const BACKSLASH: byte := 92

  /* The most bytes an incomplete item may hold, 1 MiB. */
  const MAX_EVENT_BYTES: nat := 1048576

  // ------------------------------------------------------------------ matching the first brace

  datatype Cursor = Cursor(depth: int, inString: bool, escaped: bool)

  const OUTSIDE := Cursor(0, false, false)

  function Advance(c: Cursor, b: byte): Cursor {
    if c.escaped then c.(escaped := false)
    else if c.inString && b == BACKSLASH then c.(escaped := true)
    else if b == QUOTE then c.(inString := !c.inString)
    else if c.inString then c
    else if b == OPEN then c.(depth := c.depth + 1)
    else if b == CLOSE then c.(depth := c.depth - 1)
    else c
  }

  /** This byte closes the item the cursor is in. */
  predicate Closes(c: Cursor, b: byte) {
    !c.escaped && !c.inString && b == CLOSE && c.depth == 1
  }

  function CursorAfter(c: Cursor, data: Bytes): Cursor {
    if data == [] then c else Advance(CursorAfter(c, data[..|data| - 1]), data[|data| - 1])
  }

  /** The index of the byte that closes the first item, or -1. */
  function MatchFrom(c: Cursor, data: Bytes): (end: int)
    ensures -1 <= end < |data|
    decreases |data|
  {
    if data == [] then -1
    else if Closes(c, data[0]) then 0
    else
      var rest := MatchFrom(Advance(c, data[0]), data[1..]);
      if rest < 0 then -1 else rest + 1
  }

  method MatchingBrace(data: Bytes) returns (end: int)
    ensures end == MatchFrom(OUTSIDE, data)
  {
    var depth, inString, escaped := 0, false, false;
    assert data[0..] == data;
    for i := 0 to |data|
      invariant var rest := MatchFrom(Cursor(depth, inString, escaped), data[i..]);
                MatchFrom(OUTSIDE, data) == if rest < 0 then -1 else i + rest
    {
      var value := data[i];
      assert data[i..][0] == value && data[i..][1..] == data[i + 1..];
      if escaped {
        escaped := false;
        continue;
      }
      if inString && value == BACKSLASH {
        escaped := true;
        continue;
      }
      if value == QUOTE {
        inString := !inString;
        continue;
      }
      if inString { continue; }
      if value == OPEN {
        depth := depth + 1;
      } else if value == CLOSE {
        depth := depth - 1;
        if depth == 0 { return i; }
      }
    }
    return -1;
  }

  /** What has been matched does not depend on what follows; an unmatched prefix only moves the cursor. */
  lemma {:induction false} MatchPrefix(c: Cursor, data: Bytes, more: Bytes)
    ensures var end := MatchFrom(c, data);
            var rest := MatchFrom(CursorAfter(c, data), more);
            MatchFrom(c, data + more) == if end >= 0 then end else if rest >= 0 then |data| + rest else -1
    decreases |data|
  {
    if data == [] {
      assert data + more == more;
    } else {
      assert (data + more)[1..] == data[1..] + more;
      MatchPrefix(Advance(c, data[0]), data[1..], more);
      CursorFromFront(c, data);
    }
  }

  lemma {:induction false} CursorFromFront(c: Cursor, data: Bytes)
    requires data != []
    ensures CursorAfter(c, data) == CursorAfter(Advance(c, data[0]), data[1..])
  {
    if |data| == 1 {
      assert data[..0] == [] && data[1..] == [];
    } else {
      CursorFromFront(c, data[..|data| - 1]);
      assert data[1..][..|data| - 2] == data[..|data| - 1][1..];
    }
  }

  // ------------------------------------------------------------------ draining a buffer

  function IndexOf(data: Bytes, b: byte): (r: int)
    ensures -1 <= r < |data|
    ensures r >= 0 ==> data[r] == b
    ensures forall i :: 0 <= i < (if r < 0 then |data| else r) ==> data[i] != b
  {
    if data == [] then -1
    else if data[0] == b then 0
    else
      var rest := IndexOf(data[1..], b);
      assert forall i :: 1 <= i < |data| ==> data[i] == data[1..][i - 1];
      if rest < 0 then -1 else rest + 1
  }

  /** Garbage without a brace is kept up to the limit, from its end. */
  function Tail(data: Bytes): Bytes {
    if |data| > MAX_EVENT_BYTES then data[|data| - MAX_EVENT_BYTES..] else data
  }

  datatype Drained = Drained(objects: seq<Bytes>, rest: Bytes)

  /** The complete objects in the buffer, in order, and what stays buffered. */
  function Drain(buffer: Bytes): Drained
    decreases |buffer|
  {
    var start := IndexOf(buffer, OPEN);
    if start < 0 then Drained([], Tail(buffer))
    else
      var item := buffer[start..];
      var end := MatchFrom(OUTSIDE, item);
      if end < 0 then Drained([], if |item| > MAX_EVENT_BYTES then [] else item)
      else
        var later := Drain(item[end + 1..]);
        Drained([item[..end + 1]] + later.objects, later.rest)
  }

  /** The incomplete item the stream ends in, or nothing. */
  function Incomplete(stream: Bytes): Bytes
    decreases |stream|
  {
    var start := IndexOf(stream, OPEN);
    if start < 0 then []
    else
      var item := stream[start..];
      var end := MatchFrom(OUTSIDE, item);
      if end < 0 then item else Incomplete(item[end + 1..])
  }

  /** No incomplete item exceeds the limit here. */
  predicate Kept(stream: Bytes) { |Incomplete(stream)| <= MAX_EVENT_BYTES }

  function Continue(d: Drained, more: Bytes): Drained {
    var next := Drain(d.rest + more);
    Drained(d.objects + next.objects, next.rest)
  }

  lemma OpenAt(data: Bytes, k: int)
    requires 0 <= k < |data| && data[k] == OPEN
    requires forall i :: 0 <= i < k ==> data[i] != OPEN
    ensures IndexOf(data, OPEN) == k
  {}

  lemma NoOpen(data: Bytes)
    requires forall i :: 0 <= i < |data| ==> data[i] != OPEN
    ensures IndexOf(data, OPEN) == -1
  {}

  /** The first complete item comes off the front. */
  lemma DrainComplete(buffer: Bytes, start: nat, item: Bytes, end: nat)
    requires IndexOf(buffer, OPEN) == start && item == buffer[start..]
    requires MatchFrom(OUTSIDE, item) == end
    ensures var later := Drain(item[end + 1..]);
            && Drain(buffer).objects == [item[..end + 1]] + later.objects
            && Drain(buffer).rest == later.rest
    ensures Incomplete(buffer) == Incomplete(item[end + 1..])
  {
    hide MatchFrom, IndexOf, Drain, Incomplete;
    DrainsFirst(buffer, start, item, end);
    IncompleteLater(buffer, start, item, end);
  }

  lemma DrainsFirst(buffer: Bytes, start: nat, item: Bytes, end: nat)
    requires IndexOf(buffer, OPEN) == start && item == buffer[start..]
    requires MatchFrom(OUTSIDE, item) == end
    ensures var later := Drain(item[end + 1..]); Drain(buffer) == Drained([item[..end + 1]] + later.objects, later.rest)
  {
    hide MatchFrom, IndexOf, Incomplete, Tail;
  }

  lemma IncompleteLater(buffer: Bytes, start: nat, item: Bytes, end: nat)
    requires IndexOf(buffer, OPEN) == start && item == buffer[start..]
    requires MatchFrom(OUTSIDE, item) == end
    ensures Incomplete(buffer) == Incomplete(item[end + 1..])
  {
    hide MatchFrom, IndexOf, Drain;
  }

  /** An unfinished item is buffered, if it fits. */
  lemma DrainUnfinished(buffer: Bytes, start: nat, item: Bytes)
    requires IndexOf(buffer, OPEN) == start && item == buffer[start..]
    requires MatchFrom(OUTSIDE, item) < 0
    ensures Drain(buffer) == Drained([], if |item| > MAX_EVENT_BYTES then [] else item)
    ensures Incomplete(buffer) == item
  {
    hide MatchFrom, IndexOf;
  }

  lemma AppendAfterObjects(first: seq<Bytes>, d: Drained, more: Bytes)
    ensures Continue(Drained(first + d.objects, d.rest), more).objects == first + Continue(d, more).objects
    ensures Continue(Drained(first + d.objects, d.rest), more).rest == Continue(d, more).rest
  {
    hide Drain;
    var next := Drain(d.rest + more).objects;
    assert first + (d.objects + next) == (first + d.objects) + next;
  }

  lemma TailOfTail(garbage: Bytes, more: Bytes)
    ensures Tail(garbage + more) == Tail(Tail(garbage) + more)
  {}

  /** Draining starts at the first brace. */
  lemma SkipGarbage(garbage: Bytes, more: Bytes, k: int)
    requires IndexOf(garbage, OPEN) < 0 && k == IndexOf(more, OPEN) && k >= 0
    ensures Drain(garbage + more) == Drain(more)
  {
    hide MatchFrom, IndexOf, Drain, Incomplete;
    var item := more[k..];
    OpenAt(garbage + more, |garbage| + k);
    assert (garbage + more)[|garbage| + k..] == item;
    var end := MatchFrom(OUTSIDE, item);
    if end < 0 {
      DrainUnfinished(garbage + more, |garbage| + k, item);
      DrainUnfinished(more, k, item);
    } else {
      DrainComplete(garbage + more, |garbage| + k, item, end);
      DrainComplete(more, k, item, end);
    }
  }

  /** Bytes in front of the first brace do not matter. */
  lemma GarbageInFront(garbage: Bytes, more: Bytes)
    requires IndexOf(garbage, OPEN) < 0
    ensures Drain(garbage + more) == Drain(Tail(garbage) + more)
  {
    hide MatchFrom, IndexOf, Drain;
    var kept := Tail(garbage);
    var k := IndexOf(more, OPEN);
    NoOpen(kept);
    if k < 0 {
      NoOpen(garbage + more);
      NoOpen(kept + more);
      TailOfTail(garbage, more);
      DrainGarbage(garbage + more);
      DrainGarbage(kept + more);
    } else {
      SkipGarbage(garbage, more, k);
      SkipGarbage(kept, more, k);
    }
  }

  lemma DrainGarbage(data: Bytes)
    requires IndexOf(data, OPEN) < 0
    ensures Drain(data) == Drained([], Tail(data)) && Incomplete(data) == []
  {}

  /** Cutting inside an unfinished item that fits. */
  lemma UnfinishedSplits(stream: Bytes, start: nat, item: Bytes, more: Bytes)
    requires IndexOf(stream, OPEN) == start && item == stream[start..]
    requires MatchFrom(OUTSIDE, item) < 0 && |item| <= MAX_EVENT_BYTES
    ensures Drain(stream + more) == Continue(Drain(stream), more)
  {
    hide MatchFrom, IndexOf, Drain;
    DrainUnfinished(stream, start, item);
    var whole := item + more;
    OpenAt(stream + more, start);
    assert (stream + more)[start..] == whole;
    OpenAt(whole, 0);
    assert whole[0..] == whole;
    var end := MatchFrom(OUTSIDE, whole);
    if end < 0 {
      DrainUnfinished(stream + more, start, whole);
      DrainUnfinished(whole, 0, whole);
    } else {
      DrainComplete(stream + more, start, whole, end);
      DrainComplete(whole, 0, whole, end);
    }
    assert [] + Drain(whole).objects == Drain(whole).objects;
  }

  /** Feeding the rest later gives the same as feeding all at once. */
  lemma {:induction false} DrainSplits(stream: Bytes, more: Bytes)
    requires Kept(stream)
    ensures Drain(stream + more) == Continue(Drain(stream), more)
    decreases |stream|
  {
    hide MatchFrom, IndexOf, CursorAfter, Drain, Incomplete;
    var start := IndexOf(stream, OPEN);
    if start < 0 {
      GarbageInFront(stream, more);
      DrainGarbage(stream);
      assert [] + Drain(Tail(stream) + more).objects == Drain(Tail(stream) + more).objects;
    } else {
      var item := stream[start..];
      var end := MatchFrom(OUTSIDE, item);
      if end < 0 {
        DrainUnfinished(stream, start, item);
        UnfinishedSplits(stream, start, item, more);
      } else {
        var after := item[end + 1..];
        DrainComplete(stream, start, item, end);
        DrainSplits(after, more);
        AppendAfterObjects([item[..end + 1]], Drain(after), more);
        OpenAt(stream + more, start);
        assert (stream + more)[start..] == item + more;
        MatchPrefix(OUTSIDE, item, more);
        DrainComplete(stream + more, start, item + more, end);
        assert (item + more)[end + 1..] == after + more;
        assert (item + more)[..end + 1] == item[..end + 1];
      }
    }
  }

  // ------------------------------------------------------------------ what is taken out

  /** Inside an unfinished item the depth is positive and only strings hold escapes. */
  lemma {:induction false} UnfinishedCursor(item: Bytes)
    requires item != [] && item[0] == OPEN && MatchFrom(OUTSIDE, item) < 0
    ensures var c := CursorAfter(OUTSIDE, item); c.depth >= 1 && (c.escaped ==> c.inString)
  {
    if |item| == 1 {
      assert item[..0] == [];
    } else {
      var init, last := item[..|item| - 1], item[|item| - 1];
      assert item == init + [last];
      MatchPrefix(OUTSIDE, init, [last]);
      UnfinishedCursor(init);
    }
  }

  /** What the match means: up to it the object is open at every point, and there its braces balance, outside any string. */
  lemma MatchIsFirstBalance(data: Bytes, k: nat)
    requires data != [] && data[0] == OPEN && k <= |data|
    ensures var end := MatchFrom(OUTSIDE, data);
            && (end >= 0 ==> data[end] == CLOSE && CursorAfter(OUTSIDE, data[..end + 1]) == OUTSIDE)
            && (0 < k && (end < 0 || k <= end) ==> CursorAfter(OUTSIDE, data[..k]).depth >= 1)
  {
    hide CursorAfter;
    var end := MatchFrom(OUTSIDE, data);
    if 0 < k && (end < 0 || k <= end) { OpenUpTo(data, k); }
    if end >= 0 { ClosedAt(data, end); }
  }

  lemma OpenUpTo(data: Bytes, k: nat)
    requires data != [] && data[0] == OPEN && 0 < k <= |data|
    requires var end := MatchFrom(OUTSIDE, data); end < 0 || k <= end
    ensures MatchFrom(OUTSIDE, data[..k]) < 0 && CursorAfter(OUTSIDE, data[..k]).depth >= 1
  {
    hide CursorAfter, MatchFrom;
    assert data[..k] + data[k..] == data;
    MatchPrefix(OUTSIDE, data[..k], data[k..]);
    UnfinishedCursor(data[..k]);
  }

  lemma ClosedAt(data: Bytes, end: nat)
    requires data != [] && data[0] == OPEN && end < |data| && MatchFrom(OUTSIDE, data) == end
    ensures data[end] == CLOSE && CursorAfter(OUTSIDE, data[..end + 1]) == OUTSIDE
  {
    if end > 0 {
      OpenUpTo(data, end);
      var before, rest := data[..end], data[end..];
      assert before + rest == data;
      MatchPrefix(OUTSIDE, before, rest);
      var c := CursorAfter(OUTSIDE, before);
      assert MatchFrom(c, rest) == 0 && rest[0] == data[end];
      assert data[..end + 1][..end] == before;
    }
  }

  /** An object as the scanner sees one: from a brace to the brace that first balances it. */
  predicate Complete(o: Bytes) { o != [] && o[0] == OPEN && MatchFrom(OUTSIDE, o) == |o| - 1 }

  /** Every object taken out is complete, and no longer than what it was taken from. */
  lemma {:induction false} ObjectsAreBalanced(buffer: Bytes, i: nat)
    requires i < |Drain(buffer).objects|
    ensures Complete(Drain(buffer).objects[i]) && |Drain(buffer).objects[i]| <= |buffer|
    decreases |buffer|
  {
    hide MatchFrom, IndexOf, Drain;
    var start := IndexOf(buffer, OPEN);
    if start < 0 {
      DrainGarbage(buffer);
    } else {
      var item := buffer[start..];
      var end := MatchFrom(OUTSIDE, item);
      if end < 0 {
        DrainUnfinished(buffer, start, item);
      } else {
        DrainComplete(buffer, start, item, end);
        var first := item[..end + 1];
        if i == 0 {
          MatchPrefix(OUTSIDE, first, item[end + 1..]);
          assert first + item[end + 1..] == item;
        } else {
          ObjectsAreBalanced(item[end + 1..], i - 1);
        }
      }
    }
  }

  /** A complete object fed at once comes out as it is. */
  lemma DrainsToItself(o: Bytes)
    requires Complete(o)
    ensures Drain(o) == Drained([o], [])
  {
    hide MatchFrom, IndexOf, Drain;
    OpenAt(o, 0);
    assert o[0..] == o && o[..|o|] == o && o[|o|..] == [];
    DrainComplete(o, 0, o, |o| - 1);
    NoOpen([]);
    DrainGarbage([]);
  }

  // ------------------------------------------------------------------ the bound is needed

  /** Once an oversized item has been dropped, what continues it in the same feed stays dropped. */
  lemma {:induction false} OversizedStays(stream: Bytes)
    requires !Kept(stream)
    ensures Drain(stream).rest == [] && Drain(stream + [OPEN]) == Drain(stream)
    decreases |stream|
  {
    hide MatchFrom, IndexOf, CursorAfter, Drain, Incomplete;
    var start := IndexOf(stream, OPEN);
    if start < 0 {
      DrainGarbage(stream);
    } else {
      var item := stream[start..];
      var end := MatchFrom(OUTSIDE, item);
      OpenAt(stream + [OPEN], start);
      assert (stream + [OPEN])[start..] == item + [OPEN];
      MatchPrefix(OUTSIDE, item, [OPEN]);
      if end < 0 {
        NeverCloses(CursorAfter(OUTSIDE, item));
        DrainUnfinished(stream, start, item);
        DrainUnfinished(stream + [OPEN], start, item + [OPEN]);
      } else {
        DrainComplete(stream, start, item, end);
        DrainComplete(stream + [OPEN], start, item + [OPEN], end);
        assert (item + [OPEN])[end + 1..] == item[end + 1..] + [OPEN];
        assert (item + [OPEN])[..end + 1] == item[..end + 1];
        OversizedStays(item[end + 1..]);
      }
    }
  }

  lemma NeverCloses(c: Cursor)
    ensures MatchFrom(c, [OPEN]) < 0
  {}

  lemma BraceIsBuffered()
    ensures Drain([OPEN]) == Drained([], [OPEN])
  {
    var brace := [OPEN];
    OpenAt(brace, 0);
    assert brace[0..] == brace;
    NeverCloses(OUTSIDE);
    DrainUnfinished(brace, 0, brace);
  }

  /** An object cut where the part before the cut is over the limit: fed at once it comes out, cut it never does. */
  lemma OversizedObjectIsLost(o: Bytes, k: nat)
    requires Complete(o) && 1_048_576 < k < |o|
    ensures Drain(o).objects == [o] && Drain(o[..k]) == Drained([], [])
    ensures Continue(Drain(o[..k]), o[k..]) == Drain(o[k..]) && o !in Drain(o[k..]).objects
  {
    hide MatchFrom, IndexOf, Drain, CursorAfter;
    DrainsToItself(o);
    var before, after := o[..k], o[k..];
    OpenUpTo(o, k);
    OpenAt(before, 0);
    assert before[0..] == before;
    DrainUnfinished(before, 0, before);
    assert [] + after == after && [] + Drain(after).objects == Drain(after).objects;
    forall i | 0 <= i < |Drain(after).objects| ensures |Drain(after).objects[i]| < |o| {
      ObjectsAreBalanced(after, i);
    }
  }

  // ------------------------------------------------------------------ any chunking

  function Join(chunks: seq<Bytes>): Bytes {
    if chunks == [] then [] else Join(chunks[..|chunks| - 1]) + chunks[|chunks| - 1]
  }

  /** Feeding the chunks one after the other. */
  function FeedAll(chunks: seq<Bytes>): Drained {
    if chunks == [] then Drained([], []) else Continue(FeedAll(chunks[..|chunks| - 1]), chunks[|chunks| - 1])
  }

  /** At no chunk boundary before the last is an incomplete item over the limit. */
  predicate KeptThroughout(chunks: seq<Bytes>) {
    forall k :: 0 <= k < |chunks| ==> Kept(Join(chunks[..k]))
  }

  lemma {:induction false} ChunkingDoesNotMatter(chunks: seq<Bytes>)
    requires KeptThroughout(chunks)
    ensures FeedAll(chunks) == Drain(Join(chunks))
  {
    if chunks == [] {
      assert Drain([]) == Drained([], []);
    } else {
      var init := chunks[..|chunks| - 1];
      assert forall k :: 0 <= k <= |init| ==> init[..k] == chunks[..k];
      ChunkingDoesNotMatter(init);
      assert init == chunks[..|chunks| - 1] && Kept(Join(init));
      DrainSplits(Join(init), chunks[|chunks| - 1]);
    }
  }

  // ------------------------------------------------------------------ the parser

  class Parser {
    var buffer: Bytes

    constructor ()
      ensures buffer == []
    {
      buffer := [];
    }

    /** Buffer the chunk and take out every complete item. */
    method Feed(chunk: Bytes) returns (objects: seq<Bytes>)
      modifies this
      ensures Drained(objects, buffer) == Drain(old(buffer) + chunk)
    {
      hide MatchFrom, IndexOf, Drain, Incomplete;
      if |chunk| > 0 {
        buffer := buffer + chunk;
      }
      assert buffer == old(buffer) + chunk;
      objects := [];
      ghost var all := Drain(buffer);
      assert [] + all.objects == all.objects;
      while true
        invariant all.objects == objects + Drain(buffer).objects && all.rest == Drain(buffer).rest
        decreases |buffer|
      {
        var start := IndexOf(buffer, OPEN);
        if start < 0 {
          DrainGarbage(buffer);
          assert objects + [] == objects;
          if |buffer| > MAX_EVENT_BYTES {
            buffer := buffer[|buffer| - MAX_EVENT_BYTES..];
          }
          return;
        }
        ghost var before := buffer;
        if start > 0 {
          buffer := buffer[start..];
        }
        assert buffer == before[start..];
        var end := MatchingBrace(buffer);
        if end < 0 {
          DrainUnfinished(before, start, buffer);
          assert objects + [] == objects;
          if |buffer| > MAX_EVENT_BYTES {
            buffer := [];
          }
          return;
        }
        DrainComplete(before, start, buffer, end);
        var item := buffer[..end + 1];
        buffer := buffer[end + 1..];
        assert objects + ([item] + Drain(buffer).objects) == (objects + [item]) + Drain(buffer).objects;
        objects := objects + [item];
      }
    }
  }

  // ------------------------------------------------------------------ events and the two ways to read a response

  datatype TokenUsage = TokenUsage(input: int, output: int, cacheRead: int, cacheWrite: int)

  /** What an event carries once decoded: its text and, if complete, its token usage. */
  datatype Event = Event(content: string, usage: Option<TokenUsage>)

  datatype StreamResult = StreamResult(content: string, lastContent: string, usage: Option<TokenUsage>)

  const NOTHING := StreamResult("", "", None)

  /** Objects that do not decode are skipped. */
  function Decoded(objects: seq<Bytes>, decode: Bytes -> Option<Event>): seq<Event> {
    if objects == [] then []
    else
      var last := decode(objects[|objects| - 1]);
      Decoded(objects[..|objects| - 1], decode) + (if last.Some? then [last.value] else [])
  }

  /** The new text of an event: empty, or repeated, content adds nothing. */
  function NewText(r: StreamResult, e: Event): string {
    if e.content != r.lastContent then e.content else ""
  }

  function ApplyEvent(r: StreamResult, e: Event): StreamResult {
    var text := NewText(r, e);
    StreamResult(r.content + text, if text != "" then e.content else r.lastContent, if e.usage.Some? then e.usage else r.usage)
  }

  function ApplyAll(r: StreamResult, events: seq<Event>): StreamResult {
    if events == [] then r else ApplyEvent(ApplyAll(r, events[..|events| - 1]), events[|events| - 1])
  }

  /** The texts written to the client, in order. */
  function Emitted(r: StreamResult, events: seq<Event>): seq<string> {
    if events == [] then []
    else
      var init := events[..|events| - 1];
      var text := NewText(ApplyAll(r, init), events[|events| - 1]);
      Emitted(r, init) + (if text != "" then [text] else [])
  }

  function Concat(texts: seq<string>): string {
    if texts == [] then "" else Concat(texts[..|texts| - 1]) + texts[|texts| - 1]
  }

  lemma ConcatPush(texts: seq<string>, text: string)
    ensures Concat(texts + [text]) == Concat(texts) + text
  {
    assert (texts + [text])[..|texts|] == texts;
  }

  /** One more event: what it adds to the result and to what the client has been sent. */
  lemma ApplyPush(r: StreamResult, events: seq<Event>, e: Event)
    ensures ApplyAll(r, events + [e]) == ApplyEvent(ApplyAll(r, events), e)
    ensures var text := NewText(ApplyAll(r, events), e);
            Emitted(r, events + [e]) == Emitted(r, events) + (if text != "" then [text] else [])
  {
    hide NewText, ApplyEvent;
    assert (events + [e])[..|events|] == events;
  }

  lemma {:induction false} EmittedIsContent(r: StreamResult, events: seq<Event>)
    ensures ApplyAll(r, events).content == r.content + Concat(Emitted(r, events))
  {
    hide Concat, ApplyAll, Emitted;
    if events == [] {
      EmittedNothing(r);
    } else {
      var init, e := events[..|events| - 1], events[|events| - 1];
      assert events == init + [e];
      EmittedIsContent(r, init);
      ApplyPush(r, init, e);
      var text, sent := NewText(ApplyAll(r, init), e), Emitted(r, init);
      ConcatPush(sent, text);
      assert r.content + (Concat(sent) + text) == (r.content + Concat(sent)) + text;
      assert sent + [] == sent;
    }
  }

  lemma EmittedNothing(r: StreamResult)
    ensures ApplyAll(r, []).content == r.content + Concat(Emitted(r, []))
  {
    assert r.content + "" == r.content;
  }

  lemma DecodedPush(objects: seq<Bytes>, item: Bytes, decode: Bytes -> Option<Event>)
    ensures Decoded(objects + [item], decode)
         == Decoded(objects, decode) + (if decode(item).Some? then [decode(item).value] else [])
  {
    assert (objects + [item])[..|objects|] == objects;
  }

  /** Apply the events of one feed and send what is new. */
  method ApplyObjects(objects: seq<Bytes>, decode: Bytes -> Option<Event>, ghost taken: seq<Bytes>, ghost start: StreamResult,
                      sent0: seq<string>, result0: StreamResult)
    returns (sent: seq<string>, result: StreamResult)
    requires var events := Decoded(taken, decode);
             sent0 == Emitted(start, events) && result0 == ApplyAll(start, events)
    ensures var events := Decoded(taken + objects, decode);
            sent == Emitted(start, events) && result == ApplyAll(start, events)
  {
    hide Emitted, ApplyAll, Decoded;
    sent, result := sent0, result0;
    assert taken + objects[..0] == taken;
    for i := 0 to |objects|
      invariant var events := Decoded(taken + objects[..i], decode);
                sent == Emitted(start, events) && result == ApplyAll(start, events)
    {
      ghost var events := Decoded(taken + objects[..i], decode);
      assert taken + objects[..i + 1] == (taken + objects[..i]) + [objects[i]];
      DecodedPush(taken + objects[..i], objects[i], decode);
      assert events + [] == events && sent + [] == sent;
      var event := decode(objects[i]);
      if event.Some? {
        ApplyPush(start, events, event.value);
        var text := NewText(result, event.value);
        result := ApplyEvent(result, event.value);
        if text != "" {
          sent := sent + [text];
        }
      }
    }
    assert objects[..|objects|] == objects;
  }

  lemma FeedPush(chunks: seq<Bytes>, k: nat)
    requires k < |chunks|
    ensures FeedAll(chunks[..k + 1]) == Continue(FeedAll(chunks[..k]), chunks[k])
  {
    hide Continue;
    assert chunks[..k + 1][..k] == chunks[..k];
  }

  /** Streaming a response, chunk by chunk, as the client sees it. */
  method DrainStream(chunks: seq<Bytes>, decode: Bytes -> Option<Event>) returns (sent: seq<string>, result: StreamResult)
    ensures var events := Decoded(FeedAll(chunks).objects, decode);
            sent == Emitted(NOTHING, events) && result == ApplyAll(NOTHING, events)
  {
    hide Drain, Decoded, Emitted, ApplyAll, FeedAll;
    var parser := new Parser();
    sent, result := [], NOTHING;
    NothingYet(NOTHING, decode);
    assert chunks[..0] == [];
    for k := 0 to |chunks|
      invariant FeedAll(chunks[..k]).rest == parser.buffer
      invariant var events := Decoded(FeedAll(chunks[..k]).objects, decode);
                sent == Emitted(NOTHING, events) && result == ApplyAll(NOTHING, events)
    {
      FeedPush(chunks, k);
      var objects := parser.Feed(chunks[k]);
      sent, result := ApplyObjects(objects, decode, FeedAll(chunks[..k]).objects, NOTHING, sent, result);
    }
    assert chunks[..|chunks|] == chunks;
  }

  lemma NothingYet(r: StreamResult, decode: Bytes -> Option<Event>)
    ensures FeedAll([]) == Drained([], []) && Decoded([], decode) == []
    ensures Emitted(r, []) == [] && ApplyAll(r, []) == r
  {}

  // ------------------------------------------------------------------ where a stream may be cut

  /** The events that feeding these chunks in turn returns. */
  function Events(chunks: seq<Bytes>, decode: Bytes -> Option<Event>): seq<Event> { Decoded(FeedAll(chunks).objects, decode) }

  /** Not one object decodes. */
  ghost predicate AcceptsNothing(decode: Bytes -> Option<Event>) { forall o :: Complete(o) ==> decode(o).None? }

  lemma {:induction false} DecodesNothing(objects: seq<Bytes>, decode: Bytes -> Option<Event>)
    requires forall i :: 0 <= i < |objects| ==> decode(objects[i]).None?
    ensures Decoded(objects, decode) == []
  {
    if objects != [] { DecodesNothing(objects[..|objects| - 1], decode); }
  }

  lemma {:induction false} DecodedConcat(a: seq<Bytes>, b: seq<Bytes>, decode: Bytes -> Option<Event>)
    ensures Decoded(a + b, decode) == Decoded(a, decode) + Decoded(b, decode)
  {
    hide Decoded;
    if b == [] {
      DecodesNothing(b, decode);
      assert a + b == a && Decoded(a, decode) + [] == Decoded(a, decode);
    } else {
      var init, last := b[..|b| - 1], b[|b| - 1];
      DecodedConcat(a, init, decode);
      assert a + b == (a + init) + [last] && b == init + [last];
      DecodedPush(a + init, last, decode);
      DecodedPush(init, last, decode);
      var e := if decode(last).Some? then [decode(last).value] else [];
      assert Decoded(a, decode) + (Decoded(init, decode) + e) == (Decoded(a, decode) + Decoded(init, decode)) + e;
    }
  }

  lemma FedTwice(a: Bytes, b: Bytes)
    ensures FeedAll([a]) == Drain(a) && FeedAll([a, b]) == Continue(Drain(a), b)
  {
    hide Drain;
    assert [a][..0] == [] && [a, b][..1] == [a];
    assert [] + a == a && [] + Drain(a).objects == Drain(a).objects;
    assert FeedAll([a]) == Continue(Drained([], []), a);
  }

  lemma FedThrice(a: Bytes, b: Bytes, c: Bytes)
    ensures FeedAll([a, b, c]) == Continue(Continue(Drain(a), b), c)
  {
    hide Drain, Continue;
    assert [a, b, c][..2] == [a, b];
    FedTwice(a, b);
  }

  lemma {:induction false} FedAreComplete(chunks: seq<Bytes>, i: nat)
    requires i < |FeedAll(chunks).objects|
    ensures Complete(FeedAll(chunks).objects[i])
  {
    hide Drain, Complete;
    var before, last := FeedAll(chunks[..|chunks| - 1]), chunks[|chunks| - 1];
    if i < |before.objects| {
      FedAreComplete(chunks[..|chunks| - 1], i);
    } else {
      ObjectsAreBalanced(before.rest + last, i - |before.objects|);
    }
  }

  /** A shortest object that decodes. */
  lemma {:induction false} ShortestAccepted(o: Bytes, decode: Bytes -> Option<Event>) returns (m: Bytes)
    requires Complete(o) && decode(o).Some?
    ensures Complete(m) && decode(m).Some?
    ensures forall p :: Complete(p) && |p| < |m| ==> decode(p).None?
    decreases |o|
  {
    hide Complete;
    if p :| Complete(p) && |p| < |o| && decode(p).Some? {
      m := ShortestAccepted(p, decode);
    } else {
      m := o;
    }
  }

  /** After an oversized item a brace and the rest of an object make the difference: cut before them the object decodes,
      otherwise nothing does. */
  lemma CutShows(stream: Bytes, o: Bytes, decode: Bytes -> Option<Event>)
    requires !Kept(stream) && o != [] && Complete(o) && decode(o).Some?
    requires forall p :: Complete(p) && |p| < |o| ==> decode(p).None?
    ensures Events([stream, [OPEN], o[1..]], decode) == Events([stream + [OPEN], o[1..]], decode) + [decode(o).value]
  {
    hide Drain, Decoded, Kept, Complete;
    OversizedStays(stream);
    BraceIsBuffered();
    DrainsToItself(o);
    var objects, more := Drain(stream).objects, o[1..];
    CompleteOpens(o);
    assert [OPEN] + more == o && [] + [OPEN] == [OPEN] && [] + more == more && objects + [] == objects;
    FedTwice(stream + [OPEN], more);
    FedThrice(stream, [OPEN], more);
    forall i | 0 <= i < |Drain(more).objects| ensures decode(Drain(more).objects[i]).None? {
      ObjectsAreBalanced(more, i);
    }
    DecodesNothing(Drain(more).objects, decode);
    DecodedConcat(objects, Drain(more).objects, decode);
    DecodedPush(objects, o, decode);
    assert Decoded(objects, decode) + [] == Decoded(objects, decode);
  }

  lemma CompleteOpens(o: Bytes)
    requires Complete(o)
    ensures o != [] && o[0] == OPEN
  {}

  /** A stream may be cut at a point, whatever is fed after that, exactly when the item it is in the middle of there fits
      the limit. This holds of the objects taken out and what stays buffered, and of the events they decode to, unless
      nothing decodes at all. */
  lemma CutHarmlessExactly(stream: Bytes, decode: Bytes -> Option<Event>)
    ensures (forall more :: Drain(stream + more) == Continue(Drain(stream), more)) <==> Kept(stream)
    ensures (forall more, next :: Events([stream + more, next], decode) == Events([stream, more, next], decode))
            <==> Kept(stream) || AcceptsNothing(decode)
  {
    hide Drain, Decoded, Kept, Complete, Continue, FeedAll;
    if Kept(stream) {
      forall more ensures Drain(stream + more) == Continue(Drain(stream), more) { DrainSplits(stream, more); }
      forall more, next ensures Events([stream + more, next], decode) == Events([stream, more, next], decode) {
        FedTwice(stream + more, next);
        FedThrice(stream, more, next);
      }
    } else {
      CutChangesBuffer(stream);
      if AcceptsNothing(decode) {
        forall more, next ensures Events([stream + more, next], decode) == Events([stream, more, next], decode) {
          NoEvents([stream + more, next], decode);
          NoEvents([stream, more, next], decode);
        }
      } else {
        var any :| Complete(any) && decode(any).Some?;
        var o := ShortestAccepted(any, decode);
        CompleteOpens(o);
        CutShows(stream, o, decode);
        assert Events([stream + [OPEN], o[1..]], decode) != Events([stream, [OPEN], o[1..]], decode);
      }
    }
  }

  lemma NoEvents(chunks: seq<Bytes>, decode: Bytes -> Option<Event>)
    requires AcceptsNothing(decode)
    ensures Events(chunks, decode) == []
  {
    hide Decoded, FeedAll, Complete;
    forall i | 0 <= i < |FeedAll(chunks).objects| ensures decode(FeedAll(chunks).objects[i]).None? {
      FedAreComplete(chunks, i);
    }
    DecodesNothing(FeedAll(chunks).objects, decode);
  }

  lemma CutChangesBuffer(stream: Bytes)
    requires !Kept(stream)
    ensures Drain(stream + [OPEN]) != Continue(Drain(stream), [OPEN])
  {
    hide Drain, Kept;
    OversizedStays(stream);
    BraceIsBuffered();
    assert [] + [OPEN] == [OPEN];
  }

  /** An event cut where the part before the cut is over the limit, with no brace opened after the cut: fed at once it is
      returned, cut nothing is. */
  lemma OversizedEventIsLost(o: Bytes, k: nat, decode: Bytes -> Option<Event>)
    requires Complete(o) && 1_048_576 < k < |o| && decode(o).Some? && OPEN !in o[k..]
    ensures Events([o], decode) == [decode(o).value] && Events([o[..k], o[k..]], decode) == []
  {
    hide Drain, Decoded, Complete, Continue, FeedAll;
    OversizedObjectIsLost(o, k);
    FedTwice(o, []);
    FedTwice(o[..k], o[k..]);
    NoOpen(o[k..]);
    DrainGarbage(o[k..]);
    DecodesNothing([], decode);
    DecodedPush([], o, decode);
    assert [] + [o] == [o] && [] + [decode(o).value] == [decode(o).value];
  }

  /** What a non-streamed response is built from. */
  function WholeBody(body: Bytes, decode: Bytes -> Option<Event>): StreamResult {
    ApplyAll(NOTHING, Decoded(Drain(body).objects, decode))
  }

  /** Streamed text and usage are those of the whole body, however the bytes were cut. */
  lemma StreamedEqualsWhole(chunks: seq<Bytes>, decode: Bytes -> Option<Event>)
    requires KeptThroughout(chunks)
    ensures var events := Decoded(FeedAll(chunks).objects, decode);
            && ApplyAll(NOTHING, events) == WholeBody(Join(chunks), decode)
            && Concat(Emitted(NOTHING, events)) == WholeBody(Join(chunks), decode).content
  {
    ChunkingDoesNotMatter(chunks);
    var events := Decoded(FeedAll(chunks).objects, decode);
    EmittedIsContent(NOTHING, events);
    assert "" + Concat(Emitted(NOTHING, events)) == Concat(Emitted(NOTHING, events));
  }

  // ------------------------------------------------------------------ which responses the two readers accept

  /** The whole-body reader trims before it looks for text, the streaming reader does not. */
  predicate WholeAccepts(r: StreamResult) { !Blank(r.content) }

  predicate StreamAccepts(r: StreamResult) { r.content != "" }

  predicate AllEmpty(events: seq<Event>) { forall i :: 0 <= i < |events| ==> events[i].content == "" }

  predicate AllBlank(events: seq<Event>) { forall i :: 0 <= i < |events| ==> Blank(events[i].content) }

  lemma BlankConcat(a: string, b: string)
    ensures Blank(a + b) <==> Blank(a) && Blank(b)
  {
    hide IsSpace;
    assert forall i :: 0 <= i < |a| ==> a[i] == (a + b)[i];
    assert forall i :: 0 <= i < |b| ==> b[i] == (a + b)[|a| + i];
  }

  /** One more event: the content stays empty or blank exactly if the event's own text is. */
  lemma BlankPush(r: StreamResult, e: Event)
    requires r.lastContent == "" <==> r.content == ""
    requires Blank(r.content) ==> Blank(r.lastContent)
    ensures var next := ApplyEvent(r, e);
            && (next.content == "" <==> r.content == "" && e.content == "")
            && (Blank(next.content) <==> Blank(r.content) && Blank(e.content))
            && (next.lastContent == "" <==> next.content == "")
            && (Blank(next.content) ==> Blank(next.lastContent))
  {
    BlankConcat(r.content, NewText(r, e));
    hide Blank;
    if e.content == r.lastContent {
      assert r.content + "" == r.content;
      BlankNothing();
    }
  }

  lemma BlankNothing()
    ensures Blank("")
  {}

  lemma OneMoreText(events: seq<Event>, e: Event)
    ensures AllEmpty(events + [e]) <==> AllEmpty(events) && e.content == ""
    ensures AllBlank(events + [e]) <==> AllBlank(events) && Blank(e.content)
  {
    hide Blank;
    assert forall i :: 0 <= i < |events| ==> events[i] == (events + [e])[i];
    assert (events + [e])[|events|] == e;
  }

  /** The result's texts are empty, or blank, as the events' are. */
  predicate TextsMatch(r: StreamResult, events: seq<Event>) {
    && (r.content == "" <==> AllEmpty(events)) && (Blank(r.content) <==> AllBlank(events))
    && (r.lastContent == "" <==> r.content == "") && (Blank(r.content) ==> Blank(r.lastContent))
  }

  lemma NoTextYet()
    ensures ApplyAll(NOTHING, []) == NOTHING && TextsMatch(NOTHING, [])
  {}

  lemma PushText(r: StreamResult, events: seq<Event>, e: Event)
    requires TextsMatch(r, events)
    ensures TextsMatch(ApplyEvent(r, e), events + [e])
  {
    hide ApplyEvent, Blank, AllEmpty, AllBlank;
    BlankPush(r, e);
    OneMoreText(events, e);
  }

  /** Dropped repetitions do not matter: the content is empty, or blank, exactly if every event's text is. */
  lemma {:induction false} BlankExactly(events: seq<Event>)
    ensures var r := ApplyAll(NOTHING, events);
            (r.content == "" <==> AllEmpty(events)) && (Blank(r.content) <==> AllBlank(events))
    ensures TextsMatch(ApplyAll(NOTHING, events), events)
  {
    hide ApplyEvent, ApplyAll, Blank, AllEmpty, AllBlank;
    if events == [] {
      NoTextYet();
    } else {
      var init, last := events[..|events| - 1], events[|events| - 1];
      assert events == init + [last];
      BlankExactly(init);
      ApplyPush(NOTHING, init, last);
      PushText(ApplyAll(NOTHING, init), init, last);
    }
  }

  /** The two readers accept the same responses exactly if no event carries text or some event carries text that is
      not white space. */
  lemma AcceptanceAgreesExactly(chunks: seq<Bytes>, decode: Bytes -> Option<Event>)
    requires KeptThroughout(chunks)
    ensures var streamed := ApplyAll(NOTHING, Decoded(FeedAll(chunks).objects, decode));
            var whole := WholeBody(Join(chunks), decode);
            var events := Decoded(Drain(Join(chunks)).objects, decode);
            (StreamAccepts(streamed) <==> WholeAccepts(whole)) <==> AllEmpty(events) || !AllBlank(events)
  {
    hide ApplyAll, Decoded, Drain, FeedAll, Join, Emitted, AllEmpty, AllBlank, Blank;
    StreamedEqualsWhole(chunks, decode);
    var events := Decoded(Drain(Join(chunks)).objects, decode);
    BlankExactly(events);
    BlankNothing();
  }

  /** A response of one object whose text is a single space: streamed it is taken, read whole it is refused. */
  lemma SpaceIsStreamedOnly(body: Bytes, decode: Bytes -> Option<Event>)
    requires Complete(body) && decode(body) == Some(Event(" ", None))
    ensures StreamAccepts(ApplyAll(NOTHING, Events([body], decode))) && !WholeAccepts(WholeBody(body, decode))
  {
    hide Drain, FeedAll, Decoded, ApplyAll, Complete;
    DrainsToItself(body);
    FedTwice(body, []);
    OneSpace(body, decode);
    assert Blank(" ");
  }

  lemma OneSpace(body: Bytes, decode: Bytes -> Option<Event>)
    requires decode(body) == Some(Event(" ", None))
    ensures ApplyAll(NOTHING, Decoded([body], decode)).content == " "
  {
    var e := Event(" ", None);
    assert [body][..0] == [] && [e][..0] == [];
    assert Decoded([body], decode) == [] + [e] == [e];
    assert ApplyAll(NOTHING, [e]) == ApplyEvent(NOTHING, e);
    assert "" + " " == " ";
  }

  // ------------------------------------------------------------------ what the scanner and the reader mean

  /** The inside of a JSON string: no quote, and no backslash but before a byte it escapes. */
  predicate StringBody(body: Bytes) {
    || body == []
    || (body[0] as int != '"' as int && body[0] as int != '\\' as int && StringBody(body[1..]))
    || (|body| >= 2 && body[0] as int == '\\' as int && StringBody(body[2..]))
  }

  /** Nothing inside a string moves the scanner: after the closing quote it is where it was before the opening one. */
  lemma StringsAreSkipped(c: Cursor, quote: byte, body: Bytes)
    requires !c.inString && !c.escaped && quote as int == '"' as int && StringBody(body)
    ensures CursorAfter(c, [quote] + body + [quote]) == c
  {
    var inside := c.(inString := true);
    BodyStaysInside(inside, body);
    CursorConcat(c, [quote], body);
    CursorConcat(c, [quote] + body, [quote]);
    OneByte(c, quote);
    OneByte(inside, quote);
  }

  lemma OneByte(c: Cursor, b: byte)
    ensures CursorAfter(c, [b]) == Advance(c, b)
  {
    assert [b][..0] == [];
  }

  lemma {:induction false} BodyStaysInside(c: Cursor, body: Bytes)
    requires c.inString && !c.escaped && StringBody(body)
    ensures CursorAfter(c, body) == c
    decreases |body|
  {
    if body != [] {
      if body[0] as int == '\\' as int {
        var two := body[..2];
        assert body == two + body[2..] && two[..1] == [body[0]];
        BodyStaysInside(c, body[2..]);
        CursorConcat(c, two, body[2..]);
        OneByte(c, body[0]);
        assert CursorAfter(c, two) == Advance(Advance(c, body[0]), body[1]);
      } else {
        assert body == [body[0]] + body[1..];
        BodyStaysInside(c, body[1..]);
        CursorConcat(c, [body[0]], body[1..]);
        OneByte(c, body[0]);
      }
    }
  }

  lemma {:induction false} CursorConcat(c: Cursor, a: Bytes, b: Bytes)
    ensures CursorAfter(c, a + b) == CursorAfter(CursorAfter(c, a), b)
  {
    hide Advance;
    if b == [] {
      assert a + b == a;
    } else {
      assert (a + b)[..|a + b| - 1] == a + b[..|b| - 1];
      CursorConcat(c, a, b[..|b| - 1]);
    }
  }

  /** Outside strings only braces and quotes count. */
  lemma OutsideStrings(c: Cursor, b: byte)
    requires !c.inString && !c.escaped
    ensures Advance(c, b) == if b as int == '{' as int then c.(depth := c.depth + 1)
                             else if b as int == '}' as int then c.(depth := c.depth - 1)
                             else if b as int == '"' as int then c.(inString := true) else c
  {}

  /** The last text that is not empty, and the last usage given. */
  function LastText(events: seq<Event>): string {
    if events == [] then ""
    else var last := events[|events| - 1]; if last.content != "" then last.content else LastText(events[..|events| - 1])
  }

  function LastUsage(events: seq<Event>): Option<TokenUsage> {
    if events == [] then None
    else var last := events[|events| - 1]; if last.usage.Some? then last.usage else LastUsage(events[..|events| - 1])
  }

  /** The content is every text in turn that does not just repeat the text before it; the usage is the last one given. */
  lemma {:induction false} ContentMeans(events: seq<Event>, e: Event)
    ensures ApplyAll(NOTHING, []).content == "" && ApplyAll(NOTHING, events).lastContent == LastText(events)
    ensures ApplyAll(NOTHING, events).usage == LastUsage(events)
    ensures ApplyAll(NOTHING, events + [e]).content
         == ApplyAll(NOTHING, events).content + if e.content == LastText(events) then "" else e.content
  {
    if events != [] {
      var init, last := events[..|events| - 1], events[|events| - 1];
      ContentMeans(init, last);
      assert events == init + [last];
    }
    assert (events + [e])[..|events|] == events;
  }
}

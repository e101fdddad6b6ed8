/**
 A complete response replayed as a stream: a client of the translated frames sees exactly the
 response's text, JSON parts and tool calls.
 */
module ResponseStreams {
  import opened Common
  import opened EventStreams
  import opened StreamFidelity

  datatype Response = Response(parts: seq<Part>, calls: seq<ToolCall>, hasUsage: bool)

  function PartEvents(parts: seq<Part>): seq<RuntimeEvent> {
    seq(|parts|, i requires 0 <= i < |parts| => ContentDelta(Some(parts[i]), None, CallIndex(0)))
  }

  function CallEvents(calls: seq<ToolCall>): seq<RuntimeEvent> {
    seq(|calls|, i requires 0 <= i < |calls| => ContentDelta(None, Some(calls[i]), CallIndex(i)))
  }

  function Head(r: Response): seq<RuntimeEvent> {
    [MessageStarted] + if r.hasUsage then [UsageReported] else []
  }

  method StreamResponse(r: Response) returns (events: seq<RuntimeEvent>)
    ensures events == Head(r) + PartEvents(r.parts) + CallEvents(r.calls) + [MessageEnded]
  {
    events := [MessageStarted];
    if r.hasUsage {
      events := events + [UsageReported];
    }
    for i := 0 to |r.parts|
      invariant events == Head(r) + PartEvents(r.parts)[..i]
    {
      events := events + [ContentDelta(Some(r.parts[i]), None, CallIndex(0))];
    }
    assert PartEvents(r.parts)[..|r.parts|] == PartEvents(r.parts);
    for i := 0 to |r.calls|
      invariant events == Head(r) + PartEvents(r.parts) + CallEvents(r.calls)[..i]
    {
      events := events + [ContentDelta(None, Some(r.calls[i]), CallIndex(i))];
    }
    assert CallEvents(r.calls)[..|r.calls|] == CallEvents(r.calls);
    events := events + [MessageEnded];
  }

  // ----- what the response says -----

  /** The parts as blocks: neighbouring texts are one block. */
  function Grouped(parts: seq<Part>): (blocks: seq<Block>)
    ensures parts != [] ==> blocks != [] && (parts[|parts| - 1].TextPart? ==> blocks[|blocks| - 1].TextBlock?)
  {
    if parts == [] then []
    else
      var n := |parts| - 1;
      var front := Grouped(parts[..n]);
      match parts[n]
      case JsonPart(data) => front + [JsonBlock(data)]
      case TextPart(text) =>
        if n > 0 && parts[n - 1].TextPart?
        then front[|front| - 1 := TextBlock(front[|front| - 1].text + text)]
        else front + [TextBlock(text)]
  }

  function ToolBlocks(calls: seq<ToolCall>): seq<Block> {
    seq(|calls|, i requires 0 <= i < |calls| => ToolBlock(calls[i].id, calls[i].name, calls[i].arguments))
  }

  // ----- what the stream says -----

  lemma {:induction false} SeenAppend(events: seq<RuntimeEvent>, e: RuntimeEvent)
    ensures Seen(events + [e]) == See(Seen(events), e)
    ensures Chained(events + [e]) <==> Chained(events) && Extends(Seen(events), e)
  {
    assert (events + [e])[..|events|] == events;
  }

  function PartsView(parts: seq<Part>): View {
    View(Grouped(parts), if parts != [] && parts[|parts| - 1].TextPart? then Some(|Grouped(parts)| - 1) else None, map[])
  }

  lemma {:induction false} PartStep(parts: seq<Part>)
    requires parts != []
    ensures See(PartsView(parts[..|parts| - 1]), ContentDelta(Some(parts[|parts| - 1]), None, CallIndex(0))) == PartsView(parts)
  {
  }

  lemma {:induction false} PartEventsGrow(head: seq<RuntimeEvent>, parts: seq<Part>)
    requires parts != []
    ensures head + PartEvents(parts) == head + PartEvents(parts[..|parts| - 1]) + [ContentDelta(Some(parts[|parts| - 1]), None, CallIndex(0))]
  {
  }

  lemma {:induction false} AfterParts(head: seq<RuntimeEvent>, parts: seq<Part>)
    requires Seen(head) == EMPTY_VIEW && Chained(head)
    ensures Seen(head + PartEvents(parts)) == PartsView(parts) && Chained(head + PartEvents(parts))
  {
    if parts == [] {
      assert head + PartEvents(parts) == head;
    } else {
      var n := |parts| - 1;
      AfterParts(head, parts[..n]);
      PartEventsGrow(head, parts);
      PartStep(parts);
      SeenAppend(head + PartEvents(parts[..n]), ContentDelta(Some(parts[n]), None, CallIndex(0)));
    }
  }

  /** The calls seen so far are blocks after `blocks`, under indexes below `n`. */
  ghost predicate CallsSeen(v: View, blocks: seq<Block>, calls: seq<ToolCall>) {
    v.blocks == blocks + ToolBlocks(calls) && forall k | k in v.tools :: 0 <= k.n < |calls|
  }

  lemma {:induction false} CallStep(v: View, blocks: seq<Block>, calls: seq<ToolCall>)
    requires ValidView(v) && calls != [] && CallsSeen(v, blocks, calls[..|calls| - 1])
    ensures var e := ContentDelta(None, Some(calls[|calls| - 1]), CallIndex(|calls| - 1));
            CallsSeen(See(v, e), blocks, calls) && Extends(v, e)
  {
    var n := |calls| - 1;
    assert CallIndex(n) !in v.tools;
    assert blocks + ToolBlocks(calls) == blocks + ToolBlocks(calls[..n]) + [ToolBlock(calls[n].id, calls[n].name, calls[n].arguments)];
  }

  lemma {:induction false} CallEventsGrow(front: seq<RuntimeEvent>, calls: seq<ToolCall>)
    requires calls != []
    ensures front + CallEvents(calls) ==
            front + CallEvents(calls[..|calls| - 1]) + [ContentDelta(None, Some(calls[|calls| - 1]), CallIndex(|calls| - 1))]
  {
  }

  lemma {:induction false} AfterCalls(front: seq<RuntimeEvent>, calls: seq<ToolCall>)
    requires Seen(front).tools == map[] && Chained(front)
    ensures CallsSeen(Seen(front + CallEvents(calls)), Seen(front).blocks, calls) && Chained(front + CallEvents(calls))
  {
    if calls == [] {
      assert front + CallEvents(calls) == front;
      assert Seen(front).blocks + [] == Seen(front).blocks;
    } else {
      var n := |calls| - 1;
      AfterCalls(front, calls[..n]);
      CallEventsGrow(front, calls);
      var before := front + CallEvents(calls[..n]);
      CallStep(Seen(before), Seen(front).blocks, calls);
      SeenAppend(before, ContentDelta(None, Some(calls[n]), CallIndex(n)));
    }
  }

  lemma {:induction false} HeadSaysNothing(r: Response)
    ensures Seen(Head(r)) == EMPTY_VIEW && Chained(Head(r))
  {
    SeenAppend([], MessageStarted);
    assert [] + [MessageStarted] == [MessageStarted];
    if r.hasUsage {
      SeenAppend([MessageStarted], UsageReported);
    } else {
      assert Head(r) == [MessageStarted];
    }
  }

  /** Main result: streaming a response, translating it and reading the frames gives back its texts,
      its JSON parts and its tool calls with their arguments, in order. */
  lemma {:induction false} ResponsesSurviveStreaming(r: Response, events: seq<RuntimeEvent>, orders: seq<seq<CallIndex>>)
    requires events == Head(r) + PartEvents(r.parts) + CallEvents(r.calls) + [MessageEnded]
    requires |orders| == |events| && ValidOrders(events, orders)
    ensures var read := ReadAll(NEW_CLIENT, Encode(UNSTARTED, Translate(events, orders).1).1);
            read.Some? && read.value.open == {} && read.value.blocks == Grouped(r.parts) + ToolBlocks(r.calls)
  {
    ResponseIsSeen(r, events);
    FramesShowTheStream(events, orders);
  }

  lemma {:induction false} ResponseIsSeen(r: Response, events: seq<RuntimeEvent>)
    requires events == Head(r) + PartEvents(r.parts) + CallEvents(r.calls) + [MessageEnded]
    ensures Seen(events).blocks == Grouped(r.parts) + ToolBlocks(r.calls) && Chained(events)
  {
    HeadSaysNothing(r);
    AfterParts(Head(r), r.parts);
    AfterCalls(Head(r) + PartEvents(r.parts), r.calls);
    SeenAppend(Head(r) + PartEvents(r.parts) + CallEvents(r.calls), MessageEnded);
  }

  /** The whole way of a response: streamed, translated, encoded. The client reads the response. */
  method StreamToClient(r: Response) returns (frames: seq<Frame>)
    ensures var read := ReadAll(NEW_CLIENT, frames);
            read.Some? && read.value.open == {} && read.value.blocks == Grouped(r.parts) + ToolBlocks(r.calls)
  {
    var runtime := StreamResponse(r);
    var events := EventStreamFromRuntime(runtime);
    ghost var orders :| |orders| == |runtime| && ValidOrders(runtime, orders) && events == Translate(runtime, orders).1;
    frames := FramesFromEventStream(events);
    ResponsesSurviveStreaming(r, runtime, orders);
  }

  /** A snapshot that does not extend the one before it: the client reads other arguments. */
  lemma {:induction false} ARewrittenSnapshotMisleads(events: seq<RuntimeEvent>, orders: seq<seq<CallIndex>>)
    requires var k := CallIndex(0);
             events == [ContentDelta(None, Some(ToolCall("t", "f", "ab")), k), ContentDelta(None, Some(ToolCall("t", "f", "cd")), k), MessageEnded]
    requires |orders| == 3 && ValidOrders(events, orders)
    ensures Seen(events).blocks == [ToolBlock("t", "f", "cd")]
    ensures var read := ReadAll(NEW_CLIENT, Encode(UNSTARTED, Translate(events, orders).1).1);
            read.Some? && read.value.blocks != [ToolBlock("t", "f", "cd")]
  {
    var first, second := events[0], events[1];
    assert [] + [first] == [first] && [first] + [second] == [first, second] && [first, second] + [MessageEnded] == events;
    SeenAppend([], first);
    SeenAppend([first], second);
    SeenAppend([first, second], MessageEnded);
    assert Seen([first]).blocks == [ToolBlock("t", "f", "ab")];
    assert !Extends(Seen([first]), second) by { assert "ab"[0] != "cd"[0]; }
    FramesShowTheStream(events, orders);
  }
}

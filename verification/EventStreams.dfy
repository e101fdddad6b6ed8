/**
 Streaming translation: a provider's runtime events become block events, and those become
 the frames of the Anthropic messages protocol. This module states both translations, a client
 that reads the frames, and the reference: what a runtime stream says without any translation.

 Envelope fields (message ID, model, role, usage numbers, stop reason) are not modelled.
 */
module EventStreams {
  import opened Common

  datatype Part = TextPart(text: string) | JsonPart(data: string)

  datatype ToolCall = ToolCall(id: string, name: string, arguments: string)

  /** Which of the parallel tool calls of a message an event belongs to. */
  datatype CallIndex = CallIndex(n: int)

  datatype RuntimeEvent =
    | MessageStarted
    | ContentDelta(part: Option<Part>, call: Option<ToolCall>, callIndex: CallIndex)
    | UsageReported
    | MessageEnded
    | Failed(message: string)

  datatype Block = TextBlock(text: string) | JsonBlock(data: string) | ToolBlock(id: string, name: string, arguments: string)

  datatype Event =
    | MessageStart
    | BlockStart(index: nat, block: Block)
    | BlockDelta(index: nat, block: Block)
    | BlockStop(index: nat)
    | Usage
    | MessageDelta
    | MessageStop
    | StreamError(message: string)

  datatype Frame =
    | MessageStartFrame
    | BlockStartFrame(index: nat, block: Block)
    | TextDeltaFrame(index: nat, text: string)
    | ArgumentsDeltaFrame(index: nat, partialJson: string)
    | BlockStopFrame(index: nat)
    | MessageDeltaFrame
    | MessageStopFrame
    | ErrorFrame(message: string)

  // ----- reference: what a runtime stream says -----

  /** The blocks so far, the text block still open, and the block of each running tool call. */
  datatype View = View(blocks: seq<Block>, text: Option<nat>, tools: map<CallIndex, nat>)

  const EMPTY_VIEW := View([], None, map[])

  predicate ValidView(v: View) {
    && (v.text.Some? ==> v.text.value < |v.blocks| && v.blocks[v.text.value].TextBlock?)
    && (forall k | k in v.tools :: v.tools[k] < |v.blocks| && v.blocks[v.tools[k]].ToolBlock?)
    && (forall j, k | j in v.tools && k in v.tools && v.tools[j] == v.tools[k] :: j == k)
  }

  function SeePart(v: View, part: Part): (r: View)
    requires ValidView(v)
    ensures ValidView(r)
  {
    match part
    case JsonPart(data) => View(v.blocks + [JsonBlock(data)], None, v.tools)
    case TextPart(text) =>
      if v.text.None? then View(v.blocks + [TextBlock(text)], Some(|v.blocks|), v.tools)
      else v.(blocks := v.blocks[v.text.value := TextBlock(v.blocks[v.text.value].text + text)])
  }

  /** A tool call carries a snapshot of its arguments; an empty one says nothing new. */
  function SeeCall(v: View, k: CallIndex, call: ToolCall): (r: View)
    requires ValidView(v)
    ensures ValidView(r)
  {
    if k !in v.tools then
      View(v.blocks + [ToolBlock(call.id, call.name, call.arguments)], None, v.tools[k := |v.blocks|])
    else if call.arguments == "" then v.(text := None)
    else v.(text := None, blocks := v.blocks[v.tools[k] := v.blocks[v.tools[k]].(arguments := call.arguments)])
  }

  function See(v: View, e: RuntimeEvent): (r: View)
    requires ValidView(v)
    ensures ValidView(r)
  {
    match e
    case ContentDelta(part, call, k) =>
      var seen := if part.Some? then SeePart(v, part.value) else v;
      if call.Some? then SeeCall(seen, k, call.value) else seen
    case MessageEnded => View(v.blocks, None, map[])
    case _ => v
  }

  function Seen(events: seq<RuntimeEvent>): (v: View)
    ensures ValidView(v)
  {
    if events == [] then EMPTY_VIEW else See(Seen(events[..|events| - 1]), events[|events| - 1])
  }

  /** Each argument snapshot extends the one before it. */
  predicate Extends(v: View, e: RuntimeEvent)
    requires ValidView(v)
  {
    e.ContentDelta? && e.call.Some? && e.call.value.arguments != "" && e.callIndex in v.tools ==>
      v.blocks[v.tools[e.callIndex]].arguments <= e.call.value.arguments
  }

  predicate Chained(events: seq<RuntimeEvent>) {
    events != [] ==>
      Chained(events[..|events| - 1]) && Extends(Seen(events[..|events| - 1]), events[|events| - 1])
  }

  // ----- runtime events to block events -----

  /** The translator's variables: the open text block (or -1), the next index, the tool blocks. */
  datatype Translator = Translator(text: int, next: nat, tools: map<CallIndex, nat>)

  function CloseText(t: Translator): seq<Event> {
    if t.text < 0 then [] else [BlockStop(t.text)]
  }

  function TranslatePart(t: Translator, part: Part): (Translator, seq<Event>) {
    match part
    case JsonPart(data) =>
      (Translator(-1, t.next + 1, t.tools),
       CloseText(t) + [BlockStart(t.next, JsonBlock(data)), BlockDelta(t.next, JsonBlock(data)), BlockStop(t.next)])
    case TextPart(text) =>
      if t.text < 0 then
        (Translator(t.next, t.next + 1, t.tools), [BlockStart(t.next, TextBlock("")), BlockDelta(t.next, TextBlock(text))])
      else (t, [BlockDelta(t.text, TextBlock(text))])
  }

  function TranslateCall(t: Translator, k: CallIndex, call: ToolCall): (Translator, seq<Event>) {
    if k in t.tools then
      (t.(text := -1), CloseText(t) + [BlockDelta(t.tools[k], ToolBlock(call.id, call.name, call.arguments))])
    else
      (Translator(-1, t.next + 1, t.tools[k := t.next]),
       CloseText(t) + [BlockStart(t.next, ToolBlock(call.id, call.name, "")),
                       BlockDelta(t.next, ToolBlock(call.id, call.name, call.arguments))])
  }

  function Stops(order: seq<CallIndex>, tools: map<CallIndex, nat>): seq<Event> {
    if order == [] then []
    else (if order[0] in tools then [BlockStop(tools[order[0]])] else []) + Stops(order[1..], tools)
  }

  /** The tool blocks are closed in some order of the calls: the source ranges over a map. */
  ghost predicate IsOrder(order: seq<CallIndex>, tools: map<CallIndex, nat>) {
    && (forall i, j | 0 <= i < j < |order| :: order[i] != order[j])
    && (forall k :: k in order <==> k in tools)
  }

  function TranslateOne(t: Translator, e: RuntimeEvent, order: seq<CallIndex>): (Translator, seq<Event>) {
    match e
    case MessageStarted => (t, [MessageStart])
    case UsageReported => (t, [Usage])
    case Failed(message) => (t, [StreamError(message)])
    case MessageEnded => (Translator(-1, t.next, map[]), CloseText(t) + Stops(order, t.tools) + [MessageDelta, MessageStop])
    case ContentDelta(part, call, k) =>
      var (t1, out1) := if part.Some? then TranslatePart(t, part.value) else (t, []);
      var (t2, out2) := if call.Some? then TranslateCall(t1, k, call.value) else (t1, []);
      (t2, out1 + out2)
  }

  const FRESH := Translator(-1, 0, map[])

  /** The translation of a whole stream, with the closing order used at each event. */
  function Translate(events: seq<RuntimeEvent>, orders: seq<seq<CallIndex>>): (Translator, seq<Event>)
    requires |orders| == |events|
  {
    if events == [] then (FRESH, [])
    else
      var n := |events| - 1;
      var (t, out) := Translate(events[..n], orders[..n]);
      var (t', more) := TranslateOne(t, events[n], orders[n]);
      (t', out + more)
  }

  ghost predicate ValidOrders(events: seq<RuntimeEvent>, orders: seq<seq<CallIndex>>)
    requires |orders| == |events|
  {
    forall i | 0 <= i < |events| && events[i].MessageEnded? :: IsOrder(orders[i], Translate(events[..i], orders[..i]).0.tools)
  }

  /** Tool blocks have distinct indexes, all handed out already. */
  predicate Distinct(t: Translator) {
    && t.text >= -1
    && (forall k | k in t.tools :: t.tools[k] < t.next)
    && (forall j, k | j in t.tools && k in t.tools && t.tools[j] == t.tools[k] :: j == k)
  }

  method EmitPart(before: Translator, part: Part) returns (t: Translator, out: seq<Event>)
    requires Distinct(before)
    ensures (t, out) == TranslatePart(before, part) && Distinct(t)
  {
    var text, next := before.text, before.next;
    out := [];
    match part {
      case JsonPart(data) =>
        if text != -1 {
          out := out + [BlockStop(text)];
          text := -1;
        }
        out := out + [BlockStart(next, JsonBlock(data)), BlockDelta(next, JsonBlock(data)), BlockStop(next)];
        next := next + 1;
      case TextPart(piece) =>
        if text == -1 {
          text := next;
          next := next + 1;
          out := out + [BlockStart(text, TextBlock(""))];
        }
        out := out + [BlockDelta(text, TextBlock(piece))];
    }
    t := Translator(text, next, before.tools);
    assert out == TranslatePart(before, part).1;
  }

  method EmitCall(before: Translator, k: CallIndex, call: ToolCall) returns (t: Translator, out: seq<Event>)
    requires Distinct(before)
    ensures (t, out) == TranslateCall(before, k, call) && Distinct(t)
  {
    var next, tools := before.next, before.tools;
    out := [];
    if before.text != -1 {
      out := out + [BlockStop(before.text)];
    }
    var index;
    if k in tools {
      index := tools[k];
    } else {
      index := next;
      next := next + 1;
      tools := tools[k := index];
      out := out + [BlockStart(index, ToolBlock(call.id, call.name, ""))];
    }
    out := out + [BlockDelta(index, ToolBlock(call.id, call.name, call.arguments))];
    t := Translator(-1, next, tools);
    assert out == TranslateCall(before, k, call).1;
  }

  method EmitContent(before: Translator, part: Option<Part>, call: Option<ToolCall>, k: CallIndex) returns (t: Translator, out: seq<Event>)
    requires Distinct(before)
    ensures (t, out) == TranslateOne(before, ContentDelta(part, call, k), []) && Distinct(t)
  {
    t, out := before, [];
    if part.Some? {
      t, out := EmitPart(t, part.value);
    }
    var more := [];
    if call.Some? {
      t, more := EmitCall(t, k, call.value);
    }
    out := out + more;
  }

  /** The source's loop, emitting events as it goes. */
  method EventStreamFromRuntime(events: seq<RuntimeEvent>) returns (out: seq<Event>)
    ensures exists orders ::
              |orders| == |events| && ValidOrders(events, orders) && out == Translate(events, orders).1
  {
    out := [];
    ghost var orders: seq<seq<CallIndex>> := [];
    var t := FRESH;
    for i := 0 to |events|
      invariant |orders| == i && Distinct(t)
      invariant (t, out) == Translate(events[..i], orders)
      invariant forall j | 0 <= j < i && events[j].MessageEnded? :: IsOrder(orders[j], Translate(events[..j], orders[..j]).0.tools)
    {
      ghost var order, before := [], t;
      var more := [];
      match events[i] {
        case MessageStarted => more := [MessageStart];
        case UsageReported => more := [Usage];
        case Failed(message) => more := [StreamError(message)];
        case MessageEnded =>
          var stops := StopTools(t.tools);
          order :| IsOrder(order, t.tools) && stops == Stops(order, t.tools);
          more := CloseText(t) + stops + [MessageDelta, MessageStop];
          t := Translator(-1, t.next, map[]);
        case ContentDelta(part, call, k) =>
          t, more := EmitContent(t, part, call, k);
      }
      TranslateStep(events, orders, i, order);
      out := out + more;
      orders := orders + [order];
    }
    assert events[..|events|] == events;
    assert ValidOrders(events, orders);
  }

  lemma {:induction false} TranslateStep(events: seq<RuntimeEvent>, orders: seq<seq<CallIndex>>, i: nat, order: seq<CallIndex>)
    requires i < |events| && |orders| == i
    ensures var (t, out) := Translate(events[..i], orders);
            var (t', more) := TranslateOne(t, events[i], order);
            Translate(events[..i + 1], orders + [order]) == (t', out + more)
    ensures forall j | 0 <= j <= i :: (orders + [order])[..j] == orders[..j]
  {
    assert events[..i + 1][..i] == events[..i];
    assert (orders + [order])[..i] == orders;
  }

  method StopTools(tools: map<CallIndex, nat>) returns (stops: seq<Event>)
    ensures exists order :: IsOrder(order, tools) && stops == Stops(order, tools)
  {
    stops := [];
    ghost var order: seq<CallIndex> := [];
    var left: set<CallIndex> := tools.Keys;
    while left != {}
      invariant left <= tools.Keys
      invariant forall i, j | 0 <= i < j < |order| :: order[i] != order[j]
      invariant forall k :: k in order <==> k in tools.Keys - left
      invariant stops == Stops(order, tools)
      decreases |left|
    {
      var k: CallIndex :| k in left;
      StopsAppend(order, k, tools);
      assert k !in order && forall i | 0 <= i < |order| :: order[i] in order;
      stops := stops + [BlockStop(tools[k])];
      order := order + [k];
      left := left - {k};
    }
    assert IsOrder(order, tools);
  }

  lemma {:induction false} StopsAppend(order: seq<CallIndex>, k: CallIndex, tools: map<CallIndex, nat>)
    requires k in tools
    ensures Stops(order + [k], tools) == Stops(order, tools) + [BlockStop(tools[k])]
  {
    if order == [] {
      assert (order + [k])[1..] == [];
    } else {
      assert (order + [k])[1..] == order[1..] + [k];
      StopsAppend(order[1..], k, tools);
    }
  }

  // ----- block events to frames -----

  /** The encoder's variables: message_start sent, and the last arguments seen of each open tool block. */
  datatype Encoder = Encoder(started: bool, snapshots: map<nat, string>)

  function TrimPrefix(s: string, prefix: string): string {
    if prefix <= s then s[|prefix|..] else s
  }

  function EncodeOne(e: Encoder, event: Event): (Encoder, seq<Frame>) {
    var start := if e.started then [] else [MessageStartFrame];
    var s := e.(started := true);
    match event
    case MessageStart => (e, [])
    case BlockStart(i, block) =>
      (if block.ToolBlock? then s.(snapshots := s.snapshots[i := ""]) else s, start + [BlockStartFrame(i, block)])
    case BlockDelta(i, TextBlock(text)) => (s, start + [TextDeltaFrame(i, text)])
    case BlockDelta(i, ToolBlock(_, _, arguments)) =>
      if arguments == "" then (s, start)
      else
        var previous := if i in s.snapshots then s.snapshots[i] else "";
        var partialJson := TrimPrefix(arguments, previous);
        (s.(snapshots := s.snapshots[i := arguments]),
         if partialJson == "" then start else start + [ArgumentsDeltaFrame(i, partialJson)])
    case BlockDelta(i, JsonBlock(_)) => (s, start)
    case BlockStop(i) => (s.(snapshots := s.snapshots - {i}), start + [BlockStopFrame(i)])
    case Usage => (s, start)
    case MessageDelta => (s, start + [MessageDeltaFrame])
    case MessageStop => (s, start + [MessageStopFrame])
    case StreamError(message) => (s, start + [ErrorFrame(message)])
  }

  const UNSTARTED := Encoder(false, map[])

  function Encode(e: Encoder, events: seq<Event>): (Encoder, seq<Frame>)
    decreases |events|
  {
    if events == [] then (e, [])
    else
      var (e1, frames1) := EncodeOne(e, events[0]);
      var (e2, frames2) := Encode(e1, events[1..]);
      (e2, frames1 + frames2)
  }

  /** The encoder's loop. */
  method FramesFromEventStream(events: seq<Event>) returns (frames: seq<Frame>)
    ensures frames == Encode(UNSTARTED, events).1
  {
    frames := [];
    var started, snapshots: map<nat, string> := false, map[];
    assert events[0..] == events && [] + Encode(UNSTARTED, events).1 == Encode(UNSTARTED, events).1;
    for i := 0 to |events|
      invariant var (e, rest) := Encode(Encoder(started, snapshots), events[i..]);
                Encode(UNSTARTED, events) == (e, frames + rest)
    {
      var event := events[i];
      ghost var before := Encoder(started, snapshots);
      var more := [];
      if !event.MessageStart? && !started {
        started := true;
        more := [MessageStartFrame];
      }
      match event {
        case MessageStart =>
        case BlockStart(index, block) =>
          if block.ToolBlock? {
            snapshots := snapshots[index := ""];
          }
          more := more + [BlockStartFrame(index, block)];
        case BlockDelta(index, block) =>
          match block {
            case TextBlock(text) => more := more + [TextDeltaFrame(index, text)];
            case JsonBlock(_) =>
            case ToolBlock(_, _, arguments) =>
              if arguments != "" {
                var previous := if index in snapshots then snapshots[index] else "";
                var partialJson := TrimPrefix(arguments, previous);
                snapshots := snapshots[index := arguments];
                if partialJson != "" {
                  more := more + [ArgumentsDeltaFrame(index, partialJson)];
                }
              }
          }
        case BlockStop(index) =>
          snapshots := snapshots - {index};
          more := more + [BlockStopFrame(index)];
        case Usage =>
        case MessageDelta => more := more + [MessageDeltaFrame];
        case MessageStop => more := more + [MessageStopFrame];
        case StreamError(message) => more := more + [ErrorFrame(message)];
      }
      assert (Encoder(started, snapshots), more) == EncodeOne(before, event);
      EncodeStep(before, events, i, frames, more);
      frames := frames + more;
    }
  }

  lemma {:induction false} EncodeStep(e: Encoder, events: seq<Event>, i: nat, frames: seq<Frame>, more: seq<Frame>)
    requires i < |events| && more == EncodeOne(e, events[i]).1
    ensures Encode(e, events[i..]).0 == Encode(EncodeOne(e, events[i]).0, events[i + 1..]).0
    ensures frames + Encode(e, events[i..]).1 == (frames + more) + Encode(EncodeOne(e, events[i]).0, events[i + 1..]).1
  {
    assert events[i..][1..] == events[i + 1..];
  }

  // ----- a client that reads frames -----

  datatype Client = Client(started: bool, blocks: seq<Block>, open: set<nat>)

  const NEW_CLIENT := Client(false, [], {})

  /** A strict reader: `None` is a protocol error. Blocks are numbered in opening order, written
      only while open, closed once, and all closed when the message ends. */
  function Read(c: Client, f: Frame): Option<Client> {
    if f.MessageStartFrame? then
      if c.started then None else Some(c.(started := true))
    else if !c.started then None
    else match f
      case BlockStartFrame(i, block) =>
        if i != |c.blocks| then None
        else Some(c.(blocks := c.blocks + [Opened(block)], open := c.open + {i}))
      case TextDeltaFrame(i, text) =>
        if i !in c.open || i >= |c.blocks| || !c.blocks[i].TextBlock? then None
        else Some(c.(blocks := c.blocks[i := TextBlock(c.blocks[i].text + text)]))
      case ArgumentsDeltaFrame(i, partialJson) =>
        if i !in c.open || i >= |c.blocks| || !c.blocks[i].ToolBlock? then None
        else Some(c.(blocks := c.blocks[i := c.blocks[i].(arguments := c.blocks[i].arguments + partialJson)]))
      case BlockStopFrame(i) => if i in c.open then Some(c.(open := c.open - {i})) else None
      case MessageDeltaFrame => if c.open == {} then Some(c) else None
      case MessageStopFrame => if c.open == {} then Some(c) else None
      case ErrorFrame(_) => Some(c)
  }

  /** What a start frame shows of a block: text and arguments come later. */
  function Opened(block: Block): Block {
    match block
    case TextBlock(_) => TextBlock("")
    case JsonBlock(data) => JsonBlock(data)
    case ToolBlock(id, name, _) => ToolBlock(id, name, "")
  }

  function ReadAll(c: Client, frames: seq<Frame>): Option<Client>
    decreases |frames|
  {
    if frames == [] then Some(c)
    else
      var next := Read(c, frames[0]);
      if next.None? then None else ReadAll(next.value, frames[1..])
  }
}

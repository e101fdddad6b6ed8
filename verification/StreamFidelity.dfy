/**
 Translation keeps structure and content: a strict client reading the frames of a translated
 stream sees the blocks the runtime stream describes.
 */
module StreamFidelity {
  import opened Common
  import opened EventStreams

  // ----- encoder and client as one -----

  datatype Wire = Wire(e: Encoder, c: Client)

  /** Encodes one event and lets the client read the frames. */
  function Feed(w: Wire, event: Event): Option<Wire> {
    var (e, frames) := EncodeOne(w.e, event);
    var c := ReadAll(w.c, frames);
    if c.None? then None else Some(Wire(e, c.value))
  }

  function FeedAll(w: Wire, events: seq<Event>): Option<Wire>
    decreases |events|
  {
    if events == [] then Some(w)
    else
      var next := Feed(w, events[0]);
      if next.None? then None else FeedAll(next.value, events[1..])
  }

  lemma {:induction false} ReadAllAppend(c: Client, a: seq<Frame>, b: seq<Frame>)
    ensures ReadAll(c, a + b) == if ReadAll(c, a).None? then None else ReadAll(ReadAll(c, a).value, b)
    decreases |a|
  {
    if a == [] {
      assert a + b == b;
    } else {
      assert (a + b)[1..] == a[1..] + b;
      if Read(c, a[0]).Some? {
        ReadAllAppend(Read(c, a[0]).value, a[1..], b);
      }
    }
  }

  lemma {:induction false} FeedAllIsThePipeline(w: Wire, events: seq<Event>)
    ensures FeedAll(w, events).Some? <==> ReadAll(w.c, Encode(w.e, events).1).Some?
    ensures FeedAll(w, events).Some? ==> FeedAll(w, events).value.c == ReadAll(w.c, Encode(w.e, events).1).value
    decreases |events|
  {
    if events != [] {
      var (e1, frames1) := EncodeOne(w.e, events[0]);
      var (e2, frames2) := Encode(e1, events[1..]);
      ReadAllAppend(w.c, frames1, frames2);
      if Feed(w, events[0]).Some? {
        FeedAllIsThePipeline(Feed(w, events[0]).value, events[1..]);
      }
    }
  }

  lemma {:induction false} FeedAllAppend(w: Wire, a: seq<Event>, b: seq<Event>)
    requires FeedAll(w, a).Some?
    ensures FeedAll(w, a + b) == FeedAll(FeedAll(w, a).value, b)
    decreases |a|
  {
    if a == [] {
      assert a + b == b;
    } else {
      assert (a + b)[1..] == a[1..] + b;
      FeedAllAppend(Feed(w, a[0]).value, a[1..], b);
    }
  }

  lemma {:induction false} FeedOne(w: Wire, event: Event)
    ensures FeedAll(w, [event]) == Feed(w, event)
  {
    assert [event][1..] == [];
  }

  /** Encoder and client agree on whether the message has started. */
  predicate InStep(w: Wire) {
    w.e.started == w.c.started
  }

  function Started(c: Client): Client {
    c.(started := true)
  }

  /** An event that yields one frame besides the start of the message. */
  lemma {:induction false} FeedFrame(w: Wire, event: Event, f: Frame)
    requires InStep(w) && !f.MessageStartFrame?
    requires EncodeOne(w.e, event).1 == (if w.e.started then [] else [MessageStartFrame]) + [f]
    ensures ReadAll(w.c, EncodeOne(w.e, event).1) == Read(Started(w.c), f)
  {
    var frames := EncodeOne(w.e, event).1;
    ReadOne(Started(w.c), f);
    if w.e.started {
      assert frames == [f];
      assert w.c == Started(w.c);
    } else {
      assert frames == [MessageStartFrame, f] && frames[1..] == [f];
    }
  }

  lemma {:induction false} ReadOne(c: Client, f: Frame)
    ensures ReadAll(c, [f]) == Read(c, f)
  {
    assert [f][1..] == [];
  }

  lemma {:induction false} FeedSilent(w: Wire, event: Event)
    requires InStep(w)
    requires EncodeOne(w.e, event).1 == if w.e.started then [] else [MessageStartFrame]
    ensures ReadAll(w.c, EncodeOne(w.e, event).1) == Some(Started(w.c))
  {
    var frames := EncodeOne(w.e, event).1;
    if !w.e.started {
      assert frames[1..] == [];
    }
  }

  // ----- the relation between the reference, the translator and the wire -----

  function TranslatorOf(v: View): Translator {
    Translator(if v.text.None? then -1 else v.text.value, |v.blocks|, v.tools)
  }

  function OpenOf(v: View): set<nat> {
    (if v.text.Some? then {v.text.value} else {}) + v.tools.Values
  }

  /** The client's block shows the reference block; streamed arguments may only be too long. */
  predicate Shows(shown: Block, block: Block) {
    match block
    case ToolBlock(id, name, arguments) =>
      shown.ToolBlock? && shown.id == id && shown.name == name && |shown.arguments| >= |arguments|
    case _ => shown == block
  }

  predicate TooLong(shown: Block, block: Block) {
    shown.ToolBlock? && block.ToolBlock? && |shown.arguments| > |block.arguments|
  }

  ghost predicate Related(w: Wire, v: View, chained: bool) {
    && InStep(w) && ValidView(v)
    && |w.c.blocks| == |v.blocks|
    && w.c.open == OpenOf(v)
    && (forall k | k in v.tools :: v.tools[k] in w.e.snapshots && w.e.snapshots[v.tools[k]] == v.blocks[v.tools[k]].arguments)
    && (forall i | 0 <= i < |v.blocks| :: Shows(w.c.blocks[i], v.blocks[i]))
    && (chained ==> w.c.blocks == v.blocks)
    && (!chained ==> exists i :: 0 <= i < |v.blocks| && TooLong(w.c.blocks[i], v.blocks[i]))
  }

  /** Feeding the events succeeds and leads to a wire that is related to `v`. */
  ghost predicate Leads(w: Wire, events: seq<Event>, v: View, chained: bool) {
    exists next :: FeedAll(w, events) == Some(next) && Related(next, v, chained)
  }

  /** One event after another. */
  lemma {:induction false} LeadsOn(w: Wire, a: seq<Event>, b: seq<Event>, next: Wire, v: View, chained: bool)
    requires FeedAll(w, a) == Some(next) && Leads(next, b, v, chained)
    ensures Leads(w, a + b, v, chained)
  {
    FeedAllAppend(w, a, b);
  }

  lemma {:induction false} LeadsAt(w: Wire, event: Event, next: Wire, v: View, chained: bool)
    requires Feed(w, event) == Some(next) && Related(next, v, chained)
    ensures Leads(w, [event], v, chained)
  {
    FeedOne(w, event);
  }

  // ----- single events -----

  lemma {:induction false} StepStop(w: Wire, v: View, chained: bool, i: nat, v': View)
    requires Related(w, v, chained) && i in OpenOf(v) && ValidView(v')
    requires v' == v.(text := v'.text, tools := v'.tools) && OpenOf(v') == OpenOf(v) - {i}
    requires forall k | k in v'.tools :: k in v.tools && v'.tools[k] == v.tools[k] != i
    ensures Leads(w, [BlockStop(i)], v', chained)
  {
    FeedFrame(w, BlockStop(i), BlockStopFrame(i));
    LeadsAt(w, BlockStop(i), Feed(w, BlockStop(i)).value, v', chained);
  }

  lemma {:induction false} StepClose(w: Wire, v: View, chained: bool)
    requires Related(w, v, chained)
    ensures Leads(w, CloseText(TranslatorOf(v)), v.(text := None), chained)
  {
    if v.text.Some? {
      var i := v.text.value;
      forall k | k in v.tools
        ensures v.tools[k] != i
      {
        assert v.blocks[v.tools[k]].ToolBlock?;
      }
      assert i !in v.tools.Values;
      assert OpenOf(v.(text := None)) == OpenOf(v) - {i};
      StepStop(w, v, chained, i, v.(text := None));
    }
  }

  /** Opens a block whose start frame says it all, or a tool block. */
  lemma {:induction false} StepOpen(w: Wire, v: View, chained: bool, block: Block, v': View)
    requires Related(w, v, chained) && v.text.None? && ValidView(v')
    requires block == Opened(block) && v'.blocks == v.blocks + [block]
    requires OpenOf(v') == OpenOf(v) + {|v.blocks|}
    requires forall k | k in v'.tools :: if v'.tools[k] == |v.blocks| then block.ToolBlock? else k in v.tools && v.tools[k] == v'.tools[k]
    ensures var event := BlockStart(|v.blocks|, block);
            Leads(w, [event], v', chained)
  {
    var event := BlockStart(|v.blocks|, block);
    FeedFrame(w, event, BlockStartFrame(|v.blocks|, block));
    var w' := Feed(w, event).value;
    if !chained {
      var i :| 0 <= i < |v.blocks| && TooLong(w.c.blocks[i], v.blocks[i]);
      assert TooLong(w'.c.blocks[i], v'.blocks[i]);
    }
    LeadsAt(w, event, w', v', chained);
  }

  /** Appends to the open text block. */
  lemma {:induction false} StepText(w: Wire, v: View, chained: bool, text: string)
    requires Related(w, v, chained) && v.text.Some?
    ensures var event := BlockDelta(v.text.value, TextBlock(text));
            Leads(w, [event], SeePart(v, TextPart(text)), chained)
  {
    var i := v.text.value;
    var event := BlockDelta(i, TextBlock(text));
    FeedFrame(w, event, TextDeltaFrame(i, text));
    assert Shows(w.c.blocks[i], v.blocks[i]);
    var w' := Feed(w, event).value;
    if !chained {
      var j :| 0 <= j < |v.blocks| && TooLong(w.c.blocks[j], v.blocks[j]);
      assert TooLong(w'.c.blocks[j], SeePart(v, TextPart(text)).blocks[j]);
    }
    LeadsAt(w, event, w', SeePart(v, TextPart(text)), chained);
  }

  /** A new snapshot of a running call: exact as long as it extends the last one. */
  lemma {:induction false} StepCall(w: Wire, v: View, chained: bool, k: CallIndex, call: ToolCall)
    requires Related(w, v, chained) && v.text.None? && k in v.tools
    ensures Leads(w, CallEvents(v, k, call), SeeCall(v, k, call), chained && Longer(v, k, call))
  {
    var i, arguments := v.tools[k], call.arguments;
    var event := BlockDelta(i, ToolBlock(call.id, call.name, arguments));
    assert i in OpenOf(v) && Shows(w.c.blocks[i], v.blocks[i]);
    if arguments == "" {
      FeedSilent(w, event);
    } else {
      var last := v.blocks[i].arguments;
      var partialJson := TrimPrefix(arguments, last);
      if partialJson == "" {
        FeedSilent(w, event);
        assert arguments == last;
        assert w.c.blocks[i].arguments + partialJson == w.c.blocks[i].arguments;
        assert w.c.blocks[i := w.c.blocks[i].(arguments := w.c.blocks[i].arguments + partialJson)] == w.c.blocks;
      } else {
        FeedFrame(w, event, ArgumentsDeltaFrame(i, partialJson));
      }
      SnapshotGrows(w, v, chained, i, arguments, Feed(w, event).value);
      SnapshotsKept(w, v, k, arguments, Feed(w, event).value);
    }
    LeadsAt(w, event, Feed(w, event).value, SeeCall(v, k, call), chained && Longer(v, k, call));
  }

  lemma {:induction false} SnapshotsKept(w: Wire, v: View, k: CallIndex, arguments: string, w': Wire)
    requires ValidView(v) && k in v.tools
    requires forall j | j in v.tools :: v.tools[j] in w.e.snapshots && w.e.snapshots[v.tools[j]] == v.blocks[v.tools[j]].arguments
    requires w'.e.snapshots == w.e.snapshots[v.tools[k] := arguments]
    ensures var blocks := v.blocks[v.tools[k] := v.blocks[v.tools[k]].(arguments := arguments)];
            forall j | j in v.tools :: v.tools[j] in w'.e.snapshots && w'.e.snapshots[v.tools[j]] == blocks[v.tools[j]].arguments
  {
  }

  /** What appending the rest of a snapshot does to the shown arguments. */
  lemma {:induction false} SnapshotGrows(w: Wire, v: View, chained: bool, i: nat, arguments: string, w': Wire)
    requires Related(w, v, chained) && i < |v.blocks| && v.blocks[i].ToolBlock? && arguments != ""
    requires var last := v.blocks[i].arguments;
             w'.c.blocks == w.c.blocks[i := w.c.blocks[i].(arguments := w.c.blocks[i].arguments + TrimPrefix(arguments, last))]
    ensures var blocks := v.blocks[i := v.blocks[i].(arguments := arguments)];
            var longer := v.blocks[i].arguments <= arguments;
            && (forall j | 0 <= j < |blocks| :: Shows(w'.c.blocks[j], blocks[j]))
            && (chained && longer ==> w'.c.blocks == blocks)
            && (!(chained && longer) ==> exists j :: 0 <= j < |blocks| && TooLong(w'.c.blocks[j], blocks[j]))
  {
    var last, shown := v.blocks[i].arguments, w.c.blocks[i].arguments;
    var blocks := v.blocks[i := v.blocks[i].(arguments := arguments)];
    assert Shows(w.c.blocks[i], v.blocks[i]);
    if last <= arguments {
      assert last + arguments[|last|..] == arguments;
      if !chained {
        var j :| 0 <= j < |v.blocks| && TooLong(w.c.blocks[j], v.blocks[j]);
        assert TooLong(w'.c.blocks[j], blocks[j]);
      }
    } else {
      assert last != "";
      assert TooLong(w'.c.blocks[i], blocks[i]);
    }
  }

  // ----- whole runtime events -----

  lemma {:induction false} PartIsFaithful(w: Wire, v: View, chained: bool, part: Part)
    requires Related(w, v, chained)
    ensures var (t, out) := TranslatePart(TranslatorOf(v), part);
            && t == TranslatorOf(SeePart(v, part))
            && Leads(w, out, SeePart(v, part), chained)
  {
    match part
    case TextPart(text) =>
      if v.text.Some? {
        StepText(w, v, chained, text);
      } else {
        NewTextIsFaithful(w, v, chained, text);
      }
    case JsonPart(data) =>
      StepClose(w, v, chained);
      var close := CloseText(TranslatorOf(v));
      var w0 :| FeedAll(w, close) == Some(w0) && Related(w0, v.(text := None), chained);
      var start, delta, stop := BlockStart(|v.blocks|, JsonBlock(data)), BlockDelta(|v.blocks|, JsonBlock(data)), BlockStop(|v.blocks|);
      JsonBlockIsFaithful(w0, v.(text := None), chained, data);
      LeadsOn(w, close, [start, delta, stop], w0, SeePart(v, part), chained);
  }

  lemma {:induction false} NewTextIsFaithful(w: Wire, v: View, chained: bool, text: string)
    requires Related(w, v, chained) && v.text.None?
    ensures var out := [BlockStart(|v.blocks|, TextBlock("")), BlockDelta(|v.blocks|, TextBlock(text))];
            Leads(w, out, SeePart(v, TextPart(text)), chained)
  {
    var start, delta := BlockStart(|v.blocks|, TextBlock("")), BlockDelta(|v.blocks|, TextBlock(text));
    var begun := SeePart(v, TextPart(""));
    assert OpenOf(begun) == OpenOf(v) + {|v.blocks|};
    StepOpen(w, v, chained, TextBlock(""), begun);
    BegunText(v, text);
    var w1 :| FeedAll(w, [start]) == Some(w1) && Related(w1, begun, chained);
    StepText(w1, begun, chained, text);
    LeadsOn(w, [start], [delta], w1, SeePart(v, TextPart(text)), chained);
    assert [start] + [delta] == [start, delta];
  }

  lemma {:induction false} BegunText(v: View, text: string)
    requires ValidView(v) && v.text.None?
    ensures SeePart(SeePart(v, TextPart("")), TextPart(text)) == SeePart(v, TextPart(text))
  {
    assert "" + text == text;
    assert (v.blocks + [TextBlock("")])[|v.blocks| := TextBlock(text)] == v.blocks + [TextBlock(text)];
  }

  lemma {:induction false} FeedTwo(w: Wire, a: Event, b: Event)
    requires Feed(w, a).Some?
    ensures FeedAll(w, [a, b]) == Feed(Feed(w, a).value, b)
  {
    FeedOne(w, a);
    FeedOne(Feed(w, a).value, b);
    FeedAllAppend(w, [a], [b]);
    assert [a] + [b] == [a, b];
  }

  lemma {:induction false} JsonBlockIsFaithful(w: Wire, v: View, chained: bool, data: string)
    requires Related(w, v, chained) && v.text.None?
    ensures var i := |v.blocks|;
            var out := [BlockStart(i, JsonBlock(data)), BlockDelta(i, JsonBlock(data)), BlockStop(i)];
            Leads(w, out, SeePart(v, JsonPart(data)), chained)
  {
    var i := |v.blocks|;
    var start, delta, stop := BlockStart(i, JsonBlock(data)), BlockDelta(i, JsonBlock(data)), BlockStop(i);
    FeedFrame(w, start, BlockStartFrame(i, JsonBlock(data)));
    var w1 := Feed(w, start).value;
    FeedSilent(w1, delta);
    var w2 := Feed(w1, delta).value;
    FeedFrame(w2, stop, BlockStopFrame(i));
    FeedTwo(w, start, delta);
    FeedOne(w2, stop);
    FeedAllAppend(w, [start, delta], [stop]);
    assert [start, delta] + [stop] == [start, delta, stop];
    JsonBlockShown(w, v, chained, data, Feed(w2, stop).value);
  }

  lemma {:induction false} JsonBlockShown(w: Wire, v: View, chained: bool, data: string, next: Wire)
    requires Related(w, v, chained) && v.text.None? && InStep(next)
    requires next.c.blocks == w.c.blocks + [JsonBlock(data)] && next.c.open == w.c.open
    requires forall i | i in w.e.snapshots && i < |v.blocks| :: i in next.e.snapshots && next.e.snapshots[i] == w.e.snapshots[i]
    ensures Related(next, SeePart(v, JsonPart(data)), chained)
  {
    if !chained {
      var j :| 0 <= j < |v.blocks| && TooLong(w.c.blocks[j], v.blocks[j]);
      assert TooLong(next.c.blocks[j], SeePart(v, JsonPart(data)).blocks[j]);
    }
  }

  /** What a call becomes once text is closed. */
  function CallEvents(v: View, k: CallIndex, call: ToolCall): seq<Event> {
    if k in v.tools then [BlockDelta(v.tools[k], ToolBlock(call.id, call.name, call.arguments))]
    else [BlockStart(|v.blocks|, ToolBlock(call.id, call.name, "")), BlockDelta(|v.blocks|, ToolBlock(call.id, call.name, call.arguments))]
  }

  predicate Longer(v: View, k: CallIndex, call: ToolCall)
    requires ValidView(v)
  {
    call.arguments != "" && k in v.tools ==> v.blocks[v.tools[k]].arguments <= call.arguments
  }

  lemma {:induction false} CallIsFaithful(w: Wire, v: View, chained: bool, k: CallIndex, call: ToolCall)
    requires Related(w, v, chained)
    ensures var (t, out) := TranslateCall(TranslatorOf(v), k, call);
            t == TranslatorOf(SeeCall(v, k, call)) && Leads(w, out, SeeCall(v, k, call), chained && Longer(v, k, call))
  {
    var close, closed := CloseText(TranslatorOf(v)), v.(text := None);
    StepClose(w, v, chained);
    var w0 :| FeedAll(w, close) == Some(w0) && Related(w0, closed, chained);
    CallAfterText(w0, closed, chained, k, call);
    ClosedFirst(v, k, call);
    LeadsOn(w, close, CallEvents(v, k, call), w0, SeeCall(v, k, call), chained && Longer(v, k, call));
  }

  lemma {:induction false} ClosedFirst(v: View, k: CallIndex, call: ToolCall)
    requires ValidView(v)
    ensures var closed := v.(text := None);
            && ValidView(closed) && SeeCall(closed, k, call) == SeeCall(v, k, call) && Longer(closed, k, call) == Longer(v, k, call)
            && CallEvents(closed, k, call) == CallEvents(v, k, call)
            && TranslateCall(TranslatorOf(v), k, call).1 == CloseText(TranslatorOf(v)) + CallEvents(v, k, call)
  {
  }

  lemma {:induction false} CallAfterText(w: Wire, v: View, chained: bool, k: CallIndex, call: ToolCall)
    requires Related(w, v, chained) && v.text.None?
    ensures Leads(w, CallEvents(v, k, call), SeeCall(v, k, call), chained && Longer(v, k, call))
  {
    if k in v.tools {
      StepCall(w, v, chained, k, call);
    } else {
      NewCallIsFaithful(w, v, chained, k, call);
    }
  }

  lemma {:induction false} NewCallIsFaithful(w: Wire, v: View, chained: bool, k: CallIndex, call: ToolCall)
    requires Related(w, v, chained) && v.text.None? && k !in v.tools
    ensures Leads(w, CallEvents(v, k, call), SeeCall(v, k, call), chained)
  {
    var block := ToolBlock(call.id, call.name, "");
    var begun := View(v.blocks + [block], None, v.tools[k := |v.blocks|]);
    var start := BlockStart(|v.blocks|, block);
    CallOpens(w, v, chained, k, block);
    BegunCall(v, k, call);
    StepCallAfter(w, [start], begun, chained, k, call);
    assert [start] + CallEvents(begun, k, call) == CallEvents(v, k, call);
  }

  lemma {:induction false} StepCallAfter(w: Wire, before: seq<Event>, v: View, chained: bool, k: CallIndex, call: ToolCall)
    requires Leads(w, before, v, chained) && ValidView(v) && v.text.None? && k in v.tools
    ensures Leads(w, before + CallEvents(v, k, call), SeeCall(v, k, call), chained && Longer(v, k, call))
  {
    var next :| FeedAll(w, before) == Some(next) && Related(next, v, chained);
    StepCall(next, v, chained, k, call);
    LeadsOn(w, before, CallEvents(v, k, call), next, SeeCall(v, k, call), chained && Longer(v, k, call));
  }

  lemma {:induction false} CallOpens(w: Wire, v: View, chained: bool, k: CallIndex, block: Block)
    requires Related(w, v, chained) && v.text.None? && k !in v.tools && block.ToolBlock? && block.arguments == ""
    ensures var begun := View(v.blocks + [block], None, v.tools[k := |v.blocks|]);
            Leads(w, [BlockStart(|v.blocks|, block)], begun, chained)
  {
    OpenGrows(v, k, block);
    StepOpen(w, v, chained, block, View(v.blocks + [block], None, v.tools[k := |v.blocks|]));
  }

  /** Opening a call and then giving its arguments says the same as giving them at once. */
  lemma {:induction false} BegunCall(v: View, k: CallIndex, call: ToolCall)
    requires ValidView(v) && v.text.None? && k !in v.tools
    ensures var begun := View(v.blocks + [ToolBlock(call.id, call.name, "")], None, v.tools[k := |v.blocks|]);
            && ValidView(begun) && SeeCall(begun, k, call) == SeeCall(v, k, call)
            && Longer(begun, k, call)
  {
    var block := ToolBlock(call.id, call.name, "");
    OpenGrows(v, k, block);
    assert (v.blocks + [block])[|v.blocks| := block.(arguments := call.arguments)] == v.blocks + [ToolBlock(call.id, call.name, call.arguments)];
  }

  lemma {:induction false} OpenGrows(v: View, k: CallIndex, block: Block)
    requires ValidView(v) && v.text.None? && k !in v.tools && block.ToolBlock?
    ensures var begun := View(v.blocks + [block], None, v.tools[k := |v.blocks|]);
            ValidView(begun) && OpenOf(begun) == OpenOf(v) + {|v.blocks|}
  {
    var tools := v.tools[k := |v.blocks|];
    forall x
      ensures x in tools.Values <==> x in v.tools.Values + {|v.blocks|}
    {
      if x in v.tools.Values {
        var j :| j in v.tools && v.tools[j] == x;
        assert j in tools && tools[j] == x;
      }
      if x == |v.blocks| { assert k in tools && tools[k] == x; }
    }
  }

  // ----- the end of a message -----

  lemma {:induction false} StopsAreFaithful(w: Wire, v: View, chained: bool, order: seq<CallIndex>)
    requires Related(w, v, chained) && v.text.None? && IsOrder(order, v.tools)
    ensures Leads(w, Stops(order, v.tools), v.(tools := map[]), chained)
    decreases |order|
  {
    if order == [] {
      assert v.tools == map[];
    } else {
      var k, rest := order[0], order[1..];
      assert k in order;
      var i, left := v.tools[k], v.tools - {k};
      var v' := v.(tools := left);
      assert i in v.tools.Values;
      ValuesShrink(v.tools, k);
      StepStop(w, v, chained, i, v');
      RestIsOrder(order, v.tools);
      var w' :| FeedAll(w, [BlockStop(i)]) == Some(w') && Related(w', v', chained);
      StopsAreFaithful(w', v', chained, rest);
      StopsIgnore(rest, v.tools, k);
      LeadsOn(w, [BlockStop(i)], Stops(rest, v.tools), w', v'.(tools := map[]), chained);
    }
  }

  lemma {:induction false} ValuesShrink(tools: map<CallIndex, nat>, k: CallIndex)
    requires k in tools && forall i, j | i in tools && j in tools && tools[i] == tools[j] :: i == j
    ensures (tools - {k}).Values == tools.Values - {tools[k]}
  {
    var left := tools - {k};
    forall x
      ensures x in left.Values <==> x in tools.Values - {tools[k]}
    {
      if x in tools.Values && x != tools[k] {
        var j :| j in tools && tools[j] == x;
        assert j in left && left[j] == x;
      }
    }
  }

  lemma {:induction false} RestIsOrder(order: seq<CallIndex>, tools: map<CallIndex, nat>)
    requires order != [] && IsOrder(order, tools)
    ensures IsOrder(order[1..], tools - {order[0]})
  {
    forall k
      ensures k in order[1..] <==> k in tools - {order[0]}
    {
      if k in order[1..] {
        var j :| 0 <= j < |order[1..]| && order[1..][j] == k;
        assert order[j + 1] == k && order[0] != order[j + 1];
      }
      if k in tools && k != order[0] {
        assert k in order;
      }
    }
  }

  lemma {:induction false} StopsIgnore(order: seq<CallIndex>, tools: map<CallIndex, nat>, k: CallIndex)
    requires k !in order
    ensures Stops(order, tools) == Stops(order, tools - {k})
  {
    if order != [] {
      StopsIgnore(order[1..], tools, k);
    }
  }

  lemma {:induction false} EndIsFaithful(w: Wire, v: View, chained: bool, order: seq<CallIndex>)
    requires Related(w, v, chained) && IsOrder(order, v.tools)
    ensures var out := CloseText(TranslatorOf(v)) + Stops(order, v.tools) + [MessageDelta, MessageStop];
            Leads(w, out, View(v.blocks, None, map[]), chained)
  {
    var close, stops, end := CloseText(TranslatorOf(v)), Stops(order, v.tools), View(v.blocks, None, map[]);
    StepClose(w, v, chained);
    var w0 :| FeedAll(w, close) == Some(w0) && Related(w0, v.(text := None), chained);
    StopsAreFaithful(w0, v.(text := None), chained, order);
    LeadsOn(w, close, stops, w0, end, chained);
    var w1 :| FeedAll(w, close + stops) == Some(w1) && Related(w1, end, chained);
    FinishIsFaithful(w1, end, chained);
    LeadsOn(w, close + stops, [MessageDelta, MessageStop], w1, end, chained);
  }

  lemma {:induction false} FinishIsFaithful(w: Wire, v: View, chained: bool)
    requires Related(w, v, chained) && v.text.None? && v.tools == map[]
    ensures Leads(w, [MessageDelta, MessageStop], v, chained)
  {
    assert w.c.open == {};
    FeedFrame(w, MessageDelta, MessageDeltaFrame);
    var w1 := Feed(w, MessageDelta).value;
    FeedFrame(w1, MessageStop, MessageStopFrame);
    FeedTwo(w, MessageDelta, MessageStop);
    assert Related(Feed(w1, MessageStop).value, v, chained);
  }

  lemma {:induction false} EventIsFaithful(w: Wire, v: View, chained: bool, e: RuntimeEvent, order: seq<CallIndex>)
    requires Related(w, v, chained) && (e.MessageEnded? ==> IsOrder(order, v.tools))
    ensures var (t, out) := TranslateOne(TranslatorOf(v), e, order);
            && t == TranslatorOf(See(v, e))
            && Leads(w, out, See(v, e), chained && Extends(v, e))
  {
    match e
    case MessageStarted =>
      LeadsAt(w, MessageStart, Feed(w, MessageStart).value, v, chained);
    case UsageReported =>
      FeedSilent(w, Usage);
      LeadsAt(w, Usage, Feed(w, Usage).value, v, chained);
    case Failed(message) =>
      FeedFrame(w, StreamError(message), ErrorFrame(message));
      LeadsAt(w, StreamError(message), Feed(w, StreamError(message)).value, v, chained);
    case MessageEnded => EndIsFaithful(w, v, chained, order);
    case ContentDelta(part, call, k) => ContentIsFaithful(w, v, chained, part, call, k);
  }

  lemma {:induction false} ContentIsFaithful(w: Wire, v: View, chained: bool, part: Option<Part>, call: Option<ToolCall>, k: CallIndex)
    requires Related(w, v, chained)
    ensures var e := ContentDelta(part, call, k);
            var (t, out) := TranslateOne(TranslatorOf(v), e, []);
            && t == TranslatorOf(See(v, e))
            && Leads(w, out, See(v, e), chained && Extends(v, e))
  {
    var out1 := if part.Some? then TranslatePart(TranslatorOf(v), part.value).1 else [];
    var seen := if part.Some? then SeePart(v, part.value) else v;
    if part.Some? {
      PartIsFaithful(w, v, chained, part.value);
    } else {
      assert FeedAll(w, []) == Some(w);
    }
    if call.Some? {
      PartKeepsTools(v, part, k);
      CallAfter(w, out1, seen, chained, k, call.value);
    } else {
      assert out1 + [] == out1;
    }
  }

  lemma {:induction false} CallAfter(w: Wire, before: seq<Event>, v: View, chained: bool, k: CallIndex, call: ToolCall)
    requires Leads(w, before, v, chained) && ValidView(v)
    ensures var (t, out) := TranslateCall(TranslatorOf(v), k, call);
            t == TranslatorOf(SeeCall(v, k, call)) && Leads(w, before + out, SeeCall(v, k, call), chained && Longer(v, k, call))
  {
    var next :| FeedAll(w, before) == Some(next) && Related(next, v, chained);
    CallIsFaithful(next, v, chained, k, call);
    LeadsOn(w, before, TranslateCall(TranslatorOf(v), k, call).1, next, SeeCall(v, k, call), chained && Longer(v, k, call));
  }

  /** A content part leaves the tool blocks alone. */
  lemma {:induction false} PartKeepsTools(v: View, part: Option<Part>, k: CallIndex)
    requires ValidView(v)
    ensures var seen := if part.Some? then SeePart(v, part.value) else v;
            seen.tools == v.tools && (k in v.tools ==> seen.blocks[v.tools[k]] == v.blocks[v.tools[k]])
  {
  }

  // ----- whole streams -----

  const START := Wire(UNSTARTED, NEW_CLIENT)

  lemma {:induction false} StreamIsFaithful(events: seq<RuntimeEvent>, orders: seq<seq<CallIndex>>)
    requires |orders| == |events| && ValidOrders(events, orders)
    ensures var (t, out) := Translate(events, orders);
            && t == TranslatorOf(Seen(events))
            && Leads(START, out, Seen(events), Chained(events))
  {
    if events == [] {
      NothingSaid();
    } else {
      var n := |events| - 1;
      FewerOrders(events, orders);
      StreamIsFaithful(events[..n], orders[..n]);
      EventAfter(START, Translate(events[..n], orders[..n]).1, Seen(events[..n]), Chained(events[..n]), events[n], orders[n]);
    }
  }

  lemma {:induction false} NothingSaid()
    ensures Leads(START, [], EMPTY_VIEW, true)
  {
    assert FeedAll(START, []) == Some(START) && Related(START, EMPTY_VIEW, true);
  }

  lemma {:induction false} FewerOrders(events: seq<RuntimeEvent>, orders: seq<seq<CallIndex>>)
    requires events != [] && |orders| == |events| && ValidOrders(events, orders)
    ensures ValidOrders(events[..|events| - 1], orders[..|events| - 1])
  {
    var n := |events| - 1;
    assert forall i | 0 <= i < n :: events[..n][..i] == events[..i] && orders[..n][..i] == orders[..i];
  }

  lemma {:induction false} EventAfter(w: Wire, before: seq<Event>, v: View, chained: bool, e: RuntimeEvent, order: seq<CallIndex>)
    requires Leads(w, before, v, chained) && ValidView(v) && (e.MessageEnded? ==> IsOrder(order, v.tools))
    ensures var (t, out) := TranslateOne(TranslatorOf(v), e, order);
            t == TranslatorOf(See(v, e)) && Leads(w, before + out, See(v, e), chained && Extends(v, e))
  {
    var next :| FeedAll(w, before) == Some(next) && Related(next, v, chained);
    EventIsFaithful(next, v, chained, e, order);
    LeadsOn(w, before, TranslateOne(TranslatorOf(v), e, order).1, next, See(v, e), chained && Extends(v, e));
  }

  /** Main result: for every runtime stream that ends its message, and whatever order tool blocks are
      closed in, a strict client accepts the frames and ends with every block closed; it sees the
      blocks of the stream, and its tool arguments are right exactly when each snapshot of a
      call's arguments extends the one before it. */
  lemma {:induction false} FramesShowTheStream(events: seq<RuntimeEvent>, orders: seq<seq<CallIndex>>)
    requires |orders| == |events| && ValidOrders(events, orders)
    requires events != [] && events[|events| - 1].MessageEnded?
    ensures var read := ReadAll(NEW_CLIENT, Encode(UNSTARTED, Translate(events, orders).1).1);
            && read.Some? && read.value.open == {}
            && |read.value.blocks| == |Seen(events).blocks|
            && (forall i | 0 <= i < |read.value.blocks| :: Shows(read.value.blocks[i], Seen(events).blocks[i]))
            && (read.value.blocks == Seen(events).blocks <==> Chained(events))
  {
    StreamIsFaithful(events, orders);
    FeedAllIsThePipeline(START, Translate(events, orders).1);
    assert Seen(events).text == None && Seen(events).tools == map[];
  }
}

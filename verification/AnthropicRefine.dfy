/** Accumulating the event stream gives the message that the non-streaming conversion gives. */
module AnthropicRefine {
  import opened Optional
  import opened AnthropicStream
  import opened AnthropicWellFormed

  /** A content block; the input of a tool is its encoding. */
  datatype Block = Thinking(thinking: string) | Text(text: string) | ToolUse(id: string, name: string, input: string)

  datatype Message = Message(blocks: seq<Block>, stopReason: string, usageIn: int, usageOut: int)

  // ---------------------------------------------------------------- the two conversions

  /** The arguments as a client sees them; every tool call below can be encoded. */
  function Encoded<A>(marshal: A -> Option<string>, args: A): string {
    match marshal(args)
    case None => ""
    case Some(json) => json
  }

  predicate Encodable<A(!new)>(marshal: A -> Option<string>, tools: seq<ToolCall<A>>) {
    forall i :: 0 <= i < |tools| ==> marshal(tools[i].args).Some?
  }

  function ToolBlocks<A>(marshal: A -> Option<string>, tools: seq<ToolCall<A>>): seq<Block> {
    if tools == [] then []
    else
      var t := tools[|tools| - 1];
      ToolBlocks(marshal, tools[..|tools| - 1]) + [ToolUse(t.id, t.name, Encoded(marshal, t.args))]
  }

  /** The blocks of a response: thinking, then text, then tools, leaving out what is empty. */
  function Blocks<A>(marshal: A -> Option<string>, thinking: string, content: string,
                     tools: seq<ToolCall<A>>): seq<Block> {
    (if thinking != "" then [Thinking(thinking)] else []) + (if content != "" then [Text(content)] else [])
        + ToolBlocks(marshal, tools)
  }

  /** `ToMessagesResponse`. */
  function ToMessage<A>(marshal: A -> Option<string>, r: Chunk<A>): Message {
    Message(Blocks(marshal, r.thinking, r.content, r.tools), MapStopReason(r.doneReason, |r.tools| > 0), r.promptCount,
        r.evalCount)
  }

  /** What `ToMessagesResponse` says of a response: its parts in order, its reason and its counts. */
  lemma WholeMessageIs<A(!new)>(marshal: A -> Option<string>, r: Chunk<A>)
    ensures var m := ToMessage(marshal, r);
            && ReasonFits(r.doneReason, r.tools != [], m.stopReason)
            && m.usageIn == r.promptCount && m.usageOut == r.evalCount
            && PartsInOrder(marshal, m.blocks, r.thinking, r.content, r.tools)
  {
    MappedReasonFits(r.doneReason, |r.tools| > 0);
    BlocksInParts(marshal, r.thinking, r.content, r.tools);
  }

  /** The blocks are the thinking and the text, unless empty, and then the tools. */
  predicate PartsInOrder<A(!new)>(marshal: A -> Option<string>, blocks: seq<Block>, thinking: string, content: string,
                                  tools: seq<ToolCall<A>>) {
    var n := (if thinking == "" then 0 else 1) + (if content == "" then 0 else 1);
    && |blocks| == n + |tools|
    && (thinking != "" ==> blocks[0] == Thinking(thinking))
    && (content != "" ==> blocks[n - 1] == Text(content))
    && forall i :: 0 <= i < |tools| ==>
         blocks[n + i] == ToolUse(tools[i].id, tools[i].name, Encoded(marshal, tools[i].args))
  }

  lemma BlocksInParts<A(!new)>(marshal: A -> Option<string>, thinking: string, content: string, tools: seq<ToolCall<A>>)
    ensures PartsInOrder(marshal, Blocks(marshal, thinking, content, tools), thinking, content, tools)
  {
    var front := (if thinking != "" then [Thinking(thinking)] else [])
        + (if content != "" then [Text(content)] else []);
    var back := ToolBlocks(marshal, tools);
    ToolBlocksAt(marshal, tools);
    assert Blocks(marshal, thinking, content, tools) == front + back;
    forall i | 0 <= i < |tools|
      ensures (front + back)[|front| + i] == back[i]
    {
    }
  }

  lemma {:induction false} ToolBlocksAt<A>(marshal: A -> Option<string>, tools: seq<ToolCall<A>>)
    ensures var b := ToolBlocks(marshal, tools);
            && |b| == |tools|
            && forall i :: 0 <= i < |tools| ==>
                b[i] == ToolUse(tools[i].id, tools[i].name, Encoded(marshal, tools[i].args))
  {
    if tools != [] {
      ToolBlocksAt(marshal, tools[..|tools| - 1]);
    }
  }

  /** The empty block that a client makes for a start event. */
  function Empty(kind: Kind): Block {
    match kind
    case ThinkingBlock => Thinking("")
    case TextBlock => Text("")
    case ToolBlock(id, name) => ToolUse(id, name, "")
  }

  function Extend(b: Block, d: Delta): Block {
    match (b, d)
    case (Thinking(s), ThinkingDelta(t)) => Thinking(s + t)
    case (Text(s), TextDelta(t)) => Text(s + t)
    case (ToolUse(id, name, s), InputJsonDelta(t)) => ToolUse(id, name, s + t)
    case _ => b
  }

  /** A client that accumulates the event stream. */
  function Apply(m: Message, e: Event): Message {
    match e
    case BlockStart(i, kind) => m.(blocks := m.blocks + [Empty(kind)])
    case BlockDelta(i, d) => if 0 <= i < |m.blocks| then m.(blocks := m.blocks[i := Extend(m.blocks[i], d)]) else m
    case MessageDelta(reason, a, b) => m.(stopReason := reason, usageIn := a, usageOut := b)
    case _ => m
  }

  function ApplyAll(m: Message, events: seq<Event>): Message
    decreases |events|
  {
    if events == [] then m else ApplyAll(Apply(m, events[0]), events[1..])
  }

  lemma {:induction false} ApplyConcat(m: Message, a: seq<Event>, b: seq<Event>)
    ensures ApplyAll(m, a + b) == ApplyAll(ApplyAll(m, a), b)
    decreases |a|
  {
    if a == [] {
      assert a + b == b;
    } else {
      assert (a + b)[1..] == a[1..] + b;
      ApplyConcat(Apply(m, a[0]), a[1..], b);
    }
  }

  lemma ApplyOne(m: Message, e: Event)
    ensures ApplyAll(m, [e]) == Apply(m, e)
  {
    assert [e][1..] == [];
  }

  // ---------------------------------------------------------------- what has been accumulated

  function Ids<A>(ts: seq<ToolCall<A>>): set<string> {
    if ts == [] then {} else Ids(ts[..|ts| - 1]) + {ts[|ts| - 1].id}
  }

  lemma {:induction false} IdsAre<A>(ts: seq<ToolCall<A>>, id: string)
    ensures id in Ids(ts) ==> exists i :: 0 <= i < |ts| && ts[i].id == id
  {
    if ts != [] {
      IdsAre(ts[..|ts| - 1], id);
    }
  }

  /** The converter and the client after thinking `t`, content `x` and tools `ts` have gone through. */
  ghost predicate InStep<A(!new)>(marshal: A -> Option<string>, c: State, m: Message, t: string, x: string,
                                  ts: seq<ToolCall<A>>) {
    && !c.first
    && m.blocks == Blocks(marshal, t, x, ts)
    && (c.thinkingStarted <==> t != "")
    && (c.thinkingDone <==> t != "" && (x != "" || ts != []))
    && (c.textStarted <==> x != "" && ts == [])
    && c.index == (if c.textStarted || (c.thinkingStarted && !c.thinkingDone) then |m.blocks| - 1 else |m.blocks|)
    && c.sent == Ids(ts)
  }

  /** More thinking, before any text or tool. */
  lemma ThinkInStep<A(!new)>(marshal: A -> Option<string>, c: State, m: Message, t: string, s: string)
    requires InStep(marshal, c, m, t, "", [])
    ensures var o := Think(c, s); InStep(marshal, o.state, ApplyAll(m, o.events), t + s, "", [])
  {
    if s == "" {
      assert t + s == t;
    } else {
      var start := if c.thinkingStarted then [] else [BlockStart(c.index, ThinkingBlock)];
      var delta := BlockDelta(c.index, ThinkingDelta(s));
      ApplyConcat(m, start, [delta]);
      ApplyOne(m, BlockStart(c.index, ThinkingBlock));
      ApplyOne(ApplyAll(m, start), delta);
      assert "" + s == s;
    }
  }

  lemma StopsChangeNothing(m: Message, i: int)
    ensures ApplyAll(m, [BlockStop(i)]) == m
  {
    ApplyOne(m, BlockStop(i));
  }

  /** More text, before any tool. */
  lemma TextInStep<A(!new)>(marshal: A -> Option<string>, c: State, m: Message, t: string, x: string, s: string)
    requires InStep(marshal, c, m, t, x, [])
    ensures var o := AnthropicStream.Text(c, s); InStep(marshal, o.state, ApplyAll(m, o.events), t, x + s, [])
  {
    if s == "" {
      assert x + s == x;
    } else {
      var closed := CloseThinking(c);
      var c1 := closed.state;
      StopsChangeNothing(m, c.index);
      var start := if c1.textStarted then [] else [BlockStart(c1.index, TextBlock)];
      var delta := BlockDelta(c1.index, TextDelta(s));
      ApplyConcat(m, closed.events + start, [delta]);
      ApplyConcat(m, closed.events, start);
      ApplyOne(m, BlockStart(c1.index, TextBlock));
      ApplyOne(ApplyAll(m, start), delta);
      assert "" + s == s;
    }
  }

  lemma ApplyThree(m: Message, a: Event, b: Event, d: Event)
    ensures ApplyAll(m, [a, b, d]) == Apply(Apply(Apply(m, a), b), d)
  {
    assert [a, b, d][1..] == [b, d] && [b, d][1..] == [d];
    ApplyOne(Apply(Apply(m, a), b), d);
  }

  lemma ToolBlockApplies(m: Message, id: string, name: string, json: string)
    ensures var n := |m.blocks|;
            ApplyAll(m, [BlockStart(n, ToolBlock(id, name)), BlockDelta(n, InputJsonDelta(json)), BlockStop(n)])
            == m.(blocks := m.blocks + [ToolUse(id, name, json)])
  {
    var n := |m.blocks|;
    ApplyThree(m, BlockStart(n, ToolBlock(id, name)), BlockDelta(n, InputJsonDelta(json)), BlockStop(n));
    assert "" + json == json;
    assert (m.blocks + [ToolUse(id, name, "")])[n := ToolUse(id, name, json)] == m.blocks + [ToolUse(id, name, json)];
  }

  /** Closing what is open leaves the accumulated blocks alone and the index after them. */
  lemma ClosingInStep<A(!new)>(marshal: A -> Option<string>, c: State, m: Message, t: string, x: string,
                               ts: seq<ToolCall<A>>)
    requires InStep(marshal, c, m, t, x, ts)
    ensures var a := CloseThinking(c); var b := CloseText(a.state);
            && ApplyAll(m, a.events + b.events) == m && b.state.index == |m.blocks|
            && !b.state.textStarted && !b.state.first && b.state.sent == c.sent
            && b.state.thinkingStarted == c.thinkingStarted && (b.state.thinkingDone <==> t != "")
  {
    var a := CloseThinking(c);
    var b := CloseText(a.state);
    StopsChangeNothing(m, c.index);
    StopsChangeNothing(m, a.state.index);
    ApplyConcat(m, a.events, b.events);
  }

  /** One more tool call with an identifier that was not seen before. */
  lemma ToolInStep<A(!new)>(marshal: A -> Option<string>, c: State, m: Message, t: string, x: string,
                            ts: seq<ToolCall<A>>, call: ToolCall<A>)
    requires InStep(marshal, c, m, t, x, ts) && call.id !in c.sent && marshal(call.args).Some?
    ensures var o := Tool(marshal, c, call); InStep(marshal, o.state, ApplyAll(m, o.events), t, x, ts + [call])
  {
    var a := CloseThinking(c);
    var b := CloseText(a.state);
    var json := marshal(call.args).value;
    ClosingInStep(marshal, c, m, t, x, ts);
    var n := b.state.index;
    var block := [BlockStart(n, ToolBlock(call.id, call.name)), BlockDelta(n, InputJsonDelta(json)), BlockStop(n)];
    ApplyConcat(m, a.events + b.events, block);
    ToolBlockApplies(m, call.id, call.name, json);
    BlocksGrow(marshal, t, x, ts, call);
    assert (ts + [call])[..|ts|] == ts;
  }

  lemma BlocksGrow<A>(marshal: A -> Option<string>, t: string, x: string, ts: seq<ToolCall<A>>, call: ToolCall<A>)
    ensures Blocks(marshal, t, x, ts + [call])
              == Blocks(marshal, t, x, ts) + [ToolUse(call.id, call.name, Encoded(marshal, call.args))]
  {
    assert (ts + [call])[..|ts|] == ts;
    assert ToolBlocks(marshal, ts + [call])
        == ToolBlocks(marshal, ts) + [ToolUse(call.id, call.name, Encoded(marshal, call.args))];
  }

  predicate DistinctIds<A(!new)>(ts: seq<ToolCall<A>>) {
    forall i, j :: 0 <= i < j < |ts| ==> ts[i].id != ts[j].id
  }

  lemma {:induction false} ToolsInStep<A(!new)>(marshal: A -> Option<string>, c: State, m: Message, t: string,
                                                x: string, ts: seq<ToolCall<A>>, calls: seq<ToolCall<A>>)
    requires InStep(marshal, c, m, t, x, ts) && DistinctIds(ts + calls)
    requires Encodable(marshal, calls)
    ensures var o := Tools(marshal, c, calls); InStep(marshal, o.state, ApplyAll(m, o.events), t, x, ts + calls)
    decreases |calls|
  {
    if calls == [] {
      assert ts + calls == ts;
    } else {
      var first := Tool(marshal, c, calls[0]);
      var rest := Tools(marshal, first.state, calls[1..]);
      assert calls[0].id !in c.sent by {
        IdsAre(ts, calls[0].id);
        assert (ts + calls)[|ts|] == calls[0];
        assert forall i :: 0 <= i < |ts| ==> (ts + calls)[i] == ts[i];
      }
      ToolInStep(marshal, c, m, t, x, ts, calls[0]);
      assert ts + [calls[0]] + calls[1..] == ts + calls;
      ToolsInStep(marshal, first.state, ApplyAll(m, first.events), t, x, ts + [calls[0]], calls[1..]);
      ApplyConcat(m, first.events, rest.events);
    }
  }

  /** Thinking then text of one chunk. */
  lemma ProseInStep<A(!new)>(marshal: A -> Option<string>, c: State, m: Message, t: string, x: string,
                             ts: seq<ToolCall<A>>, thinking: string, content: string)
    requires InStep(marshal, c, m, t, x, ts)
    requires x != "" || ts != [] ==> thinking == ""
    requires ts != [] ==> content == ""
    ensures var b := Think(c, thinking); var d := AnthropicStream.Text(b.state, content);
            InStep(marshal, d.state, ApplyAll(m, b.events + d.events), t + thinking, x + content, ts)
  {
    var b := Think(c, thinking);
    var d := AnthropicStream.Text(b.state, content);
    ApplyConcat(m, b.events, d.events);
    if x == "" && ts == [] {
      ThinkInStep(marshal, c, m, t, thinking);
    } else {
      assert t + thinking == t;
    }
    if ts == [] {
      TextInStep(marshal, b.state, ApplyAll(m, b.events), t + thinking, x, content);
    } else {
      assert x + content == x;
    }
  }

  /** The parts of a chunk's events, applied one after the other. */
  lemma ProcessApplies<A>(marshal: A -> Option<string>, c: State, r: Chunk<A>, m: Message)
    ensures var a := Begin(c, r.promptCount);
            var b := Think(a.state, r.thinking);
            var d := AnthropicStream.Text(b.state, r.content);
            var e := Tools(marshal, d.state, r.tools);
            ApplyAll(m, Process(marshal, c, r).events)
                == ApplyAll(ApplyAll(ApplyAll(m, b.events + d.events), e.events), Finish(e.state, r))
  {
    var a := Begin(c, r.promptCount);
    var b := Think(a.state, r.thinking);
    var d := AnthropicStream.Text(b.state, r.content);
    var e := Tools(marshal, d.state, r.tools);
    var f := Finish(e.state, r);
    BeginApplies(c, r.promptCount, m);
    ApplyFive(m, a.events, b.events, d.events, e.events, f);
  }

  lemma BeginApplies(c: State, promptCount: int, m: Message)
    ensures ApplyAll(m, Begin(c, promptCount).events) == m
  {
    if c.first {
      ApplyOne(m, Begin(c, promptCount).events[0]);
    }
  }

  lemma ApplyFive(m: Message, a: seq<Event>, b: seq<Event>, d: seq<Event>, e: seq<Event>, f: seq<Event>)
    ensures ApplyAll(m, a + b + d + e + f) == ApplyAll(ApplyAll(ApplyAll(ApplyAll(m, a), b + d), e), f)
  {
    ApplyConcat(m, a + b + d + e, f);
    ApplyConcat(m, a + b + d, e);
    assert a + b + d == a + (b + d);
    ApplyConcat(m, a, b + d);
  }

  /** What the last chunk settles. */
  predicate Settled<A>(m: Message, r: Chunk<A>, hasTools: bool) {
    m.stopReason == MapStopReason(r.doneReason, hasTools) && m.usageIn == r.promptCount && m.usageOut == r.evalCount
  }

  /** One chunk. */
  lemma BodyInStep<A(!new)>(marshal: A -> Option<string>, c: State, m: Message, t: string, x: string,
                            ts: seq<ToolCall<A>>, r: Chunk<A>)
    requires InStep(marshal, c.(first := false), m, t, x, ts)
    requires x != "" || ts != [] ==> r.thinking == ""
    requires ts != [] ==> r.content == ""
    requires DistinctIds(ts + r.tools) && Encodable(marshal, r.tools)
    ensures var o := Process(marshal, c, r);
            && InStep(marshal, o.state, ApplyAll(m, o.events), t + r.thinking, x + r.content, ts + r.tools)
            && (r.done ==> Settled(ApplyAll(m, o.events), r, |ts + r.tools| > 0))
  {
    var c1 := Begin(c, r.promptCount).state;
    var b := Think(c1, r.thinking);
    var d := AnthropicStream.Text(b.state, r.content);
    var e := Tools(marshal, d.state, r.tools);
    var m1 := ApplyAll(m, b.events + d.events);
    ProseInStep(marshal, c1, m, t, x, ts, r.thinking, r.content);
    ToolsInStep(marshal, d.state, m1, t + r.thinking, x + r.content, ts, r.tools);
    FinishApplies(e.state, r, ApplyAll(m1, e.events));
    SentIsNonEmpty(ts + r.tools);
    ProcessApplies(marshal, c, r, m);
  }

  lemma SentIsNonEmpty<A>(ts: seq<ToolCall<A>>)
    ensures Ids(ts) != {} <==> |ts| > 0
  {
    if ts != [] {
      assert ts[|ts| - 1].id in Ids(ts);
    }
  }

  lemma FinishApplies<A>(c: State, r: Chunk<A>, m: Message)
    ensures ApplyAll(m, Finish(c, r)) ==
            if r.done then Message(m.blocks, MapStopReason(r.doneReason, c.sent != {}), r.promptCount, r.evalCount)
            else m
  {
    if r.done {
      var stop := if c.textStarted || (c.thinkingStarted && !c.thinkingDone) then [BlockStop(c.index)] else [];
      var summary := MessageDelta(MapStopReason(r.doneReason, c.sent != {}), r.promptCount, r.evalCount);
      ApplyConcat(m, stop, [summary, MessageStop]);
      StopsChangeNothing(m, c.index);
      assert [summary, MessageStop][1..] == [MessageStop];
      ApplyOne(Apply(m, summary), MessageStop);
    }
  }

  // ---------------------------------------------------------------- whole runs

  function AllThinking<A>(chunks: seq<Chunk<A>>): string {
    if chunks == [] then "" else chunks[0].thinking + AllThinking(chunks[1..])
  }

  function AllContent<A>(chunks: seq<Chunk<A>>): string {
    if chunks == [] then "" else chunks[0].content + AllContent(chunks[1..])
  }

  function AllTools<A>(chunks: seq<Chunk<A>>): seq<ToolCall<A>> {
    if chunks == [] then [] else chunks[0].tools + AllTools(chunks[1..])
  }

  /** The whole response of which the chunks are the pieces; its closing data are those of the last chunk. */
  function Joined<A>(chunks: seq<Chunk<A>>): Chunk<A>
    requires chunks != []
  {
    var last := chunks[|chunks| - 1];
    Chunk(AllThinking(chunks), AllContent(chunks), AllTools(chunks), true, last.doneReason, last.promptCount,
        last.evalCount)
  }

  /** Thinking comes first, then text, then tool calls; one chunk may hold the end of one and the start of the next. */
  predicate Ordered<A(!new)>(chunks: seq<Chunk<A>>) {
    && (forall i, j :: 0 <= i < j < |chunks| && (chunks[i].content != "" || chunks[i].tools != []) ==>
          chunks[j].thinking == "")
    && (forall i, j :: 0 <= i < j < |chunks| && chunks[i].tools != [] ==> chunks[j].content == "")
  }

  /** No thinking, or no text, is to come. */
  predicate NoThinking<A(!new)>(chunks: seq<Chunk<A>>) {
    forall j :: 0 <= j < |chunks| ==> chunks[j].thinking == ""
  }

  predicate NoContent<A(!new)>(chunks: seq<Chunk<A>>) {
    forall j :: 0 <= j < |chunks| ==> chunks[j].content == ""
  }

  lemma DistinctPrefix<A(!new)>(a: seq<ToolCall<A>>, b: seq<ToolCall<A>>)
    requires DistinctIds(a + b)
    ensures DistinctIds(a)
  {
    forall i, j | 0 <= i < j < |a|
      ensures a[i].id != a[j].id
    {
      assert (a + b)[i] == a[i] && (a + b)[j] == a[j];
    }
  }

  lemma EncodableParts<A(!new)>(marshal: A -> Option<string>, a: seq<ToolCall<A>>, b: seq<ToolCall<A>>)
    requires Encodable(marshal, a + b)
    ensures Encodable(marshal, a) && Encodable(marshal, b)
  {
    assert forall i :: 0 <= i < |a| ==> (a + b)[i] == a[i];
    forall i | 0 <= i < |b|
      ensures marshal(b[i].args).Some?
    {
      assert (a + b)[|a| + i] == b[i];
    }
  }

  lemma OrderedTail<A(!new)>(chunks: seq<Chunk<A>>, x: string, ts: seq<ToolCall<A>>)
    requires chunks != [] && Ordered(chunks)
    requires (x != "" || ts != [] ==> NoThinking(chunks)) && (ts != [] ==> NoContent(chunks))
    ensures var r, later := chunks[0], chunks[1..];
            && Ordered(later)
            && (x + r.content != "" || ts + r.tools != [] ==> NoThinking(later))
            && (ts + r.tools != [] ==> NoContent(later))
  {
    var later := chunks[1..];
    assert forall j :: 0 <= j < |later| ==> later[j] == chunks[j + 1];
  }

  lemma SingleChunk<A>(marshal: A -> Option<string>, c: State, chunks: seq<Chunk<A>>)
    requires |chunks| == 1
    ensures Stream(marshal, c, chunks).events == Process(marshal, c, chunks[0]).events
    ensures AllThinking(chunks) == chunks[0].thinking && AllContent(chunks) == chunks[0].content
    ensures AllTools(chunks) == chunks[0].tools
  {
    assert chunks[1..] == [];
  }

  lemma Regroup<A>(r: Chunk<A>, later: seq<Chunk<A>>, chunks: seq<Chunk<A>>, t: string, x: string, ts: seq<ToolCall<A>>)
    requires chunks == [r] + later
    ensures (ts + r.tools) + AllTools(later) == ts + AllTools(chunks)
    ensures (t + r.thinking) + AllThinking(later) == t + AllThinking(chunks)
    ensures (x + r.content) + AllContent(later) == x + AllContent(chunks)
  {
    assert chunks[1..] == later;
  }

  /** What is still to come fits what has gone through. */
  ghost predicate Pending<A(!new)>(marshal: A -> Option<string>, x: string, ts: seq<ToolCall<A>>,
                                   chunks: seq<Chunk<A>>) {
    && DoneOnlyLast(chunks) && Ordered(chunks)
    && (x != "" || ts != [] ==> NoThinking(chunks)) && (ts != [] ==> NoContent(chunks))
    && DistinctIds(ts + AllTools(chunks)) && Encodable(marshal, AllTools(chunks))
  }

  lemma PendingTail<A(!new)>(marshal: A -> Option<string>, x: string, ts: seq<ToolCall<A>>, chunks: seq<Chunk<A>>)
    requires Pending(marshal, x, ts, chunks)
    ensures var r, later := chunks[0], chunks[1..];
            && (x != "" || ts != [] ==> r.thinking == "") && (ts != [] ==> r.content == "")
            && DistinctIds(ts + r.tools) && Encodable(marshal, r.tools)
            && (later != [] ==> Pending(marshal, x + r.content, ts + r.tools, later))
  {
    var r, later := chunks[0], chunks[1..];
    Regroup(r, later, chunks, "", x, ts);
    DistinctPrefix(ts + r.tools, AllTools(later));
    EncodableParts(marshal, r.tools, AllTools(later));
    OrderedTail(chunks, x, ts);
  }

  /** The message that a run leaves: these blocks, and the closing data of its last chunk. */
  ghost predicate Delivered<A(!new)>(marshal: A -> Option<string>, m: Message, t: string, x: string,
                                     ts: seq<ToolCall<A>>, last: Chunk<A>) {
    m.blocks == Blocks(marshal, t, x, ts) && Settled(m, last, |ts| > 0)
  }

  lemma SingleInStep<A(!new)>(marshal: A -> Option<string>, c: State, m: Message, t: string, x: string,
                        ts: seq<ToolCall<A>>, chunks: seq<Chunk<A>>)
    requires InStep(marshal, c.(first := false), m, t, x, ts) && Pending(marshal, x, ts, chunks) && |chunks| == 1
    ensures Delivered(marshal, ApplyAll(m, Stream(marshal, c, chunks).events),
                      t + AllThinking(chunks), x + AllContent(chunks), ts + AllTools(chunks), chunks[|chunks| - 1])
  {
    PendingTail(marshal, x, ts, chunks);
    BodyInStep(marshal, c, m, t, x, ts, chunks[0]);
    SingleChunk(marshal, c, chunks);
  }

  lemma FirstInStep<A(!new)>(marshal: A -> Option<string>, c: State, m: Message, t: string, x: string,
                       ts: seq<ToolCall<A>>, chunks: seq<Chunk<A>>)
    requires InStep(marshal, c.(first := false), m, t, x, ts) && Pending(marshal, x, ts, chunks) && |chunks| > 1
    ensures var r, later := chunks[0], chunks[1..];
            var first := Process(marshal, c, r);
            && InStep(marshal, first.state.(first := false), ApplyAll(m, first.events), t + r.thinking, x + r.content,
                ts + r.tools)
            && Pending(marshal, x + r.content, ts + r.tools, later)
  {
    PendingTail(marshal, x, ts, chunks);
    BodyInStep(marshal, c, m, t, x, ts, chunks[0]);
    var s := Process(marshal, c, chunks[0]).state;
    assert s.(first := false) == s;
  }

  /** The first chunk's events, and then those of the others. */
  lemma StreamApplies<A>(marshal: A -> Option<string>, c: State, m: Message, chunks: seq<Chunk<A>>)
    requires chunks != []
    ensures var first := Process(marshal, c, chunks[0]);
            ApplyAll(m, Stream(marshal, c, chunks).events)
            == ApplyAll(ApplyAll(m, first.events), Stream(marshal, first.state, chunks[1..]).events)
  {
    var first := Process(marshal, c, chunks[0]);
    ApplyConcat(m, first.events, Stream(marshal, first.state, chunks[1..]).events);
  }

  /**
   * The run `chunks`, from the state in which `t`, `x` and `ts` have gone through, delivers `thinking`, `content` and
   * `tools`.
   */
  lemma {:induction false} StreamInStep<A(!new)>(marshal: A -> Option<string>, c: State, m: Message,
                                                 t: string, x: string, ts: seq<ToolCall<A>>, chunks: seq<Chunk<A>>,
                                                 thinking: string, content: string, tools: seq<ToolCall<A>>)
    requires InStep(marshal, c.(first := false), m, t, x, ts) && Pending(marshal, x, ts, chunks)
    requires thinking == t + AllThinking(chunks) && content == x + AllContent(chunks) && tools == ts + AllTools(chunks)
    ensures Delivered(marshal, ApplyAll(m, Stream(marshal, c, chunks).events), thinking, content, tools,
              chunks[|chunks| - 1])
    decreases |chunks|
  {
    if |chunks| == 1 {
      SingleInStep(marshal, c, m, t, x, ts, chunks);
    } else {
      var r, later := chunks[0], chunks[1..];
      var first := Process(marshal, c, r);
      FirstInStep(marshal, c, m, t, x, ts, chunks);
      assert chunks == [r] + later;
      Regroup(r, later, chunks, t, x, ts);
      StreamInStep(marshal, first.state, ApplyAll(m, first.events), t + r.thinking, x + r.content, ts + r.tools, later,
          thinking, content, tools);
      DeliveredByAll(marshal, c, m, chunks, thinking, content, tools);
    }
  }

  lemma DeliveredByAll<A(!new)>(marshal: A -> Option<string>, c: State, m: Message, chunks: seq<Chunk<A>>,
                                thinking: string, content: string, tools: seq<ToolCall<A>>)
    requires |chunks| > 1
    requires var first, later := Process(marshal, c, chunks[0]), chunks[1..];
             Delivered(marshal, ApplyAll(ApplyAll(m, first.events), Stream(marshal, first.state, later).events),
                       thinking, content, tools, later[|later| - 1])
    ensures Delivered(marshal, ApplyAll(m, Stream(marshal, c, chunks).events), thinking, content, tools,
                      chunks[|chunks| - 1])
  {
    StreamApplies(marshal, c, m, chunks);
  }

  /**
   * Streaming refines non-streaming: for a run in order, with distinct tool identifiers and arguments that can be
   * encoded, the accumulated stream is the conversion of the whole response.
   */
  lemma StreamingRefinesWhole<A(!new)>(marshal: A -> Option<string>, estimated: int, chunks: seq<Chunk<A>>)
    requires DoneOnlyLast(chunks) && Ordered(chunks) && DistinctIds(AllTools(chunks))
    requires Encodable(marshal, AllTools(chunks))
    ensures ApplyAll(Message([], "", 0, 0), Stream(marshal, Initial(estimated), chunks).events)
              == ToMessage(marshal, Joined(chunks))
  {
    var none: seq<ToolCall<A>> := [];
    NothingYet(chunks, none);
    StreamInStep(marshal, Initial(estimated), Message([], "", 0, 0), "", "", none, chunks, AllThinking(chunks),
        AllContent(chunks), AllTools(chunks));
  }

  lemma NothingYet<A>(chunks: seq<Chunk<A>>, none: seq<ToolCall<A>>)
    requires none == []
    ensures none + AllTools(chunks) == AllTools(chunks)
    ensures "" + AllThinking(chunks) == AllThinking(chunks) && "" + AllContent(chunks) == AllContent(chunks)
  {
  }
}

/** When accumulating the event stream gives the message of the non-streaming conversion, and when it does not. */
module AnthropicExact {
  import opened Optional
  import opened AnthropicStream
  import opened AnthropicWellFormed
  import opened AnthropicRefine

  // ---------------------------------------------------------------- blocks stay where they are

  /** The place of a block's kind in a response. */
  function Rank(b: Block): int {
    match b
    case Thinking(_) => 0
    case Text(_) => 1
    case ToolUse(_, _, _) => 2
  }

  /** A block comes after one that it should precede. */
  ghost predicate Misplaced(blocks: seq<Block>) {
    exists i, j :: 0 <= i < j < |blocks| && Rank(blocks[j]) < Rank(blocks[i])
  }

  lemma {:induction false} ApplyKeepsRanks(m: Message, events: seq<Event>)
    ensures var r := ApplyAll(m, events);
            |m.blocks| <= |r.blocks| && forall i :: 0 <= i < |m.blocks| ==> Rank(r.blocks[i]) == Rank(m.blocks[i])
    decreases |events|
  {
    if events != [] {
      ApplyKeepsRanks(Apply(m, events[0]), events[1..]);
    }
  }

  lemma MisplacedStays(m: Message, events: seq<Event>)
    requires Misplaced(m.blocks)
    ensures Misplaced(ApplyAll(m, events).blocks)
  {
    ApplyKeepsRanks(m, events);
    var i, j :| 0 <= i < j < |m.blocks| && Rank(m.blocks[j]) < Rank(m.blocks[i]);
    var r := ApplyAll(m, events);
    assert Rank(r.blocks[j]) < Rank(r.blocks[i]);
  }

  /** Starting a block of lower rank than some block before it. */
  lemma StartMisplaces(m: Message, i: int, kind: Kind, delta: Event, k: nat)
    requires k < |m.blocks| && Rank(Empty(kind)) < Rank(m.blocks[k])
    ensures Misplaced(ApplyAll(m, [BlockStart(i, kind)] + [delta]).blocks)
  {
    ApplyConcat(m, [BlockStart(i, kind)], [delta]);
    ApplyOne(m, BlockStart(i, kind));
    var n := Apply(m, BlockStart(i, kind));
    assert Rank(n.blocks[|m.blocks|]) < Rank(n.blocks[k]);
    MisplacedStays(n, [delta]);
  }

  lemma {:induction false} ToolBlocksAre<A>(marshal: A -> Option<string>, tools: seq<ToolCall<A>>)
    ensures var b := ToolBlocks(marshal, tools);
            |b| == |tools| && forall i :: 0 <= i < |b| ==> b[i].ToolUse? && b[i].id == tools[i].id
  {
    if tools != [] {
      ToolBlocksAre(marshal, tools[..|tools| - 1]);
    }
  }

  /** The blocks of a whole response are in order. */
  lemma BlocksInOrder<A>(marshal: A -> Option<string>, t: string, x: string, ts: seq<ToolCall<A>>)
    ensures !Misplaced(Blocks(marshal, t, x, ts))
  {
    ToolBlocksAre(marshal, ts);
  }

  // ---------------------------------------------------------------- thinking that arrives too late

  /** No thinking is sent. */
  ghost predicate NoThoughts(events: seq<Event>) {
    forall i :: 0 <= i < |events| ==> !(events[i].BlockDelta? && events[i].delta.ThinkingDelta?)
  }

  lemma {:induction false} ThoughtStays(m: Message, events: seq<Event>)
    requires m.blocks != [] && m.blocks[0].Thinking? && NoThoughts(events)
    ensures var r := ApplyAll(m, events); r.blocks != [] && r.blocks[0] == m.blocks[0]
    decreases |events|
  {
    if events != [] {
      assert NoThoughts(events[1..]);
      ThoughtStays(Apply(m, events[0]), events[1..]);
    }
  }

  lemma {:induction false} ToolsThinkNothing<A>(marshal: A -> Option<string>, c: State, tools: seq<ToolCall<A>>)
    requires c.thinkingDone
    ensures var o := Tools(marshal, c, tools); NoThoughts(o.events) && o.state.thinkingDone
    decreases |tools|
  {
    if tools != [] {
      ToolsThinkNothing(marshal, Tool(marshal, c, tools[0]).state, tools[1..]);
    }
  }

  lemma NoThoughtsFive(a: seq<Event>, b: seq<Event>, d: seq<Event>, e: seq<Event>, f: seq<Event>)
    requires NoThoughts(a) && NoThoughts(b) && NoThoughts(d) && NoThoughts(e) && NoThoughts(f)
    ensures NoThoughts(a + b + d + e + f)
  {
  }

  /** Once thinking is done, no chunk sends any. */
  lemma ProcessThinksNothing<A>(marshal: A -> Option<string>, c: State, r: Chunk<A>)
    requires c.thinkingDone
    ensures var o := Process(marshal, c, r); NoThoughts(o.events) && o.state.thinkingDone
  {
    var a := Begin(c, r.promptCount);
    var b := Think(a.state, r.thinking);
    var d := AnthropicStream.Text(b.state, r.content);
    var e := Tools(marshal, d.state, r.tools);
    ToolsThinkNothing(marshal, d.state, r.tools);
    NoThoughtsFive(a.events, b.events, d.events, e.events, Finish(e.state, r));
  }

  lemma {:induction false} StreamThinksNothing<A>(marshal: A -> Option<string>, c: State, chunks: seq<Chunk<A>>)
    requires c.thinkingDone
    ensures NoThoughts(Stream(marshal, c, chunks).events)
    decreases |chunks|
  {
    if chunks != [] {
      ProcessThinksNothing(marshal, c, chunks[0]);
      StreamThinksNothing(marshal, Process(marshal, c, chunks[0]).state, chunks[1..]);
    }
  }

  // ---------------------------------------------------------------- a chunk out of order

  /** The chunk brings thinking after text or tools, or text after tools. */
  predicate Late<A>(x: string, ts: seq<ToolCall<A>>, r: Chunk<A>) {
    (r.thinking != "" && (x != "" || ts != [])) || (r.content != "" && ts != [])
  }

  lemma LateThoughtMisplaces<A(!new)>(marshal: A -> Option<string>, c: State, m: Message, x: string,
                                      ts: seq<ToolCall<A>>, thinking: string)
    requires InStep(marshal, c, m, "", x, ts) && thinking != "" && (x != "" || ts != [])
    ensures Misplaced(ApplyAll(m, Think(c, thinking).events).blocks)
  {
    ToolBlocksAre(marshal, ts);
    StartMisplaces(m, c.index, ThinkingBlock, BlockDelta(c.index, ThinkingDelta(thinking)), 0);
  }

  lemma LateTextMisplaces<A(!new)>(marshal: A -> Option<string>, c: State, m: Message, t: string, x: string,
                                   ts: seq<ToolCall<A>>, content: string)
    requires InStep(marshal, c, m, t, x, ts) && content != "" && ts != []
    ensures Misplaced(ApplyAll(m, AnthropicStream.Text(c, content).events).blocks)
  {
    ToolBlocksAre(marshal, ts);
    StartMisplaces(m, c.index, TextBlock, BlockDelta(c.index, TextDelta(content)), |m.blocks| - 1);
    assert AnthropicStream.Text(c, content).events
        == [BlockStart(c.index, TextBlock)] + [BlockDelta(c.index, TextDelta(content))];
  }

  /** A late chunk puts a block out of place, unless it is thinking that the converter drops. */
  lemma LateMisplaces<A(!new)>(marshal: A -> Option<string>, c: State, m: Message, t: string, x: string,
                               ts: seq<ToolCall<A>>, r: Chunk<A>)
    requires InStep(marshal, c.(first := false), m, t, x, ts) && Late(x, ts, r) && (r.thinking != "" ==> t == "")
    ensures Misplaced(ApplyAll(m, Process(marshal, c, r).events).blocks)
  {
    var c1 := Begin(c, r.promptCount).state;
    var b := Think(c1, r.thinking);
    var d := AnthropicStream.Text(b.state, r.content);
    var e := Tools(marshal, d.state, r.tools);
    ApplyConcat(m, b.events, d.events);
    if r.thinking != "" {
      LateThoughtMisplaces(marshal, c1, m, x, ts, r.thinking);
      MisplacedStays(ApplyAll(m, b.events), d.events);
    } else {
      LateTextMisplaces(marshal, c1, m, t, x, ts, r.content);
    }
    MisplacedStays(ApplyAll(m, b.events + d.events), e.events);
    MisplacedStays(ApplyAll(ApplyAll(m, b.events + d.events), e.events), Finish(e.state, r));
    ProcessApplies(marshal, c, r, m);
  }

  /** Thinking after a finished thinking block is dropped, so the block is too short. */
  lemma DroppedThought<A(!new)>(marshal: A -> Option<string>, c: State, m: Message, t: string, x: string,
                                ts: seq<ToolCall<A>>, chunks: seq<Chunk<A>>,
                                thinking: string, content: string, tools: seq<ToolCall<A>>)
    requires InStep(marshal, c.(first := false), m, t, x, ts) && chunks != [] && t != "" && (x != "" || ts != [])
    requires chunks[0].thinking != "" && thinking == t + AllThinking(chunks)
    ensures ApplyAll(m, Stream(marshal, c, chunks).events).blocks != Blocks(marshal, thinking, content, tools)
  {
    StreamThinksNothing(marshal, c, chunks);
    ThoughtStays(m, Stream(marshal, c, chunks).events);
    assert Blocks(marshal, thinking, content, tools)[0] == Thinking(thinking);
    assert |thinking| > |t|;
  }

  lemma LateDiffers<A(!new)>(marshal: A -> Option<string>, c: State, m: Message, t: string, x: string,
                             ts: seq<ToolCall<A>>, chunks: seq<Chunk<A>>,
                             thinking: string, content: string, tools: seq<ToolCall<A>>)
    requires InStep(marshal, c.(first := false), m, t, x, ts) && chunks != [] && Late(x, ts, chunks[0])
    requires thinking == t + AllThinking(chunks)
    ensures ApplyAll(m, Stream(marshal, c, chunks).events).blocks != Blocks(marshal, thinking, content, tools)
  {
    var r := chunks[0];
    if r.thinking != "" && t != "" {
      DroppedThought(marshal, c, m, t, x, ts, chunks, thinking, content, tools);
    } else {
      var first := Process(marshal, c, r);
      var rest := Stream(marshal, first.state, chunks[1..]);
      LateMisplaces(marshal, c, m, t, x, ts, r);
      ApplyConcat(m, first.events, rest.events);
      MisplacedStays(ApplyAll(m, first.events), rest.events);
      BlocksInOrder(marshal, thinking, content, tools);
    }
  }

  // ---------------------------------------------------------------- runs out of order

  /** The chunks go on in order after content `x` and tools `ts`. */
  predicate Continues<A(!new)>(x: string, ts: seq<ToolCall<A>>, chunks: seq<Chunk<A>>) {
    Ordered(chunks) && (x != "" || ts != [] ==> NoThinking(chunks)) && (ts != [] ==> NoContent(chunks))
  }

  lemma ContinuesTail<A(!new)>(x: string, ts: seq<ToolCall<A>>, chunks: seq<Chunk<A>>)
    requires chunks != [] && !Continues(x, ts, chunks) && !Late(x, ts, chunks[0])
    ensures |chunks| > 1 && !Continues(x + chunks[0].content, ts + chunks[0].tools, chunks[1..])
  {
    var r, later := chunks[0], chunks[1..];
    assert forall j :: 0 <= j < |later| ==> later[j] == chunks[j + 1];
    if Continues(x + r.content, ts + r.tools, later) {
      forall i, j | 0 <= i < j < |chunks|
        ensures chunks[i].content != "" || chunks[i].tools != [] ==> chunks[j].thinking == ""
        ensures chunks[i].tools != [] ==> chunks[j].content == ""
      {
        assert chunks[j] == later[j - 1];
        if i > 0 {
          assert chunks[i] == later[i - 1];
        }
      }
      assert false;
    }
  }

  lemma {:induction false} OutOfOrderDiffers<A(!new)>(marshal: A -> Option<string>, c: State, m: Message,
                                                      t: string, x: string, ts: seq<ToolCall<A>>, chunks: seq<Chunk<A>>,
                                                      thinking: string, content: string, tools: seq<ToolCall<A>>)
    requires InStep(marshal, c.(first := false), m, t, x, ts) && chunks != [] && !Continues(x, ts, chunks)
    requires DistinctIds(ts + AllTools(chunks)) && Encodable(marshal, AllTools(chunks))
    requires thinking == t + AllThinking(chunks)
    ensures ApplyAll(m, Stream(marshal, c, chunks).events).blocks != Blocks(marshal, thinking, content, tools)
    decreases |chunks|
  {
    var r, later := chunks[0], chunks[1..];
    if Late(x, ts, r) {
      LateDiffers(marshal, c, m, t, x, ts, chunks, thinking, content, tools);
    } else {
      var first := Process(marshal, c, r);
      ContinuesTail(x, ts, chunks);
      Regroup(r, later, chunks, t, x, ts);
      DistinctPrefix(ts + r.tools, AllTools(later));
      EncodableParts(marshal, r.tools, AllTools(later));
      BodyInStep(marshal, c, m, t, x, ts, r);
      assert first.state.(first := false) == first.state;
      OutOfOrderDiffers(marshal, first.state, ApplyAll(m, first.events), t + r.thinking, x + r.content, ts + r.tools,
                        later, thinking, content, tools);
      ApplyConcat(m, first.events, Stream(marshal, first.state, later).events);
    }
  }

  // ---------------------------------------------------------------- tools that are not sent

  /** The identifiers of the tool blocks. */
  function UseIds(blocks: seq<Block>): seq<string> {
    if blocks == [] then []
    else
      var last := blocks[|blocks| - 1];
      UseIds(blocks[..|blocks| - 1]) + (if last.ToolUse? then [last.id] else [])
  }

  lemma {:induction false} UseIdsOfExtended(blocks: seq<Block>, i: nat, d: Delta)
    requires i < |blocks|
    ensures UseIds(blocks[i := Extend(blocks[i], d)]) == UseIds(blocks)
  {
    var n := |blocks| - 1;
    var changed := blocks[i := Extend(blocks[i], d)];
    if i < n {
      assert changed[..n] == blocks[..n][i := Extend(blocks[..n][i], d)];
      UseIdsOfExtended(blocks[..n], i, d);
    } else {
      assert changed[..n] == blocks[..n];
    }
  }

  /** The accumulated tool blocks are those that were sent. */
  lemma {:induction false} UseIdsAreSent(m: Message, events: seq<Event>)
    ensures UseIds(ApplyAll(m, events).blocks) == UseIds(m.blocks) + ToolIds(events)
    decreases |events|
  {
    if events != [] {
      var e := events[0];
      UseIdsAreSent(Apply(m, e), events[1..]);
      if e.BlockStart? {
        assert (m.blocks + [Empty(e.kind)])[..|m.blocks|] == m.blocks;
      } else if e.BlockDelta? && 0 <= e.index < |m.blocks| {
        UseIdsOfExtended(m.blocks, e.index, e.delta);
      }
    }
  }

  lemma ProseHasNoUses<A>(marshal: A -> Option<string>, t: string, x: string, none: seq<ToolCall<A>>)
    requires none == []
    ensures UseIds(Blocks(marshal, t, x, none)) == []
  {
    var blocks := Blocks(marshal, t, x, none);
    assert ToolBlocks(marshal, none) == [];
    assert forall i :: 0 <= i < |blocks| ==> !blocks[i].ToolUse?;
    NoUses(blocks);
  }

  lemma UseIdsOfOneMore(blocks: seq<Block>, id: string, name: string, input: string)
    ensures UseIds(blocks + [ToolUse(id, name, input)]) == UseIds(blocks) + [id]
  {
    assert (blocks + [ToolUse(id, name, input)])[..|blocks|] == blocks;
  }

  lemma {:induction false} UseIdsOfBlocks<A>(marshal: A -> Option<string>, t: string, x: string, ts: seq<ToolCall<A>>)
    ensures var ids := UseIds(Blocks(marshal, t, x, ts));
            |ids| == |ts| && forall i :: 0 <= i < |ts| ==> ids[i] == ts[i].id
  {
    if ts == [] {
      ProseHasNoUses(marshal, t, x, ts);
    } else {
      var n := |ts| - 1;
      UseIdsOfBlocks(marshal, t, x, ts[..n]);
      assert ts == ts[..n] + [ts[n]];
      BlocksGrow(marshal, t, x, ts[..n], ts[n]);
      UseIdsOfOneMore(Blocks(marshal, t, x, ts[..n]), ts[n].id, ts[n].name, Encoded(marshal, ts[n].args));
    }
  }

  lemma {:induction false} NoUses(blocks: seq<Block>)
    requires forall i :: 0 <= i < |blocks| ==> !blocks[i].ToolUse?
    ensures UseIds(blocks) == []
  {
    if blocks != [] {
      NoUses(blocks[..|blocks| - 1]);
    }
  }

  /** `id` belongs to a tool call that can be encoded. */
  ghost predicate Sendable<A(!new)>(marshal: A -> Option<string>, tools: seq<ToolCall<A>>, id: string) {
    exists i :: 0 <= i < |tools| && tools[i].id == id && marshal(tools[i].args).Some?
  }

  lemma {:induction false} ToolsSendSendable<A(!new)>(marshal: A -> Option<string>, c: State, tools: seq<ToolCall<A>>,
                                                      id: string)
    requires id in Tools(marshal, c, tools).state.sent && id !in c.sent
    ensures Sendable(marshal, tools, id)
    decreases |tools|
  {
    var first := Tool(marshal, c, tools[0]);
    if id in first.state.sent {
      assert tools[0].id == id;
    } else {
      ToolsSendSendable(marshal, first.state, tools[1..], id);
      var i :| 0 <= i < |tools[1..]| && tools[1..][i].id == id && marshal(tools[1..][i].args).Some?;
      assert tools[i + 1].id == id;
    }
  }

  lemma SendableConcat<A(!new)>(marshal: A -> Option<string>, a: seq<ToolCall<A>>, b: seq<ToolCall<A>>, id: string)
    requires Sendable(marshal, a, id) || Sendable(marshal, b, id)
    ensures Sendable(marshal, a + b, id)
  {
    if Sendable(marshal, a, id) {
      var i :| 0 <= i < |a| && a[i].id == id && marshal(a[i].args).Some?;
      assert (a + b)[i] == a[i];
    } else {
      var i :| 0 <= i < |b| && b[i].id == id && marshal(b[i].args).Some?;
      assert (a + b)[|a| + i] == b[i];
    }
  }

  lemma {:induction false} StreamSendsSendable<A(!new)>(marshal: A -> Option<string>, c: State, chunks: seq<Chunk<A>>,
                                                        id: string)
    requires id in Stream(marshal, c, chunks).state.sent && id !in c.sent
    ensures Sendable(marshal, AllTools(chunks), id)
    decreases |chunks|
  {
    var r := chunks[0];
    var first := Process(marshal, c, r);
    if id in first.state.sent {
      var b := Think(Begin(c, r.promptCount).state, r.thinking).state;
      ToolsSendSendable(marshal, AnthropicStream.Text(b, r.content).state, r.tools, id);
    } else {
      StreamSendsSendable(marshal, first.state, chunks[1..], id);
    }
    SendableConcat(marshal, r.tools, AllTools(chunks[1..]), id);
  }

  /** If the accumulated blocks are those of the whole response, then what was sent are its tools. */
  lemma SentAreTools<A(!new)>(marshal: A -> Option<string>, m: Message, events: seq<Event>, t: string, x: string,
                              tools: seq<ToolCall<A>>)
    requires m.blocks == [] && ApplyAll(m, events).blocks == Blocks(marshal, t, x, tools)
    ensures |ToolIds(events)| == |tools| && forall i :: 0 <= i < |tools| ==> ToolIds(events)[i] == tools[i].id
  {
    UseIdsAreSent(m, events);
    UseIdsOfBlocks(marshal, t, x, tools);
    assert UseIds(m.blocks) + ToolIds(events) == ToolIds(events);
  }

  /** If every tool was sent, no identifier repeats and all arguments can be encoded. */
  lemma SentMeansDistinct<A(!new)>(marshal: A -> Option<string>, ids: seq<string>, sent: set<string>,
                                   tools: seq<ToolCall<A>>)
    requires Sends({}, ids, sent) && (forall id :: id in sent ==> Sendable(marshal, tools, id))
    requires |ids| == |tools| && forall i :: 0 <= i < |tools| ==> ids[i] == tools[i].id
    ensures DistinctIds(tools) && Encodable(marshal, tools)
  {
    forall i, j | 0 <= i < j < |tools|
      ensures tools[i].id != tools[j].id
    {
      assert ids[i] != ids[j];
    }
    forall k | 0 <= k < |tools|
      ensures marshal(tools[k].args).Some?
    {
      assert ids[k] in sent;
      var i :| 0 <= i < |tools| && tools[i].id == ids[k] && marshal(tools[i].args).Some?;
      assert ids[i] == ids[k];
    }
  }

  lemma SameToolsMeansDistinct<A(!new)>(marshal: A -> Option<string>, c: State, m: Message, chunks: seq<Chunk<A>>,
                                        t: string, x: string)
    requires c.sent == {} && m.blocks == []
    requires ApplyAll(m, Stream(marshal, c, chunks).events).blocks == Blocks(marshal, t, x, AllTools(chunks))
    ensures DistinctIds(AllTools(chunks)) && Encodable(marshal, AllTools(chunks))
  {
    var o := Stream(marshal, c, chunks);
    SentAreTools(marshal, m, o.events, t, x, AllTools(chunks));
    StreamSends(marshal, c, chunks);
    forall id | id in o.state.sent
      ensures Sendable(marshal, AllTools(chunks), id)
    {
      StreamSendsSendable(marshal, c, chunks, id);
    }
    SentMeansDistinct(marshal, ToolIds(o.events), o.state.sent, AllTools(chunks));
  }

  /** From the start, to go on in order is to be in order. */
  lemma ContinuesFromStart<A(!new)>(chunks: seq<Chunk<A>>, none: seq<ToolCall<A>>)
    requires none == []
    ensures Continues("", none, chunks) <==> Ordered(chunks)
    ensures none + AllTools(chunks) == AllTools(chunks) && "" + AllThinking(chunks) == AllThinking(chunks)
  {
  }

  /** The other half: a run whose accumulated stream has the blocks of the whole response. */
  lemma SameBlocksMeansOrdered<A(!new)>(marshal: A -> Option<string>, c: State, m: Message, chunks: seq<Chunk<A>>)
    requires chunks != [] && InStep(marshal, c.(first := false), m, "", "", [])
    requires ApplyAll(m, Stream(marshal, c, chunks).events).blocks
             == Blocks(marshal, AllThinking(chunks), AllContent(chunks), AllTools(chunks))
    ensures Ordered(chunks) && DistinctIds(AllTools(chunks)) && Encodable(marshal, AllTools(chunks))
  {
    var none: seq<ToolCall<A>> := [];
    SameToolsMeansDistinct(marshal, c, m, chunks, AllThinking(chunks), AllContent(chunks));
    ContinuesFromStart(chunks, none);
    if !Ordered(chunks) {
      OutOfOrderDiffers(marshal, c, m, "", "", none, chunks, AllThinking(chunks), AllContent(chunks), AllTools(chunks));
    }
  }

  /**
   * For every run: the accumulated stream is the conversion of the whole response if and only if thinking, text and
   * tools come in this order, no tool identifier repeats and all arguments can be encoded.
   */
  lemma StreamingRefinesWholeIff<A(!new)>(marshal: A -> Option<string>, estimated: int, chunks: seq<Chunk<A>>)
    requires DoneOnlyLast(chunks)
    ensures ApplyAll(Message([], "", 0, 0), Stream(marshal, Initial(estimated), chunks).events)
            == ToMessage(marshal, Joined(chunks))
            <==> Ordered(chunks) && DistinctIds(AllTools(chunks)) && Encodable(marshal, AllTools(chunks))
  {
    var c, m := Initial(estimated), Message([], "", 0, 0);
    if Ordered(chunks) && DistinctIds(AllTools(chunks)) && Encodable(marshal, AllTools(chunks)) {
      StreamingRefinesWhole(marshal, estimated, chunks);
    }
    if ApplyAll(m, Stream(marshal, c, chunks).events) == ToMessage(marshal, Joined(chunks)) {
      SameBlocksMeansOrdered(marshal, c, m, chunks);
    }
  }

  /** Two chunks whose accumulated stream is not the whole response: the same tool call twice. */
  lemma RepeatedToolExample(marshal: string -> Option<string>)
    ensures var call := ToolCall("1", "f", "x");
            var a, b := Chunk("", "", [call], false, "", 0, 0), Chunk("", "", [call], true, "", 0, 0);
            var chunks: seq<Chunk<string>> := [a, b];
            ApplyAll(Message([], "", 0, 0), Stream(marshal, Initial(0), chunks).events)
            != ToMessage(marshal, Joined(chunks))
  {
    var call := ToolCall("1", "f", "x");
    var a, b := Chunk("", "", [call], false, "", 0, 0), Chunk("", "", [call], true, "", 0, 0);
    var chunks: seq<Chunk<string>> := [a, b];
    assert chunks[1..] == [b] && [b][1..] == [];
    assert AllTools([b]) == [call] + [];
    assert AllTools(chunks) == [call] + AllTools([b]);
    assert AllTools(chunks)[0].id == AllTools(chunks)[1].id;
    StreamingRefinesWholeIff(marshal, 0, chunks);
  }
}

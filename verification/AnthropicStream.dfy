/** Conversion of a chat stream into Anthropic's event stream, and of a whole response into one message. */
module AnthropicStream {
  import opened Optional

  datatype ToolCall<A> = ToolCall(id: string, name: string, args: A)

  /** One response of the chat backend: the whole answer, or a piece of it. */
  datatype Chunk<A> = Chunk(thinking: string, content: string, tools: seq<ToolCall<A>>,
                            done: bool, doneReason: string, promptCount: int, evalCount: int)

  datatype Kind = ThinkingBlock | TextBlock | ToolBlock(id: string, name: string)

  datatype Delta = ThinkingDelta(thinking: string) | TextDelta(text: string) | InputJsonDelta(json: string)

  datatype Event =
    | MessageStart(inputTokens: int)
    | BlockStart(index: int, kind: Kind)
    | BlockDelta(index: int, delta: Delta)
    | BlockStop(index: int)
    | MessageDelta(stopReason: string, usageIn: int, usageOut: int)
    | MessageStop

  const STOP := "stop"
  const LENGTH := "length"
  const TOOL_USE := "tool_use"
  const END_TURN := "end_turn"
  const MAX_TOKENS := "max_tokens"
  const STOP_SEQUENCE := "stop_sequence"

  function MapStopReason(reason: string, hasToolCalls: bool): string {
    if hasToolCalls then TOOL_USE
    else if reason == STOP then END_TURN
    else if reason == LENGTH then MAX_TOKENS
    else if reason != "" then STOP_SEQUENCE
    else ""
  }

  /** The fields of the converter; `sent` are the identifiers of the tool calls already sent. */
  datatype State = State(estimated: int, first: bool, index: int, thinkingStarted: bool, thinkingDone: bool,
                         textStarted: bool, sent: set<string>)

  function Initial(estimated: int): State {
    State(estimated, true, 0, false, false, false, {})
  }

  datatype Output = Output(state: State, events: seq<Event>)

  function Begin(c: State, promptCount: int): Output {
    if c.first then
      var tokens := if promptCount == 0 && c.estimated > 0 then c.estimated else promptCount;
      Output(c.(first := false), [MessageStart(tokens)])
    else Output(c, [])
  }

  function Think(c: State, thinking: string): Output {
    if thinking != "" && !c.thinkingDone then
      Output(c.(thinkingStarted := true),
             (if c.thinkingStarted then [] else [BlockStart(c.index, ThinkingBlock)])
                 + [BlockDelta(c.index, ThinkingDelta(thinking))])
    else Output(c, [])
  }

  /** Ends the thinking block if it is open. */
  function CloseThinking(c: State): Output {
    if c.thinkingStarted && !c.thinkingDone then
      Output(c.(thinkingDone := true, index := c.index + 1), [BlockStop(c.index)])
    else Output(c, [])
  }

  function Text(c0: State, content: string): Output {
    if content != "" then
      var closed := CloseThinking(c0);
      var c := closed.state;
      Output(c.(textStarted := true),
             closed.events + (if c.textStarted then [] else [BlockStart(c.index, TextBlock)])
                 + [BlockDelta(c.index, TextDelta(content))])
    else Output(c0, [])
  }

  function CloseText(c: State): Output {
    if c.textStarted then Output(c.(textStarted := false, index := c.index + 1), [BlockStop(c.index)])
    else Output(c, [])
  }

  /** One tool call: closes what is open, then sends a complete block, unless its arguments cannot be encoded. */
  function Tool<A>(marshal: A -> Option<string>, c0: State, t: ToolCall<A>): Output {
    if t.id in c0.sent then Output(c0, [])
    else
      var a := CloseThinking(c0);
      var b := CloseText(a.state);
      var c := b.state;
      match marshal(t.args)
      case None => Output(c, a.events + b.events)
      case Some(json) =>
        Output(c.(sent := c.sent + {t.id}, index := c.index + 1),
               a.events + b.events
               + [BlockStart(c.index, ToolBlock(t.id, t.name)), BlockDelta(c.index, InputJsonDelta(json)),
                  BlockStop(c.index)])
  }

  function Tools<A>(marshal: A -> Option<string>, c: State, tools: seq<ToolCall<A>>): Output
    decreases |tools|
  {
    if tools == [] then Output(c, [])
    else
      var first := Tool(marshal, c, tools[0]);
      var rest := Tools(marshal, first.state, tools[1..]);
      Output(rest.state, first.events + rest.events)
  }

  lemma {:induction false} ToolsSnoc<A>(marshal: A -> Option<string>, c: State, ts: seq<ToolCall<A>>, t: ToolCall<A>)
    ensures var a := Tools(marshal, c, ts); var b := Tool(marshal, a.state, t);
            Tools(marshal, c, ts + [t]) == Output(b.state, a.events + b.events)
    decreases |ts|
  {
    if ts == [] {
      assert [t][1..] == [];
      var b := Tool(marshal, c, t);
      assert b.events + [] == [] + b.events;
    } else {
      var first := Tool(marshal, c, ts[0]);
      assert (ts + [t])[1..] == ts[1..] + [t];
      ToolsSnoc(marshal, first.state, ts[1..], t);
      var a := Tools(marshal, first.state, ts[1..]);
      var b := Tool(marshal, a.state, t);
      assert first.events + (a.events + b.events) == (first.events + a.events) + b.events;
    }
  }

  /** The closing events of the last chunk; the state is not used afterwards. */
  function Finish<A>(c: State, r: Chunk<A>): seq<Event> {
    if r.done then
      (if c.textStarted || (c.thinkingStarted && !c.thinkingDone) then [BlockStop(c.index)] else [])
      + [MessageDelta(MapStopReason(r.doneReason, c.sent != {}), r.promptCount, r.evalCount), MessageStop]
    else []
  }

  /** `Process`: the events of one chunk. */
  function Process<A>(marshal: A -> Option<string>, c: State, r: Chunk<A>): Output {
    var a := Begin(c, r.promptCount);
    var b := Think(a.state, r.thinking);
    var d := Text(b.state, r.content);
    var e := Tools(marshal, d.state, r.tools);
    Output(e.state, a.events + b.events + d.events + e.events + Finish(e.state, r))
  }

  class StreamConverter<A> {
    const marshal: A -> Option<string>
    const estimated: int
    var firstWrite: bool
    var contentIndex: int
    var inputTokens: int
    var outputTokens: int
    var thinkingStarted: bool
    var thinkingDone: bool
    var textStarted: bool
    var toolCallsSent: set<string>

    ghost function View(): State
      reads this
    {
      State(estimated, firstWrite, contentIndex, thinkingStarted, thinkingDone, textStarted, toolCallsSent)
    }

    constructor (marshal: A -> Option<string>, estimated: int)
      ensures View() == Initial(estimated) && this.marshal == marshal
    {
      this.marshal, this.estimated := marshal, estimated;
      firstWrite, contentIndex, inputTokens, outputTokens := true, 0, 0, 0;
      thinkingStarted, thinkingDone, textStarted, toolCallsSent := false, false, false, {};
    }

    method StopThinking() returns (events: seq<Event>)
      modifies this
      ensures Output(View(), events) == CloseThinking(old(View()))
    {
      events := [];
      if thinkingStarted && !thinkingDone {
        thinkingDone := true;
        events := [BlockStop(contentIndex)];
        contentIndex := contentIndex + 1;
      }
    }

    method ProcessTool(t: ToolCall<A>) returns (events: seq<Event>)
      modifies this
      ensures Output(View(), events) == Tool(marshal, old(View()), t)
    {
      if t.id in toolCallsSent {
        return [];
      }
      events := StopThinking();
      if textStarted {
        events := events + [BlockStop(contentIndex)];
        contentIndex := contentIndex + 1;
        textStarted := false;
      }
      match marshal(t.args)
      case None =>
      case Some(json) =>
        events := events
                  + [BlockStart(contentIndex, ToolBlock(t.id, t.name)), BlockDelta(contentIndex, InputJsonDelta(json)),
                     BlockStop(contentIndex)];
        toolCallsSent := toolCallsSent + {t.id};
        contentIndex := contentIndex + 1;
    }

    method ProcessTools(tools: seq<ToolCall<A>>) returns (events: seq<Event>)
      modifies this
      ensures Output(View(), events) == Tools(marshal, old(View()), tools)
    {
      events := [];
      for i := 0 to |tools|
        invariant Output(View(), events) == Tools(marshal, old(View()), tools[..i])
      {
        ToolsSnoc(marshal, old(View()), tools[..i], tools[i]);
        assert tools[..i + 1] == tools[..i] + [tools[i]];
        var more := ProcessTool(tools[i]);
        events := events + more;
      }
      assert tools[..|tools|] == tools;
    }

    method StartMessage(promptCount: int) returns (events: seq<Event>)
      modifies this
      ensures Output(View(), events) == Begin(old(View()), promptCount)
    {
      events := [];
      if firstWrite {
        firstWrite := false;
        inputTokens := promptCount;
        if inputTokens == 0 && estimated > 0 {
          inputTokens := estimated;
        }
        events := [MessageStart(inputTokens)];
      }
    }

    method ProcessThinking(thinking: string) returns (events: seq<Event>)
      modifies this
      ensures Output(View(), events) == Think(old(View()), thinking)
    {
      events := [];
      if thinking != "" && !thinkingDone {
        if !thinkingStarted {
          thinkingStarted := true;
          events := [BlockStart(contentIndex, ThinkingBlock)];
        }
        events := events + [BlockDelta(contentIndex, ThinkingDelta(thinking))];
      }
    }

    method ProcessText(content: string) returns (events: seq<Event>)
      modifies this
      ensures Output(View(), events) == Text(old(View()), content)
    {
      events := [];
      if content != "" {
        events := StopThinking();
        if !textStarted {
          textStarted := true;
          events := events + [BlockStart(contentIndex, TextBlock)];
        }
        events := events + [BlockDelta(contentIndex, TextDelta(content))];
      }
    }

    method FinishMessage(r: Chunk<A>) returns (events: seq<Event>)
      modifies this`inputTokens, this`outputTokens
      ensures events == Finish(View(), r)
      ensures r.done ==> inputTokens == r.promptCount && outputTokens == r.evalCount
    {
      events := [];
      if r.done {
        if textStarted {
          events := [BlockStop(contentIndex)];
        } else if thinkingStarted && !thinkingDone {
          events := [BlockStop(contentIndex)];
        }
        inputTokens, outputTokens := r.promptCount, r.evalCount;
        var reason := MapStopReason(r.doneReason, toolCallsSent != {});
        events := events + [MessageDelta(reason, inputTokens, outputTokens), MessageStop];
      }
    }

    /** Converts one chunk. */
    method Convert(r: Chunk<A>) returns (events: seq<Event>)
      modifies this
      ensures Output(View(), events) == Process(marshal, old(View()), r)
      ensures r.done ==> inputTokens == r.promptCount && outputTokens == r.evalCount
    {
      var a := StartMessage(r.promptCount);
      var b := ProcessThinking(r.thinking);
      var d := ProcessText(r.content);
      var e := ProcessTools(r.tools);
      var f := FinishMessage(r);
      events := a + b + d + e + f;
    }
  }

  // ---------------------------------------------------------------- whole runs

  /** The events of a list of chunks. */
  function Stream<A>(marshal: A -> Option<string>, c: State, chunks: seq<Chunk<A>>): Output
    decreases |chunks|
  {
    if chunks == [] then Output(c, [])
    else
      var first := Process(marshal, c, chunks[0]);
      var rest := Stream(marshal, first.state, chunks[1..]);
      Output(rest.state, first.events + rest.events)
  }

  predicate DoneOnlyLast<A(!new)>(chunks: seq<Chunk<A>>) {
    chunks != [] && forall i :: 0 <= i < |chunks| ==> (chunks[i].done <==> i == |chunks| - 1)
  }
}

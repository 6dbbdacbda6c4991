/** The event stream is well bracketed over whole runs. */
module AnthropicWellFormed {
  import opened Optional
  import opened AnthropicStream

  /** A client that checks the event stream: what it has seen so far. */
  datatype Scan = Fresh | Idle(next: int) | Open(at: int, kind: Kind) | Summed | Stopped | Bad

  predicate Matches(kind: Kind, d: Delta) {
    match kind
    case ThinkingBlock => d.ThinkingDelta?
    case TextBlock => d.TextDelta?
    case ToolBlock(_, _) => d.InputJsonDelta?
  }

  /** One start, then blocks numbered 0, 1, 2 and so on that do not overlap, then the summary and the stop. */
  function Check(s: Scan, e: Event): Scan {
    match e
    case MessageStart(_) => if s.Fresh? then Idle(0) else Bad
    case BlockStart(i, kind) => if s == Idle(i) then Open(i, kind) else Bad
    case BlockDelta(i, d) => if s.Open? && s.at == i && Matches(s.kind, d) then s else Bad
    case BlockStop(i) => if s.Open? && s.at == i then Idle(i + 1) else Bad
    case MessageDelta(_, _, _) => if s.Idle? then Summed else Bad
    case MessageStop => if s.Summed? then Stopped else Bad
  }

  function CheckAll(s: Scan, events: seq<Event>): Scan
    decreases |events|
  {
    if events == [] then s else CheckAll(Check(s, events[0]), events[1..])
  }

  lemma {:induction false} CheckConcat(s: Scan, a: seq<Event>, b: seq<Event>)
    ensures CheckAll(s, a + b) == CheckAll(CheckAll(s, a), b)
    decreases |a|
  {
    if a == [] {
      assert a + b == b;
    } else {
      assert (a + b)[1..] == a[1..] + b;
      CheckConcat(Check(s, a[0]), a[1..], b);
    }
  }

  lemma {:induction false} BadStaysBad(events: seq<Event>)
    ensures CheckAll(Bad, events) == Bad
  {
    if events != [] {
      BadStaysBad(events[1..]);
    }
  }

  lemma CheckOne(s: Scan, e: Event)
    ensures CheckAll(s, [e]) == Check(s, e)
  {
    assert [e][1..] == [];
  }

  /** At most one block is open, and nothing has been sent before the first chunk. */
  predicate Coherent(c: State) {
    && !(c.textStarted && c.thinkingStarted && !c.thinkingDone)
    && (c.thinkingDone ==> c.thinkingStarted)
    && (c.first ==> !c.textStarted && !c.thinkingStarted && c.index == 0 && c.sent == {})
  }

  /** What the client must have seen, given the converter's fields. */
  function ScanOf(c: State): Scan {
    if c.first then Fresh
    else if c.textStarted then Open(c.index, TextBlock)
    else if c.thinkingStarted && !c.thinkingDone then Open(c.index, ThinkingBlock)
    else Idle(c.index)
  }

  /** Thinking does not arrive while a text block is open and no thinking block was ever started. */
  predicate Guard<A>(c: State, r: Chunk<A>) {
    r.thinking != "" && !c.thinkingDone ==> !c.textStarted
  }

  lemma BeginChecks(c: State, promptCount: int)
    requires Coherent(c)
    ensures var o := Begin(c, promptCount);
            Coherent(o.state) && !o.state.first && CheckAll(ScanOf(c), o.events) == ScanOf(o.state)
            && o.state == c.(first := false)
  {
    if c.first {
      CheckOne(Fresh, Begin(c, promptCount).events[0]);
    }
  }

  lemma ThinkChecks(c: State, thinking: string)
    requires Coherent(c) && !c.first
    ensures var o := Think(c, thinking);
            if thinking != "" && !c.thinkingDone && c.textStarted then CheckAll(ScanOf(c), o.events) == Bad
            else Coherent(o.state) && !o.state.first && CheckAll(ScanOf(c), o.events) == ScanOf(o.state)
  {
    if thinking != "" && !c.thinkingDone {
      var start := if c.thinkingStarted then [] else [BlockStart(c.index, ThinkingBlock)];
      var delta := BlockDelta(c.index, ThinkingDelta(thinking));
      CheckConcat(ScanOf(c), start, [delta]);
      CheckOne(ScanOf(c), BlockStart(c.index, ThinkingBlock));
      CheckOne(CheckAll(ScanOf(c), start), delta);
    }
  }

  lemma CloseThinkingChecks(c: State)
    requires Coherent(c) && !c.first
    ensures var o := CloseThinking(c);
            && Coherent(o.state) && !o.state.first && CheckAll(ScanOf(c), o.events) == ScanOf(o.state)
            && (o.state.textStarted == c.textStarted) && (o.state.thinkingStarted ==> o.state.thinkingDone)
  {
    CheckOne(ScanOf(c), BlockStop(c.index));
  }

  lemma CloseTextChecks(c: State)
    requires Coherent(c) && !c.first
    ensures var o := CloseText(c);
            Coherent(o.state) && !o.state.first && !o.state.textStarted
                && CheckAll(ScanOf(c), o.events) == ScanOf(o.state)
  {
    CheckOne(ScanOf(c), BlockStop(c.index));
  }

  lemma TextChecks(c0: State, content: string)
    requires Coherent(c0) && !c0.first
    ensures var o := Text(c0, content);
            Coherent(o.state) && !o.state.first && CheckAll(ScanOf(c0), o.events) == ScanOf(o.state)
  {
    if content != "" {
      CloseThinkingChecks(c0);
      var closed := CloseThinking(c0);
      var c := closed.state;
      var start := if c.textStarted then [] else [BlockStart(c.index, TextBlock)];
      var delta := BlockDelta(c.index, TextDelta(content));
      CheckConcat(ScanOf(c0), closed.events + start, [delta]);
      CheckConcat(ScanOf(c0), closed.events, start);
      CheckOne(ScanOf(c), BlockStart(c.index, TextBlock));
      CheckOne(CheckAll(ScanOf(c), start), delta);
    }
  }

  lemma ToolBlockChecks(n: int, kind: Kind, d: Delta)
    requires Matches(kind, d)
    ensures CheckAll(Idle(n), [BlockStart(n, kind), BlockDelta(n, d), BlockStop(n)]) == Idle(n + 1)
  {
    var events := [BlockStart(n, kind), BlockDelta(n, d), BlockStop(n)];
    assert events[1..] == [BlockDelta(n, d), BlockStop(n)] && events[1..][1..] == [BlockStop(n)];
    CheckOne(Open(n, kind), BlockStop(n));
  }

  lemma ToolChecks<A>(marshal: A -> Option<string>, c0: State, t: ToolCall<A>)
    requires Coherent(c0) && !c0.first
    ensures var o := Tool(marshal, c0, t);
            Coherent(o.state) && !o.state.first && CheckAll(ScanOf(c0), o.events) == ScanOf(o.state)
  {
    if t.id !in c0.sent {
      CloseThinkingChecks(c0);
      var a := CloseThinking(c0);
      CloseTextChecks(a.state);
      var b := CloseText(a.state);
      CheckConcat(ScanOf(c0), a.events, b.events);
      if marshal(t.args).Some? {
        var n, kind, d := b.state.index, ToolBlock(t.id, t.name), InputJsonDelta(marshal(t.args).value);
        CheckConcat(ScanOf(c0), a.events + b.events, [BlockStart(n, kind), BlockDelta(n, d), BlockStop(n)]);
        ToolBlockChecks(n, kind, d);
      }
    }
  }

  lemma {:induction false} ToolsCheck<A>(marshal: A -> Option<string>, c: State, tools: seq<ToolCall<A>>)
    requires Coherent(c) && !c.first
    ensures var o := Tools(marshal, c, tools);
            Coherent(o.state) && !o.state.first && CheckAll(ScanOf(c), o.events) == ScanOf(o.state)
    decreases |tools|
  {
    if tools != [] {
      ToolChecks(marshal, c, tools[0]);
      var first := Tool(marshal, c, tools[0]);
      ToolsCheck(marshal, first.state, tools[1..]);
      CheckConcat(ScanOf(c), first.events, Tools(marshal, first.state, tools[1..]).events);
    }
  }

  lemma FinishChecks<A>(c: State, r: Chunk<A>)
    requires Coherent(c) && !c.first
    ensures CheckAll(ScanOf(c), Finish(c, r)) == if r.done then Stopped else ScanOf(c)
  {
    if r.done {
      var stop := if c.textStarted || (c.thinkingStarted && !c.thinkingDone) then [BlockStop(c.index)] else [];
      var summary := MessageDelta(MapStopReason(r.doneReason, c.sent != {}), r.promptCount, r.evalCount);
      CheckConcat(ScanOf(c), stop, [summary, MessageStop]);
      CheckOne(ScanOf(c), BlockStop(c.index));
      assert [summary, MessageStop][1..] == [MessageStop];
      CheckOne(Summed, MessageStop);
    }
  }

  /** One chunk: the client stays in step with the converter if and only if the guard holds. */
  lemma ProcessChecks<A>(marshal: A -> Option<string>, c: State, r: Chunk<A>)
    requires Coherent(c)
    ensures var o := Process(marshal, c, r);
            if Guard(c, r) then
              && Coherent(o.state) && !o.state.first
              && CheckAll(ScanOf(c), o.events) == (if r.done then Stopped else ScanOf(o.state))
            else CheckAll(ScanOf(c), o.events) == Bad
  {
    var a := Begin(c, r.promptCount);
    var b := Think(a.state, r.thinking);
    var d := Text(b.state, r.content);
    var e := Tools(marshal, d.state, r.tools);
    var f := Finish(e.state, r);
    BeginChecks(c, r.promptCount);
    ThinkChecks(a.state, r.thinking);
    CheckConcat(ScanOf(c), a.events, b.events);
    CheckConcat(ScanOf(c), a.events + b.events, d.events);
    CheckConcat(ScanOf(c), a.events + b.events + d.events, e.events);
    CheckConcat(ScanOf(c), a.events + b.events + d.events + e.events, f);
    if Guard(c, r) {
      TextChecks(b.state, r.content);
      ToolsCheck(marshal, d.state, r.tools);
      FinishChecks(e.state, r);
    } else {
      BadStaysBad(d.events);
      BadStaysBad(e.events);
      BadStaysBad(f);
    }
  }

  /** Every chunk of the run meets the guard in the state it arrives in. */
  predicate Guarded<A(!new)>(marshal: A -> Option<string>, c: State, chunks: seq<Chunk<A>>)
    decreases |chunks|
  {
    chunks == [] || (Guard(c, chunks[0]) && Guarded(marshal, Process(marshal, c, chunks[0]).state, chunks[1..]))
  }

  lemma {:induction false} StreamChecks<A(!new)>(marshal: A -> Option<string>, c: State, chunks: seq<Chunk<A>>)
    requires Coherent(c) && DoneOnlyLast(chunks)
    ensures CheckAll(ScanOf(c), Stream(marshal, c, chunks).events)
              == if Guarded(marshal, c, chunks) then Stopped else Bad
    decreases |chunks|
  {
    var first := Process(marshal, c, chunks[0]);
    var rest := Stream(marshal, first.state, chunks[1..]);
    ProcessChecks(marshal, c, chunks[0]);
    CheckConcat(ScanOf(c), first.events, rest.events);
    if !Guard(c, chunks[0]) {
      BadStaysBad(rest.events);
    } else if |chunks| > 1 {
      StreamChecks(marshal, first.state, chunks[1..]);
    }
  }

  /** Whole runs: the stream is well formed if and only if every chunk meets the guard. */
  lemma StreamWellFormedIff<A(!new)>(marshal: A -> Option<string>, estimated: int, chunks: seq<Chunk<A>>)
    requires DoneOnlyLast(chunks)
    ensures CheckAll(Fresh, Stream(marshal, Initial(estimated), chunks).events) == Stopped <==>
              Guarded(marshal, Initial(estimated), chunks)
  {
    StreamChecks(marshal, Initial(estimated), chunks);
  }

  /** Non-empty thinking never arrives after text. */
  predicate ThinkingBeforeText<A(!new)>(chunks: seq<Chunk<A>>) {
    forall i, j :: 0 <= i < j < |chunks| && chunks[i].content != "" ==> chunks[j].thinking == ""
  }

  /** A text block that is open was opened by content of this very run. */
  lemma ToolOpensNoText<A>(marshal: A -> Option<string>, c: State, t: ToolCall<A>)
    ensures Tool(marshal, c, t).state.textStarted ==> c.textStarted
  {
  }

  lemma {:induction false} ToolsOpenNoText<A>(marshal: A -> Option<string>, c: State, tools: seq<ToolCall<A>>)
    ensures Tools(marshal, c, tools).state.textStarted ==> c.textStarted
    decreases |tools|
  {
    if tools != [] {
      ToolOpensNoText(marshal, c, tools[0]);
      ToolsOpenNoText(marshal, Tool(marshal, c, tools[0]).state, tools[1..]);
    }
  }

  /** The condition on inputs alone: it is enough that thinking comes before text. */
  lemma {:induction false} OrderedIsGuarded<A(!new)>(marshal: A -> Option<string>, c: State, chunks: seq<Chunk<A>>)
    requires ThinkingBeforeText(chunks)
    requires c.textStarted ==> forall j :: 0 <= j < |chunks| ==> chunks[j].thinking == ""
    ensures Guarded(marshal, c, chunks)
    decreases |chunks|
  {
    if chunks != [] {
      var r := chunks[0];
      var a := Begin(c, r.promptCount).state;
      var b := Think(a, r.thinking).state;
      ToolsOpenNoText(marshal, Text(b, r.content).state, r.tools);
      OrderedIsGuarded(marshal, Process(marshal, c, r).state, chunks[1..]);
    }
  }

  /** The smallest run that is not well formed: a text, then a thought. */
  lemma ThinkingAfterTextBreaks(marshal: string -> Option<string>)
    ensures var hello: Chunk<string> := Chunk("", "hello", [], false, "", 0, 0);
            var hmm: Chunk<string> := Chunk("hmm", "", [], true, "stop", 0, 0);
            CheckAll(Fresh, Stream(marshal, Initial(0), [hello, hmm]).events) == Bad
  {
    var hello: Chunk<string> := Chunk("", "hello", [], false, "", 0, 0);
    var hmm: Chunk<string> := Chunk("hmm", "", [], true, "stop", 0, 0);
    StreamChecks(marshal, Initial(0), [hello, hmm]);
    var c := Process(marshal, Initial(0), hello).state;
    assert c.textStarted && !c.thinkingDone;
    assert [hello, hmm][1..] == [hmm];
  }

  // ---------------------------------------------------------------- tool calls

  /** The identifiers of the tool blocks that were sent. */
  function ToolIds(events: seq<Event>): seq<string> {
    if events == [] then []
    else if events[0].BlockStart? && events[0].kind.ToolBlock? then [events[0].kind.id] + ToolIds(events[1..])
    else ToolIds(events[1..])
  }

  lemma {:induction false} ToolIdsConcat(a: seq<Event>, b: seq<Event>)
    ensures ToolIds(a + b) == ToolIds(a) + ToolIds(b)
  {
    if a == [] {
      assert a + b == b;
    } else {
      assert (a + b)[1..] == a[1..] + b;
      ToolIdsConcat(a[1..], b);
    }
  }

  predicate Distinct(ids: seq<string>) {
    forall i, j :: 0 <= i < j < |ids| ==> ids[i] != ids[j]
  }

  /** `ids` were sent between `before` and `after`, each once and none before. */
  predicate Sends(before: set<string>, ids: seq<string>, after: set<string>) {
    && Distinct(ids) && (forall i :: 0 <= i < |ids| ==> ids[i] !in before)
    && after == before + (set id | id in ids)
  }

  lemma SendsConcat(s: set<string>, a: seq<string>, t: set<string>, b: seq<string>, u: set<string>)
    requires Sends(s, a, t) && Sends(t, b, u)
    ensures Sends(s, a + b, u)
  {
    forall i, j | 0 <= i < j < |a + b|
      ensures (a + b)[i] != (a + b)[j]
    {
      assert i < |a| ==> a[i] in t;
    }
    forall j | 0 <= j < |b|
      ensures b[j] !in s
    {
    }
    assert forall id :: id in a + b <==> id in a || id in b;
  }

  lemma NoToolIds(events: seq<Event>)
    requires forall i :: 0 <= i < |events| ==> !(events[i].BlockStart? && events[i].kind.ToolBlock?)
    ensures ToolIds(events) == []
  {
  }

  lemma BlockIds(n: int, id: string, name: string, d: Delta)
    ensures ToolIds([BlockStart(n, ToolBlock(id, name)), BlockDelta(n, d), BlockStop(n)]) == [id]
  {
    var block := [BlockStart(n, ToolBlock(id, name)), BlockDelta(n, d), BlockStop(n)];
    NoToolIds(block[1..]);
  }

  lemma ClosingSendsNone(c: State)
    ensures var a := CloseThinking(c); var b := CloseText(a.state);
            ToolIds(a.events + b.events) == [] && b.state.sent == c.sent
  {
    NoToolIds(CloseThinking(c).events + CloseText(CloseThinking(c).state).events);
  }

  lemma ToolSends<A>(marshal: A -> Option<string>, c: State, t: ToolCall<A>)
    ensures var o := Tool(marshal, c, t); Sends(c.sent, ToolIds(o.events), o.state.sent)
  {
    if t.id !in c.sent {
      var a := CloseThinking(c);
      var b := CloseText(a.state);
      ClosingSendsNone(c);
      if marshal(t.args).Some? {
        var n, d := b.state.index, InputJsonDelta(marshal(t.args).value);
        BlockIds(n, t.id, t.name, d);
        ToolIdsConcat(a.events + b.events, [BlockStart(n, ToolBlock(t.id, t.name)), BlockDelta(n, d), BlockStop(n)]);
        assert [] + [t.id] == [t.id];
      }
    }
  }

  lemma {:induction false} ToolsSend<A>(marshal: A -> Option<string>, c: State, tools: seq<ToolCall<A>>)
    ensures var o := Tools(marshal, c, tools); Sends(c.sent, ToolIds(o.events), o.state.sent)
    decreases |tools|
  {
    if tools != [] {
      var first := Tool(marshal, c, tools[0]);
      var rest := Tools(marshal, first.state, tools[1..]);
      ToolSends(marshal, c, tools[0]);
      ToolsSend(marshal, first.state, tools[1..]);
      ToolIdsConcat(first.events, rest.events);
      SendsConcat(c.sent, ToolIds(first.events), first.state.sent, ToolIds(rest.events), rest.state.sent);
    }
  }

  lemma BeginSendsNone(c: State, promptCount: int)
    ensures var o := Begin(c, promptCount); ToolIds(o.events) == [] && o.state.sent == c.sent
  {
    NoToolIds(Begin(c, promptCount).events);
  }

  lemma ThinkSendsNone(c: State, thinking: string)
    ensures var o := Think(c, thinking); ToolIds(o.events) == [] && o.state.sent == c.sent
  {
    NoToolIds(Think(c, thinking).events);
  }

  lemma TextSendsNone(c: State, content: string)
    ensures var o := Text(c, content); ToolIds(o.events) == [] && o.state.sent == c.sent
  {
    NoToolIds(Text(c, content).events);
  }

  lemma FinishSendsNone<A>(c: State, r: Chunk<A>)
    ensures ToolIds(Finish(c, r)) == []
  {
    NoToolIds(Finish(c, r));
  }

  lemma IdsInTheMiddle(a: seq<Event>, b: seq<Event>, d: seq<Event>, e: seq<Event>, f: seq<Event>)
    requires ToolIds(a) == ToolIds(b) == ToolIds(d) == ToolIds(f) == []
    ensures ToolIds(a + b + d + e + f) == ToolIds(e)
  {
    ToolIdsConcat(a, b);
    ToolIdsConcat(a + b, d);
    ToolIdsConcat(a + b + d, e);
    ToolIdsConcat(a + b + d + e, f);
  }

  lemma ProcessSends<A>(marshal: A -> Option<string>, c: State, r: Chunk<A>)
    ensures var o := Process(marshal, c, r); Sends(c.sent, ToolIds(o.events), o.state.sent)
  {
    var a := Begin(c, r.promptCount);
    var b := Think(a.state, r.thinking);
    var d := Text(b.state, r.content);
    var e := Tools(marshal, d.state, r.tools);
    BeginSendsNone(c, r.promptCount);
    ThinkSendsNone(a.state, r.thinking);
    TextSendsNone(b.state, r.content);
    FinishSendsNone(e.state, r);
    ToolsSend(marshal, d.state, r.tools);
    IdsInTheMiddle(a.events, b.events, d.events, e.events, Finish(e.state, r));
  }

  /** Over a whole run, whatever it contains, each tool identifier is sent at most once. */
  lemma {:induction false} StreamSends<A(!new)>(marshal: A -> Option<string>, c: State, chunks: seq<Chunk<A>>)
    ensures var o := Stream(marshal, c, chunks); Sends(c.sent, ToolIds(o.events), o.state.sent)
    decreases |chunks|
  {
    if chunks != [] {
      var first := Process(marshal, c, chunks[0]);
      var rest := Stream(marshal, first.state, chunks[1..]);
      ProcessSends(marshal, c, chunks[0]);
      StreamSends(marshal, first.state, chunks[1..]);
      ToolIdsConcat(first.events, rest.events);
      SendsConcat(c.sent, ToolIds(first.events), first.state.sent, ToolIds(rest.events), rest.state.sent);
    }
  }

  /** The reason that a client is given, in terms of the reason that the backend gave. */
  predicate ReasonFits(reason: string, hasTools: bool, given: string) {
    && (given == "tool_use" <==> hasTools)
    && (!hasTools ==>
          && (given == "end_turn" <==> reason == "stop") && (given == "max_tokens" <==> reason == "length")
          && (given == "" <==> reason == "")
          && (given == "stop_sequence" <==> reason != "stop" && reason != "length" && reason != ""))
  }

  lemma MappedReasonFits(reason: string, hasToolCalls: bool)
    ensures ReasonFits(reason, hasToolCalls, MapStopReason(reason, hasToolCalls))
  {
  }

  /**
   * The summary comes second to last. It reports "tool_use" if and only if the run sent a tool block, and otherwise
   * what the last chunk's reason stands for; its counts are those of the last chunk.
   */
  lemma {:induction false} StopReasonFits<A(!new)>(marshal: A -> Option<string>, c: State, chunks: seq<Chunk<A>>)
    requires DoneOnlyLast(chunks) && c.sent == {}
    ensures var events, last := Stream(marshal, c, chunks).events, chunks[|chunks| - 1];
            && |events| >= 2 && events[|events| - 1] == MessageStop && events[|events| - 2].MessageDelta?
            && ReasonFits(last.doneReason, ToolIds(events) != [], events[|events| - 2].stopReason)
            && events[|events| - 2].usageIn == last.promptCount && events[|events| - 2].usageOut == last.evalCount
  {
    StreamSends(marshal, c, chunks);
    LastEvents(marshal, c, chunks);
    var o := Stream(marshal, c, chunks);
    MappedReasonFits(chunks[|chunks| - 1].doneReason, o.state.sent != {});
    if ToolIds(o.events) != [] {
      assert ToolIds(o.events)[0] in o.state.sent;
    }
  }

  /** The count that a client is given at the start: the backend's, or the estimate if the backend gives none. */
  lemma StartCounts<A(!new)>(marshal: A -> Option<string>, estimated: int, chunks: seq<Chunk<A>>)
    requires chunks != []
    ensures var events := Stream(marshal, Initial(estimated), chunks).events;
            && events != [] && events[0].MessageStart?
            && (chunks[0].promptCount != 0 || estimated <= 0 ==> events[0].inputTokens == chunks[0].promptCount)
            && (chunks[0].promptCount == 0 && estimated > 0 ==> events[0].inputTokens == estimated)
  {
    var c, r := Initial(estimated), chunks[0];
    var a := Begin(c, r.promptCount);
    assert Process(marshal, c, r).events[0] == a.events[0];
  }

  /**
   * A tool call that was not sent yet leaves no block open, even if its arguments cannot be encoded; a sent one is
   * skipped.
   */
  lemma ToolLeavesNothingOpen<A>(marshal: A -> Option<string>, c: State, t: ToolCall<A>)
    requires Coherent(c) && !c.first
    ensures var o := Tool(marshal, c, t);
            if t.id in c.sent then o == Output(c, [])
            else
              && CheckAll(ScanOf(c), o.events).Idle?
              && (t.id in o.state.sent <==> marshal(t.args).Some?)
  {
    ToolChecks(marshal, c, t);
    CloseThinkingChecks(c);
    CloseTextChecks(CloseThinking(c).state);
  }

  predicate EndsWith(events: seq<Event>, summary: Event) {
    |events| >= 2 && events[|events| - 1] == MessageStop && events[|events| - 2] == summary
  }

  lemma EndsWithConcat(a: seq<Event>, b: seq<Event>, summary: Event)
    requires EndsWith(b, summary)
    ensures EndsWith(a + b, summary)
  {
  }

  /** The summary of a run that ends with `r` in state `c`. */
  function Summary<A>(c: State, r: Chunk<A>): Event {
    MessageDelta(MapStopReason(r.doneReason, c.sent != {}), r.promptCount, r.evalCount)
  }

  lemma ProcessEnds<A>(marshal: A -> Option<string>, c: State, r: Chunk<A>)
    requires r.done
    ensures var o := Process(marshal, c, r); EndsWith(o.events, Summary(o.state, r))
  {
    var a := Begin(c, r.promptCount);
    var b := Think(a.state, r.thinking);
    var d := Text(b.state, r.content);
    var e := Tools(marshal, d.state, r.tools);
    EndsWithConcat(a.events + b.events + d.events + e.events, Finish(e.state, r), Summary(e.state, r));
  }

  lemma {:induction false} LastEvents<A(!new)>(marshal: A -> Option<string>, c: State, chunks: seq<Chunk<A>>)
    requires DoneOnlyLast(chunks)
    ensures var o := Stream(marshal, c, chunks); EndsWith(o.events, Summary(o.state, chunks[|chunks| - 1]))
    decreases |chunks|
  {
    var first := Process(marshal, c, chunks[0]);
    var rest := Stream(marshal, first.state, chunks[1..]);
    if |chunks| > 1 {
      LastEvents(marshal, first.state, chunks[1..]);
      EndsWithConcat(first.events, rest.events, Summary(rest.state, chunks[|chunks| - 1]));
    } else {
      ProcessEnds(marshal, c, chunks[0]);
      assert chunks[1..] == [] && first.events + [] == first.events;
    }
  }
}

/** Routing of parsed events to the content, the thinking and the tool text of a response. */
module HarmonyHandler {
  import opened HarmonyHeader
  import opened HarmonyParser
  import opened HarmonyChunking

  datatype Sink = Normal | Thinking | ToolCalling

  datatype ToolName = Unset | Named(name: string)

  /** Where text goes now, and the tool that was addressed last. */
  datatype Target = Target(sink: Sink, tool: ToolName)

  datatype Texts = Texts(content: string, thinking: string, toolText: string)

  datatype Routed = Routed(target: Target, texts: Texts)

  const NOTHING := Texts("", "", "")

  function Both(a: Texts, b: Texts): Texts {
    Texts(a.content + b.content, a.thinking + b.thinking, a.toolText + b.toolText)
  }

  /** A completed header selects the sink; an unknown channel leaves it as it was. */
  function Select(t: Target, h: Header): Target {
    if h.channel == "analysis" then
      if h.recipient != "" then Target(ToolCalling, Named(h.recipient)) else Target(Thinking, t.tool)
    else if h.channel == "commentary" then
      if h.recipient != "" then Target(ToolCalling, Named(h.recipient)) else Target(Normal, t.tool)
    else if h.channel == "final" then Target(Normal, t.tool)
    else t
  }

  function Deliver(sink: Sink, s: string): Texts {
    match sink
    case Normal => Texts(s, "", "")
    case Thinking => Texts("", s, "")
    case ToolCalling => Texts("", "", s)
  }

  function RouteOne(t: Target, e: Event): Routed {
    match e
    case MessageStart => Routed(t, NOTHING)
    case HeaderComplete(h) => Routed(Select(t, h), NOTHING)
    case ContentEmitted(s) => Routed(t, Deliver(t.sink, s))
    case MessageEnd => Routed(Target(Normal, t.tool), NOTHING)
  }

  function Route(t: Target, events: seq<Event>): Routed
    decreases |events|
  {
    if events == [] then Routed(t, NOTHING)
    else
      var first := RouteOne(t, events[0]);
      var rest := Route(first.target, events[1..]);
      Routed(rest.target, Both(first.texts, rest.texts))
  }

  /** The same routing, one character at a time. */
  function RouteAtoms(t: Target, atoms: Atoms): Routed
    decreases atoms
  {
    match atoms
    case Nil => Routed(t, NOTHING)
    case Start(rest) => RouteAtoms(t, rest)
    case Head(h, rest) => RouteAtoms(Select(t, h), rest)
    case Char(c, rest) =>
      var r := RouteAtoms(t, rest);
      Routed(r.target, Both(Deliver(t.sink, [c]), r.texts))
    case End(rest) => RouteAtoms(Target(Normal, t.tool), rest)
  }

  class Handler {
    const parser: Parser
    var target: Target

    constructor ()
      ensures fresh(parser) && parser.tags == HARMONY && parser.View() == State(LookingForMessageStart, "")
      ensures target == Target(Normal, Unset)
    {
      parser := new Parser(HARMONY);
      target := Target(Normal, Unset);
    }

    /** Feeds the parser and hands each piece of text to the sink its message selected. */
    method AddContent(content: string) returns (texts: Texts)
      requires ValidTags(parser.tags)
      modifies this`target, parser`phase, parser`acc
      ensures var fed := Feed(parser.tags, old(parser.View()), content);
              parser.View() == fed.state && Routed(target, texts) == Route(old(target), fed.events)
    {
      var events := parser.AddContent(content);
      texts := NOTHING;
      for i := 0 to |events|
        invariant parser.View() == Feed(parser.tags, old(parser.View()), content).state
        invariant var rest := Route(target, events[i..]);
                  Routed(rest.target, Both(texts, rest.texts)) == Route(old(target), events)
      {
        assert events[i..][1..] == events[i + 1..];
        ghost var first := RouteOne(target, events[i]);
        ghost var rest := Route(first.target, events[i + 1..]);
        BothAssociates(texts, first.texts, rest.texts);
        match events[i] {
          case MessageStart => BothNothing(texts);
          case HeaderComplete(h) =>
            BothNothing(texts);
            target := Select(target, h);
          case ContentEmitted(s) =>
            texts := Both(texts, Deliver(target.sink, s));
          case MessageEnd =>
            BothNothing(texts);
            target := Target(Normal, target.tool);
        }
      }
      BothNothing(texts);
    }
  }

  lemma BothAssociates(a: Texts, b: Texts, c: Texts)
    ensures Both(Both(a, b), c) == Both(a, Both(b, c))
  {
    assert a.content + b.content + c.content == a.content + (b.content + c.content);
    assert a.thinking + b.thinking + c.thinking == a.thinking + (b.thinking + c.thinking);
    assert a.toolText + b.toolText + c.toolText == a.toolText + (b.toolText + c.toolText);
  }

  lemma BothNothing(a: Texts)
    ensures Both(NOTHING, a) == a && Both(a, NOTHING) == a
  {
  }

  lemma DeliverConcat(sink: Sink, a: string, b: string)
    ensures Both(Deliver(sink, a), Deliver(sink, b)) == Deliver(sink, a + b)
  {
    assert "" + "" == "";
  }

  lemma {:induction false} RouteChars(t: Target, s: string, k: Atoms)
    ensures var r := RouteAtoms(t, k); RouteAtoms(t, Chars(s, k)) == Routed(r.target, Both(Deliver(t.sink, s), r.texts))
  {
    var r := RouteAtoms(t, k);
    if s == "" {
      assert Deliver(t.sink, s) == NOTHING;
      BothNothing(r.texts);
    } else {
      RouteChars(t, s[1..], k);
      BothAssociates(Deliver(t.sink, [s[0]]), Deliver(t.sink, s[1..]), r.texts);
      DeliverConcat(t.sink, [s[0]], s[1..]);
      assert [s[0]] + s[1..] == s;
    }
  }

  /** Routing sees characters only: where content events are cut makes no difference. */
  lemma {:induction false} RouteIsByCharacter(t: Target, events: seq<Event>)
    ensures Route(t, events) == RouteAtoms(t, Flatten(events, Nil))
    decreases |events|
  {
    if events != [] {
      var first := RouteOne(t, events[0]);
      RouteIsByCharacter(first.target, events[1..]);
      var rest := Route(first.target, events[1..]);
      BothNothing(rest.texts);
      if events[0].ContentEmitted? {
        RouteChars(t, events[0].content, Flatten(events[1..], Nil));
      }
    }
  }

  lemma {:induction false} RouteConcat(t: Target, a: seq<Event>, b: seq<Event>)
    ensures var x := Route(t, a); var y := Route(x.target, b);
            Route(t, a + b) == Routed(y.target, Both(x.texts, y.texts))
    decreases |a|
  {
    if a == [] {
      assert a + b == b;
      BothNothing(Route(t, b).texts);
    } else {
      assert (a + b)[1..] == a[1..] + b;
      var first := RouteOne(t, a[0]);
      RouteConcat(first.target, a[1..], b);
      var x := Route(first.target, a[1..]);
      BothAssociates(first.texts, x.texts, Route(x.target, b).texts);
    }
  }

  /** What a handler has returned, taken together, after a list of `AddContent` calls. */
  function HandleAll(tags: Tags, st: State, t: Target, chunks: seq<string>): Routed
    requires ValidTags(tags)
    decreases |chunks|
  {
    if chunks == [] then Routed(t, NOTHING)
    else
      var fed := Feed(tags, st, chunks[0]);
      var first := Route(t, fed.events);
      var rest := HandleAll(tags, fed.state, first.target, chunks[1..]);
      Routed(rest.target, Both(first.texts, rest.texts))
  }

  lemma {:induction false} HandleAllRoutesAll(tags: Tags, st: State, t: Target, chunks: seq<string>)
    requires ValidTags(tags)
    ensures HandleAll(tags, st, t, chunks) == Route(t, FeedAll(tags, st, chunks).events)
    decreases |chunks|
  {
    if chunks != [] {
      var fed := Feed(tags, st, chunks[0]);
      HandleAllRoutesAll(tags, fed.state, Route(t, fed.events).target, chunks[1..]);
      RouteConcat(t, fed.events, FeedAll(tags, fed.state, chunks[1..]).events);
    }
  }

  /** The content, thinking and tool text of a response, and its tool, do not depend on how the stream was cut. */
  lemma HandlerChunkingInvariance(tags: Tags, st: State, t: Target, a: seq<string>, b: seq<string>)
    requires ValidTags(tags) && a != [] && b != [] && Join(a) == Join(b)
    ensures HandleAll(tags, st, t, a) == HandleAll(tags, st, t, b)
  {
    HandleAllRoutesAll(tags, st, t, a);
    HandleAllRoutesAll(tags, st, t, b);
    AnyCutIsWhole(tags, st, a, Nil);
    AnyCutIsWhole(tags, st, b, Nil);
    RouteIsByCharacter(t, FeedAll(tags, st, a).events);
    RouteIsByCharacter(t, FeedAll(tags, st, b).events);
  }
}

/** From a rendered conversation to the three texts of a response, whatever the cuts. */
module HarmonyConversation {
  import opened HarmonyText
  import opened HarmonyHeader
  import opened HarmonyParser
  import opened HarmonyChunking
  import opened HarmonyRoundTrip
  import opened HarmonyHandler

  /** Where the content of a message belongs, by its header alone. */
  function SinkFor(h: Header): Sink {
    if h.recipient != "" && (h.channel == "analysis" || h.channel == "commentary") then ToolCalling
    else if h.channel == "analysis" then Thinking
    else Normal
  }

  /** The tool addressed last, after a message with this header. */
  function ToolAfter(tool: ToolName, h: Header): ToolName {
    if SinkFor(h) == ToolCalling then Named(h.recipient) else tool
  }

  /** The contents of the messages that belong to `sink`, one after the other. */
  function Gather(tags: Tags, messages: seq<Message>, sink: Sink): string {
    if messages == [] then ""
    else
      var here := SinkFor(tags.parse(messages[0].header)) == sink;
      (if here then messages[0].content else "") + Gather(tags, messages[1..], sink)
  }

  /** The tool addressed by the last message that addresses one. */
  function LastTool(tags: Tags, messages: seq<Message>, tool: ToolName): ToolName
    decreases |messages|
  {
    if messages == [] then tool else LastTool(tags, messages[1..], ToolAfter(tool, tags.parse(messages[0].header)))
  }

  /** Outside a message the next header alone decides. */
  lemma SelectIs(tool: ToolName, h: Header)
    ensures Select(Target(Normal, tool), h) == Target(SinkFor(h), ToolAfter(tool, h))
  {
  }

  lemma RouteMessage(tool: ToolName, h: Header, content: string, k: Atoms)
    ensures var rest := RouteAtoms(Target(Normal, ToolAfter(tool, h)), k);
            RouteAtoms(Target(Normal, tool), Start(Head(h, Chars(content, End(k)))))
                == Routed(rest.target, Both(Deliver(SinkFor(h), content), rest.texts))
  {
    SelectIs(tool, h);
    RouteChars(Target(SinkFor(h), ToolAfter(tool, h)), content, End(k));
  }

  lemma GatherFirst(tags: Tags, messages: seq<Message>)
    requires messages != []
    ensures var m, later := messages[0], messages[1..];
            Both(Deliver(SinkFor(tags.parse(m.header)), m.content),
                 Texts(Gather(tags, later, Normal), Gather(tags, later, Thinking), Gather(tags, later, ToolCalling)))
            == Texts(Gather(tags, messages, Normal), Gather(tags, messages, Thinking),
                Gather(tags, messages, ToolCalling))
  {
  }

  lemma {:induction false} RenderRoutes(tags: Tags, messages: seq<Message>, tool: ToolName)
    requires ValidTags(tags) && UnborderedTags(tags) && forall i :: 0 <= i < |messages| ==> Clean(tags, messages[i])
    ensures RouteAtoms(Target(Normal, tool),
              Flatten(EatAll(tags, State(LookingForMessageStart, Render(tags, messages))).events, Nil))
            == Routed(Target(Normal, LastTool(tags, messages, tool)),
                      Texts(Gather(tags, messages, Normal), Gather(tags, messages, Thinking),
                          Gather(tags, messages, ToolCalling)))
    decreases |messages|
  {
    if messages == [] {
      IndexSpec("", tags.start);
      assert !Contains("", tags.start);
    } else {
      var m, rest := messages[0], Render(tags, messages[1..]);
      var h := tags.parse(m.header);
      EatMessage(tags, m, rest, Nil);
      RouteMessage(tool, h, m.content, Flatten(EatAll(tags, State(LookingForMessageStart, rest)).events, Nil));
      RenderRoutes(tags, messages[1..], ToolAfter(tool, h));
      GatherFirst(tags, messages);
    }
  }

  /**
   * A whole response: however its text is cut, the content, thinking and tool text that the handler returns
   * are the contents of the messages that belong there, in order, and the tool is the last one addressed.
   */
  lemma ResponseIsRouted(tags: Tags, messages: seq<Message>, buffered: string, chunks: seq<string>, tool: ToolName)
    requires ValidTags(tags) && UnborderedTags(tags) && forall i :: 0 <= i < |messages| ==> Clean(tags, messages[i])
    requires chunks != [] && buffered + Join(chunks) == Render(tags, messages)
    ensures HandleAll(tags, State(LookingForMessageStart, buffered), Target(Normal, tool), chunks)
            == Routed(Target(Normal, LastTool(tags, messages, tool)),
                      Texts(Gather(tags, messages, Normal), Gather(tags, messages, Thinking),
                          Gather(tags, messages, ToolCalling)))
  {
    var st, t := State(LookingForMessageStart, buffered), Target(Normal, tool);
    HandleAllRoutesAll(tags, st, t, chunks);
    AnyCutIsWhole(tags, st, chunks, Nil);
    RouteIsByCharacter(t, FeedAll(tags, st, chunks).events);
    RenderRoutes(tags, messages, tool);
  }
}

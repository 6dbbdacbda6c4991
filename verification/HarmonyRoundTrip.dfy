/** Rendered conversations parse back to themselves, however the text arrives. */
module HarmonyRoundTrip {
  import opened HarmonyText
  import opened HarmonyHeader
  import opened HarmonyParser
  import opened HarmonyChunking

  /** A message, and text that stands before it and belongs to none. */
  datatype Message = Message(noise: string, header: string, content: string)

  function RenderMessage(tags: Tags, m: Message): string {
    m.noise + tags.start + (m.header + tags.headerEnd + (m.content + tags.end))
  }

  function Render(tags: Tags, messages: seq<Message>): string {
    if messages == [] then "" else RenderMessage(tags, messages[0]) + Render(tags, messages[1..])
  }

  /** A message whose parts do not contain the tags that end them. */
  ghost predicate Clean(tags: Tags, m: Message) {
    !Contains(m.noise, tags.start) && !Contains(m.header, tags.headerEnd) && !Contains(m.content, tags.end)
  }

  ghost predicate UnborderedTags(tags: Tags) {
    Unbordered(tags.start) && Unbordered(tags.end) && Unbordered(tags.headerEnd)
  }

  lemma HarmonyTagsUnbordered()
    ensures UnborderedTags(HARMONY) && ValidTags(HARMONY)
  {
    DistinctFirstIsUnbordered(HARMONY.start);
    DistinctFirstIsUnbordered(HARMONY.end);
    DistinctFirstIsUnbordered(HARMONY.headerEnd);
  }

  /** A complete message, as read: its header and its content. */
  datatype Read = Read(header: Header, content: string)

  /** Collects the complete messages of an event stream; `open` is the message being read. */
  function Collect(atoms: Atoms, open: Read): seq<Read> {
    match atoms
    case Nil => []
    case Start(rest) => Collect(rest, Read(Header("", "", ""), ""))
    case Head(h, rest) => Collect(rest, Read(h, ""))
    case Char(c, rest) => Collect(rest, Read(open.header, open.content + [c]))
    case End(rest) => [open] + Collect(rest, open)
  }

  lemma {:induction false} CollectChars(s: string, k: Atoms, open: Read)
    ensures Collect(Chars(s, k), open) == Collect(k, Read(open.header, open.content + s))
  {
    if s == "" {
      assert open.content + s == open.content;
    } else {
      CollectChars(s[1..], k, Read(open.header, open.content + [s[0]]));
      assert open.content + [s[0]] + s[1..] == open.content + s;
    }
  }

  lemma TagFound(text: string, tag: string, rest: string)
    requires Unbordered(tag) && !Contains(text, tag)
    ensures var s := text + tag + rest; Index(s, tag) == |text| && s[..|text|] == text && s[|text| + |tag|..] == rest
  {
    FirstTagAfter(text, tag, rest);
  }

  /** Text before the start tag is dropped. */
  lemma EatStart(tags: Tags, noise: string, rest: string, k: Atoms)
    requires ValidTags(tags) && UnborderedTags(tags) && !Contains(noise, tags.start)
    ensures var r, next := EatAll(tags, State(LookingForMessageStart, noise + tags.start + rest)),
              EatAll(tags, State(ParsingHeader, rest));
            r.state == next.state && Flatten(r.events, k) == Start(Flatten(next.events, k))
  {
    TagFound(noise, tags.start, rest);
    FlattenConcat([MessageStart], EatAll(tags, State(ParsingHeader, rest)).events, k);
  }

  lemma EatHeader(tags: Tags, header: string, rest: string, k: Atoms)
    requires ValidTags(tags) && UnborderedTags(tags) && !Contains(header, tags.headerEnd)
    ensures var r, next := EatAll(tags, State(ParsingHeader, header + tags.headerEnd + rest)),
              EatAll(tags, State(ParsingContent, rest));
            r.state == next.state && Flatten(r.events, k) == Head(tags.parse(header), Flatten(next.events, k))
  {
    TagFound(header, tags.headerEnd, rest);
    FlattenConcat([HeaderComplete(tags.parse(header))], EatAll(tags, State(ParsingContent, rest)).events, k);
  }

  lemma EatContent(tags: Tags, content: string, rest: string, k: Atoms)
    requires ValidTags(tags) && UnborderedTags(tags) && !Contains(content, tags.end)
    ensures var r, next := EatAll(tags, State(ParsingContent, content + tags.end + rest)),
              EatAll(tags, State(LookingForMessageStart, rest));
            r.state == next.state && Flatten(r.events, k) == Chars(content, End(Flatten(next.events, k)))
  {
    TagFound(content, tags.end, rest);
    var next := EatAll(tags, State(LookingForMessageStart, rest));
    FlattenConcat(Content(content) + [MessageEnd], next.events, k);
    FlattenEnd(content, Flatten(next.events, k));
  }

  lemma EatMessage(tags: Tags, m: Message, rest: string, k: Atoms)
    requires ValidTags(tags) && UnborderedTags(tags) && Clean(tags, m)
    ensures var r, next := EatAll(tags, State(LookingForMessageStart, RenderMessage(tags, m) + rest)),
              EatAll(tags, State(LookingForMessageStart, rest));
            r.state == next.state
                && Flatten(r.events, k)
                    == Start(Head(tags.parse(m.header), Chars(m.content, End(Flatten(next.events, k)))))
  {
    var afterHeader := m.content + tags.end + rest;
    RenderedParts(tags, m, rest);
    EatStart(tags, m.noise, m.header + tags.headerEnd + afterHeader, k);
    EatHeader(tags, m.header, afterHeader, k);
    EatContent(tags, m.content, rest, k);
  }

  lemma CollectMessage(h: Header, content: string, k: Atoms, open: Read)
    ensures Collect(Start(Head(h, Chars(content, End(k)))), open) == [Read(h, content)] + Collect(k, Read(h, content))
  {
    CollectChars(content, End(k), Read(h, ""));
    assert "" + content == content;
  }

  lemma RenderedParts(tags: Tags, m: Message, rest: string)
    ensures RenderMessage(tags, m) + rest
            == m.noise + tags.start + (m.header + tags.headerEnd + (m.content + tags.end + rest))
  {
    var body := m.header + tags.headerEnd + (m.content + tags.end);
    assert m.noise + tags.start + body + rest == m.noise + tags.start + (body + rest);
    assert body + rest == m.header + tags.headerEnd + (m.content + tags.end + rest);
  }

  lemma {:induction false} RenderParses(tags: Tags, messages: seq<Message>, open: Read)
    requires ValidTags(tags) && UnborderedTags(tags) && forall i :: 0 <= i < |messages| ==> Clean(tags, messages[i])
    ensures var r := EatAll(tags, State(LookingForMessageStart, Render(tags, messages)));
            && r.state == State(LookingForMessageStart, "")
            && var got := Collect(Flatten(r.events, Nil), open);
               |got| == |messages| && forall i :: 0 <= i < |messages| ==>
                   got[i] == Read(tags.parse(messages[i].header), messages[i].content)
    decreases |messages|
  {
    if messages == [] {
      IndexSpec("", tags.start);
      assert !Contains("", tags.start);
    } else {
      var m, rest := messages[0], Render(tags, messages[1..]);
      EatMessage(tags, m, rest, Nil);
      CollectMessage(tags.parse(m.header), m.content,
          Flatten(EatAll(tags, State(LookingForMessageStart, rest)).events, Nil), open);
      RenderParses(tags, messages[1..], Read(tags.parse(m.header), m.content));
    }
  }

  /**
   * Print/parse round trip under any chunking: whatever part of the rendered text is in the buffer already
   * and however the rest is cut, the parser reads back exactly the messages and is ready for the next one.
   */
  lemma RoundTrip(tags: Tags, messages: seq<Message>, buffered: string, chunks: seq<string>, open: Read)
    requires ValidTags(tags) && UnborderedTags(tags) && forall i :: 0 <= i < |messages| ==> Clean(tags, messages[i])
    requires chunks != [] && buffered + Join(chunks) == Render(tags, messages)
    ensures var r := FeedAll(tags, State(LookingForMessageStart, buffered), chunks);
            && r.state == State(LookingForMessageStart, "")
            && var got := Collect(Flatten(r.events, Nil), open);
               |got| == |messages| && forall i :: 0 <= i < |messages| ==>
                   got[i] == Read(tags.parse(messages[i].header), messages[i].content)
  {
    AnyCutIsWhole(tags, State(LookingForMessageStart, buffered), chunks, Nil);
    RenderParses(tags, messages, open);
  }

  lemma OneMessage(tags: Tags, m: Message, chunks: seq<string>, open: Read)
    requires ValidTags(tags) && UnborderedTags(tags) && Clean(tags, m)
    requires chunks != [] && Join(chunks) == RenderMessage(tags, m)
    ensures Collect(Flatten(FeedAll(tags, State(LookingForMessageStart, ""), chunks).events, Nil), open)
              == [Read(tags.parse(m.header), m.content)]
  {
    assert [m][1..] == [];
    assert Render(tags, [m]) == RenderMessage(tags, m) + "";
    assert "" + Join(chunks) == Join(chunks);
    RoundTrip(tags, [m], "", chunks, open);
  }

  /** One message with a readable header, in the format the handler sets up. */
  lemma HarmonyMessageRoundTrip(h: Header, recipientFirst: bool, c: Constraint, m: Message, chunks: seq<string>,
                                open: Read)
    requires Readable(h, recipientFirst, c) && m.header == RenderHeader(h, recipientFirst, c)
    requires Clean(HARMONY, m) && chunks != [] && Join(chunks) == RenderMessage(HARMONY, m)
    ensures Collect(Flatten(FeedAll(HARMONY, State(LookingForMessageStart, ""), chunks).events, Nil), open)
              == [Read(Meaning(h), m.content)]
  {
    HarmonyTagsUnbordered();
    HeaderRoundTrip(h, recipientFirst, c);
    OneMessage(HARMONY, m, chunks, open);
  }

  /**
   * After the implicit start the model leaves out the start tag and the role: what it says, however it is cut, is
   * read as a message of the assistant with the channel, recipient and content it gives.
   */
  lemma ImplicitStartRoundTrip(h: Header, recipientFirst: bool, c: Constraint, m: Message, chunks: seq<string>,
                               open: Read)
    requires Readable(h, recipientFirst, c) && h.role == ASSISTANT && m.header == RenderHeader(h, recipientFirst, c)
    requires Clean(HARMONY, m) && chunks != [] && IMPLICIT_START + Join(chunks) == RenderMessage(HARMONY, m)
    ensures Collect(Flatten(FeedAll(HARMONY, State(LookingForMessageStart, IMPLICIT_START), chunks).events, Nil), open)
            == [Read(h, m.content)]
  {
    HarmonyTagsUnbordered();
    HeaderRoundTrip(h, recipientFirst, c);
    assert [m][1..] == [];
    assert Render(HARMONY, [m]) == RenderMessage(HARMONY, m) + "";
    RoundTrip(HARMONY, [m], IMPLICIT_START, chunks, open);
    assert !HasPrefix(ASSISTANT, "to=") by { assert ASSISTANT[0] != "to="[0]; }
  }

  // ---------------------------------------------------------------- messages that are not complete yet

  /** The atoms of messages, in front of `k`. */
  function Expected(tags: Tags, messages: seq<Message>, k: Atoms): Atoms {
    if messages == [] then k
    else
      var m := messages[0];
      Start(Head(tags.parse(m.header), Chars(m.content, End(Expected(tags, messages[1..], k)))))
  }

  /** Complete messages are read as such, whatever follows them. */
  lemma {:induction false} RenderThen(tags: Tags, messages: seq<Message>, tail: string, k: Atoms)
    requires ValidTags(tags) && UnborderedTags(tags) && forall i :: 0 <= i < |messages| ==> Clean(tags, messages[i])
    ensures var r, next := EatAll(tags, State(LookingForMessageStart, Render(tags, messages) + tail)),
              EatAll(tags, State(LookingForMessageStart, tail));
            r.state == next.state && Flatten(r.events, k) == Expected(tags, messages, Flatten(next.events, k))
    decreases |messages|
  {
    if messages == [] {
      assert "" + tail == tail;
    } else {
      var m, rest := messages[0], Render(tags, messages[1..]);
      assert RenderMessage(tags, m) + rest + tail == RenderMessage(tags, m) + (rest + tail);
      EatMessage(tags, m, rest + tail, k);
      RenderThen(tags, messages[1..], tail, k);
    }
  }

  /** Text in which no message starts waits in the buffer. */
  lemma NothingStartsYet(tags: Tags, tail: string)
    requires ValidTags(tags) && !Contains(tail, tags.start)
    ensures EatAll(tags, State(LookingForMessageStart, tail)) == Outcome(State(LookingForMessageStart, tail), [])
  {
    IndexSpec(tail, tags.start);
  }

  /** A header that has not ended waits in the buffer. */
  lemma HeaderNotEnded(tags: Tags, noise: string, header: string, k: Atoms)
    requires ValidTags(tags) && UnborderedTags(tags) && !Contains(noise, tags.start)
    requires !Contains(header, tags.headerEnd)
    ensures var r := EatAll(tags, State(LookingForMessageStart, noise + tags.start + header));
            r.state == State(ParsingHeader, header) && Flatten(r.events, k) == Start(k)
  {
    EatStart(tags, noise, header, k);
    IndexSpec(header, tags.headerEnd);
  }

  /**
   * The content of a message that has not ended is emitted as it comes: all of it, but for the longest end that may
   * be the beginning of an end tag, which waits in the buffer.
   */
  lemma ContentNotEnded(tags: Tags, m: Message, shown: string, waiting: string, k: Atoms)
    requires ValidTags(tags) && UnborderedTags(tags) && Clean(tags, m) && m.content == shown + waiting
    requires EndsWithPrefix(m.content, tags.end, |waiting|)
    requires forall n :: |waiting| < n ==> !EndsWithPrefix(m.content, tags.end, n)
    ensures var text := m.noise + tags.start + (m.header + tags.headerEnd + m.content);
            var r := EatAll(tags, State(LookingForMessageStart, text));
            && r.state == State(ParsingContent, waiting)
            && Flatten(r.events, k) == Start(Head(tags.parse(m.header), Chars(shown, k)))
  {
    EatStart(tags, m.noise, m.header + tags.headerEnd + m.content, k);
    EatHeader(tags, m.header, m.content, k);
    IndexSpec(m.content, tags.end);
    OverlapIs(m.content, tags.end, |waiting|);
    FlattenContent(shown, k);
  }

  // ---------------------------------------------------------------- the format itself

  /** A message in the format that the model is trained on, written out. */
  lemma WrittenOut(role: string, channel: string, content: string, chunks: seq<string>, open: Read)
    requires Readable(Header(role, channel, ""), false, Free) && !HasPrefix(role, "to=")
    requires !Contains(role + "<|channel|>" + channel, "<|message|>") && !Contains(content, "<|end|>") && chunks != []
    requires Join(chunks) == "<|start|>" + ((role + "<|channel|>" + channel) + "<|message|>" + (content + "<|end|>"))
    ensures Collect(Flatten(FeedAll(HARMONY, State(LookingForMessageStart, ""), chunks).events, Nil), open)
              == [Read(Header(role, channel, ""), content)]
  {
    var h := Header(role, channel, "");
    var m := Message("", role + "<|channel|>" + channel, content);
    HeaderWrittenOut(role, channel);
    assert !Contains("", HARMONY.start);
    assert "" + HARMONY.start == HARMONY.start;
    HarmonyMessageRoundTrip(h, false, Free, m, chunks, open);
  }

  lemma HeaderWrittenOut(role: string, channel: string)
    ensures RenderHeader(Header(role, channel, ""), false, Free) == role + "<|channel|>" + channel
  {
  }

  /** A tool call in that format, with the recipient behind the channel. */
  lemma ToolCallWrittenOut(role: string, channel: string, recipient: string, content: string, chunks: seq<string>,
                           open: Read)
    requires Readable(Header(role, channel, recipient), false, Free) && !HasPrefix(role, "to=") && recipient != ""
    requires !Contains(role + "<|channel|>" + channel + " to=" + recipient, "<|message|>")
    requires !Contains(content, "<|end|>") && chunks != []
    requires Join(chunks)
             == "<|start|>"
                + ((role + "<|channel|>" + channel + " to=" + recipient) + "<|message|>" + (content + "<|end|>"))
    ensures Collect(Flatten(FeedAll(HARMONY, State(LookingForMessageStart, ""), chunks).events, Nil), open)
              == [Read(Header(role, channel, recipient), content)]
  {
    var h := Header(role, channel, recipient);
    var m := Message("", role + "<|channel|>" + channel + " to=" + recipient, content);
    RecipientWrittenOut(role, channel, recipient);
    assert !Contains("", HARMONY.start);
    assert "" + HARMONY.start == HARMONY.start;
    HarmonyMessageRoundTrip(h, false, Free, m, chunks, open);
  }

  lemma RecipientWrittenOut(role: string, channel: string, recipient: string)
    requires recipient != ""
    ensures RenderHeader(Header(role, channel, recipient), false, Free)
            == role + "<|channel|>" + channel + " to=" + recipient
  {
    var front := role + "<|channel|>" + channel;
    assert front + (" to=" + recipient) == front + " to=" + recipient;
  }

  /** What the parser is told before the model says anything, written out. */
  lemma ImplicitStartWrittenOut()
    ensures IMPLICIT_START == "<|start|>assistant"
  {
  }
}

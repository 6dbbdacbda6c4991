/** The incremental parser of the Harmony message format. */
module HarmonyParser {
  import opened HarmonyText
  import opened HarmonyHeader

  /** The tags of the format and the reading of its headers. */
  datatype Tags = Tags(start: string, end: string, headerEnd: string, parse: string -> Header)

  /** The format as `NewHarmonyMessageHandler` sets it up. */
  const HARMONY := Tags("<|start|>", "<|end|>", "<|message|>", ParseHeader)

  const ASSISTANT := "assistant"

  /** What the parser is told before the model says anything. */
  const IMPLICIT_START := HARMONY.start + ASSISTANT

  datatype Phase = LookingForMessageStart | ParsingHeader | ParsingContent

  datatype Event =
    | MessageStart
    | HeaderComplete(header: Header)
    | ContentEmitted(content: string)
    | MessageEnd

  /** Where the parser is, and the text it has not consumed yet. */
  datatype State = State(phase: Phase, acc: string)

  datatype Step = Step(state: State, events: seq<Event>, again: bool)

  predicate ValidTags(tags: Tags) {
    tags.start != "" && tags.end != "" && tags.headerEnd != ""
  }

  function Content(s: string): seq<Event> {
    if s == "" then [] else [ContentEmitted(s)]
  }

  /** One turn of the parser on its buffer; `again` says whether another one can make progress. */
  function Eat(tags: Tags, st: State): (r: Step)
    ensures r.again && ValidTags(tags) ==> |r.state.acc| < |st.acc|
    ensures !r.again ==> r.state.phase == st.phase
  {
    match st.phase
    case LookingForMessageStart =>
      var i := Index(st.acc, tags.start);
      if i >= 0 then Step(State(ParsingHeader, st.acc[i + |tags.start|..]), [MessageStart], true)
      else Step(st, [], false)
    case ParsingHeader =>
      var i := Index(st.acc, tags.headerEnd);
      if i >= 0 then
        Step(State(ParsingContent, st.acc[i + |tags.headerEnd|..]), [HeaderComplete(tags.parse(st.acc[..i]))], true)
      else Step(st, [], false)
    case ParsingContent =>
      var i := Index(st.acc, tags.end);
      if i >= 0 then
        Step(State(LookingForMessageStart, st.acc[i + |tags.end|..]), Content(st.acc[..i]) + [MessageEnd], true)
      else
        var keep := |st.acc| - Overlap(st.acc, tags.end);
        Step(State(ParsingContent, st.acc[keep..]), Content(st.acc[..keep]), false)
  }

  datatype Outcome = Outcome(state: State, events: seq<Event>)

  /** Eats until nothing more can be decided; the buffer gets shorter every time. */
  function EatAll(tags: Tags, st: State): (r: Outcome)
    requires ValidTags(tags)
    decreases |st.acc|
  {
    var s := Eat(tags, st);
    if s.again then
      var rest := EatAll(tags, s.state);
      Outcome(rest.state, s.events + rest.events)
    else Outcome(s.state, s.events)
  }

  /** What `AddContent` does to the parser. */
  function Feed(tags: Tags, st: State, content: string): Outcome
    requires ValidTags(tags)
  {
    EatAll(tags, State(st.phase, st.acc + content))
  }

  class Parser {
    const tags: Tags
    var phase: Phase
    var acc: string

    ghost function View(): State
      reads this
    {
      State(phase, acc)
    }

    constructor (tags: Tags)
      ensures this.tags == tags && View() == State(LookingForMessageStart, "")
    {
      this.tags := tags;
      phase, acc := LookingForMessageStart, "";
    }

    /** `AddImplicitStart`: the model starts inside a message of the assistant. */
    method AddImplicitStart()
      modifies this`acc
      ensures View() == State(old(phase), old(acc) + IMPLICIT_START)
    {
      acc := acc + IMPLICIT_START;
    }

    method EatOnce() returns (events: seq<Event>, again: bool)
      modifies this`phase, this`acc
      ensures Step(View(), events, again) == Eat(tags, old(View()))
    {
      match phase {
        case LookingForMessageStart =>
          var i := Index(acc, tags.start);
          if i >= 0 {
            acc := acc[i + |tags.start|..];
            phase := ParsingHeader;
            return [MessageStart], true;
          }
          return [], false;
        case ParsingHeader =>
          var i := Index(acc, tags.headerEnd);
          if i >= 0 {
            var header := acc[..i];
            acc := acc[i + |tags.headerEnd|..];
            phase := ParsingContent;
            return [HeaderComplete(tags.parse(header))], true;
          }
          return [], false;
        case ParsingContent =>
          var i := Index(acc, tags.end);
          if i >= 0 {
            var content := acc[..i];
            acc := acc[i + |tags.end|..];
            phase := LookingForMessageStart;
            events := if content != "" then [ContentEmitted(content)] else [];
            return events + [MessageEnd], true;
          }
          var overlap := ComputeOverlap(acc, tags.end);
          if overlap > 0 {
            var content := acc[..|acc| - overlap];
            acc := acc[|acc| - overlap..];
            return if content == "" then [] else [ContentEmitted(content)], false;
          } else {
            var content := acc;
            assert acc[..|acc|] == acc;
            if content == "" {
              return [], false;
            }
            acc := "";
            return [ContentEmitted(content)], false;
          }
      }
    }

    method AddContent(content: string) returns (events: seq<Event>)
      requires ValidTags(tags)
      modifies this`phase, this`acc
      ensures Outcome(View(), events) == Feed(tags, old(View()), content)
    {
      acc := acc + content;
      ghost var start := View();
      events := [];
      var again := true;
      while again
        invariant again ==> var rest := EatAll(tags, View());
                            Outcome(rest.state, events + rest.events) == EatAll(tags, start)
        invariant !again ==> Outcome(View(), events) == EatAll(tags, start)
        decreases again, |acc|
      {
        var more;
        more, again := EatOnce();
        events := events + more;
      }
    }
  }
}

/** The parser gives the same answer however its input is cut. */
module HarmonyChunking {
  import opened HarmonyText
  import opened HarmonyHeader
  import opened HarmonyParser

  /** A list of events with content taken apart into characters. */
  datatype Atoms =
    | Nil
    | Start(rest: Atoms)
    | Head(header: Header, rest: Atoms)
    | Char(c: char, rest: Atoms)
    | End(rest: Atoms)

  /** The characters of `s` in front of `k`. */
  function Chars(s: string, k: Atoms): Atoms {
    if s == "" then k else Char(s[0], Chars(s[1..], k))
  }

  function Spell(e: Event, k: Atoms): Atoms {
    match e
    case MessageStart => Start(k)
    case HeaderComplete(h) => Head(h, k)
    case ContentEmitted(s) => Chars(s, k)
    case MessageEnd => End(k)
  }

  function Flatten(events: seq<Event>, k: Atoms): Atoms {
    if events == [] then k else Spell(events[0], Flatten(events[1..], k))
  }

  lemma {:induction false} FlattenConcat(a: seq<Event>, b: seq<Event>, k: Atoms)
    ensures Flatten(a + b, k) == Flatten(a, Flatten(b, k))
  {
    if a == [] {
      assert a + b == b;
    } else {
      assert (a + b)[1..] == a[1..] + b;
      FlattenConcat(a[1..], b, k);
    }
  }

  lemma FlattenContent(s: string, k: Atoms)
    ensures Flatten(Content(s), k) == Chars(s, k)
  {
    assert s != "" ==> Content(s)[1..] == [];
  }

  lemma {:induction false} CharsConcat(a: string, b: string, k: Atoms)
    ensures Chars(a + b, k) == Chars(a, Chars(b, k))
  {
    if a == "" {
      assert a + b == b;
    } else {
      assert (a + b)[1..] == a[1..] + b;
      CharsConcat(a[1..], b, k);
    }
  }

  lemma SliceConcat(u: string, v: string, i: int)
    requires 0 <= i <= |v|
    ensures (u + v)[..|u| + i] == u + v[..i] && (u + v)[|u| + i..] == v[i..]
  {
  }

  // ---------------------------------------------------------------- content that is safe to emit

  /** No end tag can begin inside `u`, whatever happens after `u + v`. */
  predicate Safe(tag: string, u: string, v: string) {
    && (forall k :: 0 <= k < |u| ==> !At(u + v, tag, k))
    && Overlap(u + v, tag) <= |v|
  }

  lemma AtShift(u: string, v: string, tag: string, k: int)
    requires 0 <= k
    ensures At(u + v, tag, |u| + k) <==> At(v, tag, k)
  {
    if At(u + v, tag, |u| + k) {
      forall j | 0 <= j < |tag|
        ensures v[k + j] == tag[j]
      {
        assert (u + v)[|u| + k + j] == tag[j];
      }
    }
  }

  lemma SafeIndex(tag: string, u: string, v: string)
    requires Safe(tag, u, v)
    ensures Index(u + v, tag) == if Index(v, tag) == -1 then -1 else |u| + Index(v, tag)
  {
    IndexSpec(v, tag);
    forall k | 0 <= k
      ensures At(u + v, tag, |u| + k) <==> At(v, tag, k)
    {
      AtShift(u, v, tag, k);
    }
    if Index(v, tag) == -1 {
      forall k
        ensures !At(u + v, tag, k)
      {
        assert k >= |u| ==> At(u + v, tag, |u| + (k - |u|)) == At(v, tag, k - |u|);
      }
      IndexIsNone(u + v, tag);
    } else {
      forall k | |u| <= k < |u| + Index(v, tag)
        ensures !At(u + v, tag, k)
      {
        assert At(u + v, tag, |u| + (k - |u|)) == At(v, tag, k - |u|);
      }
      IndexIs(u + v, tag, |u| + Index(v, tag));
    }
  }

  lemma EndsShift(u: string, v: string, tag: string, n: int)
    requires 0 <= n <= |v|
    ensures EndsWithPrefix(u + v, tag, n) <==> EndsWithPrefix(v, tag, n)
  {
  }

  lemma SafeOverlap(tag: string, u: string, v: string)
    requires Safe(tag, u, v)
    ensures Overlap(u + v, tag) == Overlap(v, tag)
  {
    OverlapSpec(u + v, tag);
    var n := Overlap(u + v, tag);
    EndsShift(u, v, tag, n);
    forall k | n < k
      ensures !EndsWithPrefix(v, tag, k)
    {
      if k <= |v| {
        EndsShift(u, v, tag, k);
      }
    }
    OverlapIs(v, tag, n);
  }

  lemma FlattenEnd(s: string, k: Atoms)
    ensures Flatten(Content(s) + [MessageEnd], k) == Chars(s, End(k))
  {
    FlattenConcat(Content(s), [MessageEnd], k);
    FlattenContent(s, End(k));
    assert [MessageEnd][1..] == [];
  }

  /** The end tag is found, or begins, at the same place whether `u` is still in the buffer or not. */
  predicate Aligned(tag: string, u: string, v: string) {
    if Index(v, tag) >= 0 then Index(u + v, tag) == |u| + Index(v, tag)
    else Index(u + v, tag) == -1 && Overlap(u + v, tag) == Overlap(v, tag)
  }

  lemma SafeIsAligned(tag: string, u: string, v: string)
    requires Safe(tag, u, v)
    ensures Aligned(tag, u, v)
  {
    SafeIndex(tag, u, v);
    SafeOverlap(tag, u, v);
  }

  /** One turn on content with an early part `u`, when the end tag is there. */
  lemma EatOfFound(tags: Tags, u: string, v: string, k: Atoms)
    requires ValidTags(tags) && Aligned(tags.end, u, v) && Index(v, tags.end) >= 0
    ensures var whole, rest := Eat(tags, State(ParsingContent, u + v)), Eat(tags, State(ParsingContent, v));
            && whole.state == rest.state && whole.again == rest.again
            && Flatten(whole.events, k) == Chars(u, Flatten(rest.events, k))
  {
    var i := Index(v, tags.end);
    SliceConcat(u, v, i);
    SliceConcat(u, v, i + |tags.end|);
    FlattenEnd(u + v[..i], k);
    FlattenEnd(v[..i], k);
    CharsConcat(u, v[..i], End(k));
  }

  /** The same, when it is not there yet. */
  lemma EatOfMissing(tags: Tags, u: string, v: string, k: Atoms)
    requires ValidTags(tags) && Aligned(tags.end, u, v) && Index(v, tags.end) < 0
    ensures var whole, rest := Eat(tags, State(ParsingContent, u + v)), Eat(tags, State(ParsingContent, v));
            && whole.state == rest.state && whole.again == rest.again
            && Flatten(whole.events, k) == Chars(u, Flatten(rest.events, k))
  {
    var keep := |v| - Overlap(v, tags.end);
    SliceConcat(u, v, keep);
    FlattenContent(u + v[..keep], k);
    FlattenContent(v[..keep], k);
    CharsConcat(u, v[..keep], k);
  }

  lemma EatOfAligned(tags: Tags, u: string, v: string, k: Atoms)
    requires ValidTags(tags) && Aligned(tags.end, u, v)
    ensures var whole, rest := Eat(tags, State(ParsingContent, u + v)), Eat(tags, State(ParsingContent, v));
            && whole.state == rest.state && whole.again == rest.again
            && Flatten(whole.events, k) == Chars(u, Flatten(rest.events, k))
  {
    if Index(v, tags.end) >= 0 {
      EatOfFound(tags, u, v, k);
    } else {
      EatOfMissing(tags, u, v, k);
    }
  }

  /** What was emitted early is what would have been emitted later. */
  lemma EarlyIsLate(tags: Tags, u: string, v: string, k: Atoms)
    requires ValidTags(tags) && Aligned(tags.end, u, v)
    ensures var whole, rest := EatAll(tags, State(ParsingContent, u + v)), EatAll(tags, State(ParsingContent, v));
            whole.state == rest.state && Flatten(whole.events, k) == Chars(u, Flatten(rest.events, k))
  {
    var a, b := Eat(tags, State(ParsingContent, u + v)), Eat(tags, State(ParsingContent, v));
    EatOfAligned(tags, u, v, k);
    if b.again {
      var next := EatAll(tags, b.state);
      EatOfAligned(tags, u, v, Flatten(next.events, k));
      FlattenConcat(a.events, next.events, k);
      FlattenConcat(b.events, next.events, k);
    }
  }

  /** The parser holds back exactly enough: what it emits is safe against any continuation. */
  lemma HeldBackIsSafe(tag: string, x: string, y: string)
    requires !Contains(x, tag)
    ensures var n := |x| - Overlap(x, tag); Safe(tag, x[..n], x[n..] + y) && x[..n] + (x[n..] + y) == x + y
  {
    OverlapSpec(x, tag);
    var n := |x| - Overlap(x, tag);
    assert x[..n] + (x[n..] + y) == x + y;
    forall k | 0 <= k < n
      ensures !At(x + y, tag, k)
    {
      if k + |tag| <= |x| {
        assert !At(x, tag, k);
      } else {
        ReachingOverIsOverlap(x, y, tag, k);
      }
    }
    LongOverlapIsOverlap(x, y, tag);
  }

  lemma ReachingOverIsOverlap(x: string, y: string, tag: string, k: int)
    requires 0 <= k < |x| < k + |tag|
    ensures At(x + y, tag, k) ==> EndsWithPrefix(x, tag, |x| - k)
  {
    if At(x + y, tag, k) {
      assert forall j :: 0 <= j < |x| - k ==> x[k + j] == (x + y)[k + j] == tag[j];
    }
  }

  lemma LongOverlapIsOverlap(x: string, y: string, tag: string)
    ensures Overlap(x + y, tag) <= Overlap(x, tag) + |y|
  {
    OverlapSpec(x + y, tag);
    OverlapSpec(x, tag);
    var n := Overlap(x + y, tag);
    if n > |y| {
      var k := n - |y|;
      assert forall j :: 0 <= j < k ==> x[|x| - k + j] == (x + y)[|x + y| - n + j] == tag[j];
      assert EndsWithPrefix(x, tag, k);
    }
  }

  lemma HeldBackIsAligned(tag: string, x: string, y: string)
    requires Index(x, tag) == -1
    ensures var n := |x| - Overlap(x, tag); Aligned(tag, x[..n], x[n..] + y) && x[..n] + (x[n..] + y) == x + y
  {
    IndexSpec(x, tag);
    HeldBackIsSafe(tag, x, y);
    var n := |x| - Overlap(x, tag);
    SafeIsAligned(tag, x[..n], x[n..] + y);
  }

  // ---------------------------------------------------------------- cutting the input

  lemma TagOfExtension(x: string, y: string, tag: string)
    requires Index(x, tag) >= 0
    ensures var i := Index(x, tag);
            Index(x + y, tag) == i && (x + y)[..i] == x[..i] && (x + y)[i + |tag|..] == x[i + |tag|..] + y
  {
    IndexSpec(x, tag);
    IndexOfExtension(x, y, tag);
  }

  /** A turn that decides something decides the same when more text follows. */
  lemma EatOfExtension(tags: Tags, phase: Phase, x: string, y: string)
    requires ValidTags(tags) && Eat(tags, State(phase, x)).again
    ensures var s := Eat(tags, State(phase, x));
            Eat(tags, State(phase, x + y)) == Step(State(s.state.phase, s.state.acc + y), s.events, true)
  {
    match phase
    case LookingForMessageStart => TagOfExtension(x, y, tags.start);
    case ParsingHeader => TagOfExtension(x, y, tags.headerEnd);
    case ParsingContent => TagOfExtension(x, y, tags.end);
  }

  /** Feeding `x` and then `y` is feeding `x + y`, up to where content events are cut. */
  ghost predicate SplitAgrees(tags: Tags, phase: Phase, x: string, y: string, k: Atoms)
    requires ValidTags(tags)
  {
    var one := EatAll(tags, State(phase, x));
    var two := EatAll(tags, State(one.state.phase, one.state.acc + y));
    var whole := EatAll(tags, State(phase, x + y));
    whole.state == two.state && Flatten(whole.events, k) == Flatten(one.events, Flatten(two.events, k))
  }

  /** After a turn that decided something it is enough that the rest agrees. */
  lemma SplitAfterTurn(tags: Tags, phase: Phase, x: string, y: string, k: Atoms)
    requires ValidTags(tags) && Eat(tags, State(phase, x)).again
    requires var s := Eat(tags, State(phase, x)).state; SplitAgrees(tags, s.phase, s.acc, y, k)
    ensures SplitAgrees(tags, phase, x, y, k)
  {
    var s := Eat(tags, State(phase, x));
    EatOfExtension(tags, phase, x, y);
    var rest, restWhole := EatAll(tags, s.state), EatAll(tags, State(s.state.phase, s.state.acc + y));
    var two := EatAll(tags, State(rest.state.phase, rest.state.acc + y));
    FlattenConcat(s.events, rest.events, Flatten(two.events, k));
    FlattenConcat(s.events, restWhole.events, k);
  }

  /** Without an end tag, everything but a possible beginning of one is emitted. */
  lemma HeldBackOutcome(tags: Tags, x: string)
    requires ValidTags(tags) && Index(x, tags.end) == -1
    ensures var n := |x| - Overlap(x, tags.end);
            EatAll(tags, State(ParsingContent, x)) == Outcome(State(ParsingContent, x[n..]), Content(x[..n]))
  {
  }

  /** Content `u` that was emitted before the cut would have been emitted anyway; `w` waits. */
  lemma SplitHeldBack(tags: Tags, u: string, w: string, y: string, k: Atoms)
    requires ValidTags(tags) && Aligned(tags.end, u, w + y)
    requires EatAll(tags, State(ParsingContent, u + w)) == Outcome(State(ParsingContent, w), Content(u))
    ensures SplitAgrees(tags, ParsingContent, u + w, y, k)
  {
    var two := EatAll(tags, State(ParsingContent, w + y));
    assert u + w + y == u + (w + y);
    EarlyIsLate(tags, u, w + y, k);
    FlattenContent(u, Flatten(two.events, k));
  }

  lemma SplitInContent(tags: Tags, x: string, y: string, k: Atoms)
    requires ValidTags(tags) && Index(x, tags.end) == -1
    ensures SplitAgrees(tags, ParsingContent, x, y, k)
  {
    var n := |x| - Overlap(x, tags.end);
    assert x[..n] + x[n..] == x;
    HeldBackOutcome(tags, x);
    HeldBackIsAligned(tags.end, x, y);
    SplitHeldBack(tags, x[..n], x[n..], y, k);
  }

  lemma {:induction false} SplitBuffer(tags: Tags, phase: Phase, x: string, y: string, k: Atoms)
    requires ValidTags(tags)
    ensures SplitAgrees(tags, phase, x, y, k)
    decreases |x|
  {
    var s := Eat(tags, State(phase, x));
    if s.again {
      SplitBuffer(tags, s.state.phase, s.state.acc, y, k);
      SplitAfterTurn(tags, phase, x, y, k);
    } else if phase == ParsingContent {
      SplitInContent(tags, x, y, k);
    }
  }

  /** Feeds a list of chunks. */
  function FeedAll(tags: Tags, st: State, chunks: seq<string>): Outcome
    requires ValidTags(tags)
    decreases |chunks|
  {
    if chunks == [] then Outcome(st, [])
    else
      var first := Feed(tags, st, chunks[0]);
      var rest := FeedAll(tags, first.state, chunks[1..]);
      Outcome(rest.state, first.events + rest.events)
  }

  function Join(chunks: seq<string>): string {
    if chunks == [] then "" else chunks[0] + Join(chunks[1..])
  }

  lemma {:induction false} AnyCutIsWhole(tags: Tags, st: State, chunks: seq<string>, k: Atoms)
    requires ValidTags(tags) && chunks != []
    ensures var cut, whole := FeedAll(tags, st, chunks), Feed(tags, st, Join(chunks));
            cut.state == whole.state && Flatten(cut.events, k) == Flatten(whole.events, k)
    decreases |chunks|
  {
    var first := Feed(tags, st, chunks[0]);
    var rest := FeedAll(tags, first.state, chunks[1..]);
    FlattenConcat(first.events, rest.events, k);
    if |chunks| == 1 {
      assert rest.events == [];
      assert Join(chunks) == chunks[0];
    } else {
      AnyCutIsWhole(tags, first.state, chunks[1..], k);
      SplitBuffer(tags, st.phase, st.acc + chunks[0], Join(chunks[1..]), k);
      assert st.acc + chunks[0] + Join(chunks[1..]) == st.acc + Join(chunks);
    }
  }

  // ---------------------------------------------------------------- merging content events

  /** Adjacent content events joined into one. */
  function Merge(events: seq<Event>): seq<Event> {
    if events == [] then []
    else Prepend(events[0], Merge(events[1..]))
  }

  function Prepend(e: Event, rest: seq<Event>): seq<Event> {
    if e.ContentEmitted? && rest != [] && rest[0].ContentEmitted? then
      [ContentEmitted(e.content + rest[0].content)] + rest[1..]
    else [e] + rest
  }

  /** The merged events, rebuilt from the atoms. */
  function Regroup(atoms: Atoms): seq<Event> {
    match atoms
    case Nil => []
    case Start(rest) => Prepend(MessageStart, Regroup(rest))
    case Head(h, rest) => Prepend(HeaderComplete(h), Regroup(rest))
    case Char(c, rest) => Prepend(ContentEmitted([c]), Regroup(rest))
    case End(rest) => Prepend(MessageEnd, Regroup(rest))
  }

  predicate NoEmptyContent(events: seq<Event>) {
    forall i :: 0 <= i < |events| ==> events[i] != ContentEmitted("")
  }

  lemma PrependTwice(c: char, s: string, rest: seq<Event>)
    ensures Prepend(ContentEmitted([c]), Prepend(ContentEmitted(s), rest)) == Prepend(ContentEmitted([c] + s), rest)
  {
    if rest != [] && rest[0].ContentEmitted? {
      assert [c] + (s + rest[0].content) == [c] + s + rest[0].content;
    }
  }

  lemma {:induction false} RegroupChars(s: string, k: Atoms)
    requires s != ""
    ensures Regroup(Chars(s, k)) == Prepend(ContentEmitted(s), Regroup(k))
  {
    if |s| == 1 {
      assert s == [s[0]] && s[1..] == "";
    } else {
      RegroupChars(s[1..], k);
      PrependTwice(s[0], s[1..], Regroup(k));
      assert [s[0]] + s[1..] == s;
    }
  }

  lemma {:induction false} MergeIsRegroup(events: seq<Event>)
    requires NoEmptyContent(events)
    ensures Merge(events) == Regroup(Flatten(events, Nil))
  {
    if events != [] {
      MergeIsRegroup(events[1..]);
      if events[0].ContentEmitted? {
        RegroupChars(events[0].content, Flatten(events[1..], Nil));
      }
    }
  }

  lemma {:induction false} NeverEmitsEmpty(tags: Tags, st: State)
    requires ValidTags(tags)
    ensures NoEmptyContent(EatAll(tags, st).events)
    decreases |st.acc|
  {
    var s := Eat(tags, st);
    if s.again {
      NeverEmitsEmpty(tags, s.state);
    }
  }

  lemma {:induction false} NeverFeedsEmpty(tags: Tags, st: State, chunks: seq<string>)
    requires ValidTags(tags)
    ensures NoEmptyContent(FeedAll(tags, st, chunks).events)
    decreases |chunks|
  {
    if chunks != [] {
      var first := Feed(tags, st, chunks[0]);
      NeverEmitsEmpty(tags, State(st.phase, st.acc + chunks[0]));
      NeverFeedsEmpty(tags, first.state, chunks[1..]);
    }
  }

  /**
   * Chunking invariance: two ways of cutting the same stream leave the parser in the same state and
   * produce the same events once adjacent content is merged.
   */
  lemma ChunkingInvariance(tags: Tags, st: State, a: seq<string>, b: seq<string>)
    requires ValidTags(tags) && a != [] && b != [] && Join(a) == Join(b)
    ensures FeedAll(tags, st, a).state == FeedAll(tags, st, b).state
    ensures Merge(FeedAll(tags, st, a).events) == Merge(FeedAll(tags, st, b).events)
  {
    AnyCutIsWhole(tags, st, a, Nil);
    AnyCutIsWhole(tags, st, b, Nil);
    NeverFeedsEmpty(tags, st, a);
    NeverFeedsEmpty(tags, st, b);
    MergeIsRegroup(FeedAll(tags, st, a).events);
    MergeIsRegroup(FeedAll(tags, st, b).events);
  }
}

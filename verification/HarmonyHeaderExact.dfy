/** How any header is read: its tokens, and the channel taken out of them. */
module HarmonyHeaderExact {
  import opened HarmonyText
  import opened HarmonyHeader

  // ---------------------------------------------------------------- tokens

  /** White space: space, tab, line feed, carriage return, vertical tab and form feed. */
  predicate Blank(s: string) {
    forall i :: 0 <= i < |s| ==> s[i] in " \t\n\r\U{0B}\U{0C}"
  }

  /** A token: not empty, and without white space. */
  predicate IsToken(s: string) {
    s != "" && forall i :: 0 <= i < |s| ==> s[i] !in " \t\n\r\U{0B}\U{0C}"
  }

  lemma SpaceIs(c: char)
    ensures IsSpace(c) <==> c in " \t\n\r\U{0B}\U{0C}"
  {
  }

  /** Tokens with white space before, between and after them. */
  function Spaced(gaps: seq<string>, tokens: seq<string>): string
    requires |gaps| == |tokens| + 1
  {
    if tokens == [] then gaps[0] else gaps[0] + (tokens[0] + Spaced(gaps[1..], tokens[1..]))
  }

  predicate GoodGaps(gaps: seq<string>, tokens: seq<string>) {
    && |gaps| == |tokens| + 1
    && (forall i :: 0 <= i < |gaps| ==> Blank(gaps[i]))
    && (forall i :: 0 < i < |tokens| ==> gaps[i] != "")
  }

  lemma SpacedStart(gaps: seq<string>, tokens: seq<string>)
    requires GoodGaps(gaps, tokens) && (tokens != [] ==> gaps[0] != "")
    ensures StartsWithSpace(Spaced(gaps, tokens))
  {
    if gaps[0] != "" {
      SpaceIs(gaps[0][0]);
      assert Spaced(gaps, tokens)[0] == gaps[0][0];
    }
  }

  lemma BlankIsSpaces(s: string)
    ensures Blank(s) <==> forall i :: 0 <= i < |s| ==> IsSpace(s[i])
  {
    forall i | 0 <= i < |s|
      ensures IsSpace(s[i]) <==> s[i] in " \t\n\r\U{0B}\U{0C}"
    {
      SpaceIs(s[i]);
    }
  }

  lemma TokenHasNoSpace(s: string)
    ensures IsToken(s) <==> s != "" && NoSpace(s)
  {
    forall i | 0 <= i < |s|
      ensures IsSpace(s[i]) <==> s[i] in " \t\n\r\U{0B}\U{0C}"
    {
      SpaceIs(s[i]);
    }
  }

  /** The tokens of a text are read whatever white space stands around them. */
  lemma {:induction false} TokensAreRead(gaps: seq<string>, tokens: seq<string>)
    requires GoodGaps(gaps, tokens) && forall i :: 0 <= i < |tokens| ==> IsToken(tokens[i])
    ensures Fields(Spaced(gaps, tokens)) == tokens
    decreases |tokens|
  {
    BlankIsSpaces(gaps[0]);
    if tokens == [] {
      FieldsSpaces(gaps[0], "");
      assert gaps[0] + "" == gaps[0];
    } else {
      var rest := Spaced(gaps[1..], tokens[1..]);
      FieldsSpaces(gaps[0], tokens[0] + rest);
      TokenHasNoSpace(tokens[0]);
      SpacedStart(gaps[1..], tokens[1..]);
      FieldsToken(tokens[0], rest);
      TokensAreRead(gaps[1..], tokens[1..]);
    }
  }

  // ---------------------------------------------------------------- trimming makes no difference

  lemma {:induction false} FieldsTrimLeft(s: string)
    ensures Fields(TrimLeft(s)) == Fields(s)
  {
    if s != "" && IsSpace(s[0]) {
      FieldsTrimLeft(s[1..]);
    }
  }

  lemma {:induction false} TokenLengthOfExtension(s: string, c: char)
    requires IsSpace(c)
    ensures TokenLength(s + [c]) == TokenLength(s)
  {
    if s != "" && !IsSpace(s[0]) {
      assert (s + [c])[1..] == s[1..] + [c];
      TokenLengthOfExtension(s[1..], c);
    }
  }

  lemma {:induction false} FieldsTrailing(s: string, c: char)
    requires IsSpace(c)
    ensures Fields(s + [c]) == Fields(s)
    decreases |s|
  {
    var t := s + [c];
    if s == "" {
      assert t[1..] == "";
    } else if IsSpace(s[0]) {
      assert t[1..] == s[1..] + [c];
      FieldsTrailing(s[1..], c);
    } else {
      var n := TokenLength(s);
      TokenLengthOfExtension(s, c);
      assert t[..n] == s[..n] && t[n..] == s[n..] + [c];
      FieldsTrailing(s[n..], c);
    }
  }

  lemma {:induction false} FieldsTrimRight(s: string)
    ensures Fields(TrimRight(s)) == Fields(s)
  {
    if s != "" && IsSpace(s[|s| - 1]) {
      var n := |s| - 1;
      assert s[..n] + [s[n]] == s;
      FieldsTrailing(s[..n], s[n]);
      FieldsTrimRight(s[..n]);
    }
  }

  lemma FieldsTrim(s: string)
    ensures Fields(TrimSpace(s)) == Fields(s)
  {
    FieldsTrimLeft(s);
    FieldsTrimRight(TrimLeft(s));
  }

  // ---------------------------------------------------------------- any header

  /**
   * A header with a channel: the channel is what follows the first channel tag up to white space, and the tokens are
   * those of the rest.
   */
  lemma ChannelledHeader(before: string, channel: string, rest: string)
    requires !Contains(before, "<|channel|>") && NoSpace(channel) && StartsWithSpace(rest)
    requires !Contains(before + "<|channel|>" + (channel + rest), "<|constrain|>")
    ensures ParseHeader(before + "<|channel|>" + (channel + rest)) == FromTokens(Fields(before + rest), channel)
  {
    var raw := before + CHANNEL + (channel + rest);
    IndexSpec(raw, CONSTRAIN);
    HeaderTagsUnbordered();
    FirstTagAfter(before, CHANNEL, channel + rest);
    assert raw[|before| + |CHANNEL|..] == channel + rest && raw[..|before|] == before;
    TokenLengthIs(channel, rest);
    assert (channel + rest)[..|channel|] == channel && (channel + rest)[|channel|..] == rest;
    FieldsTrim(before + rest);
  }

  /** A header without one. */
  lemma PlainHeader(raw: string)
    requires !Contains(raw, "<|channel|>") && !Contains(raw, "<|constrain|>")
    ensures ParseHeader(raw) == FromTokens(Fields(raw), "")
  {
    IndexSpec(raw, CONSTRAIN);
    IndexSpec(raw, CHANNEL);
  }

  /**
   * The role is the first token and the recipient the second, if it is marked as one; without tokens both are empty.
   */
  lemma TokensMean(channel: string, tokens: seq<string>)
    ensures tokens == [] ==> FromTokens(tokens, channel) == Header("", channel, "")
    ensures tokens != [] && !("to=" <= tokens[0]) ==>
              && FromTokens(tokens, channel).role == tokens[0] && FromTokens(tokens, channel).channel == channel
              && FromTokens(tokens, channel).recipient
                 == if |tokens| > 1 && "to=" <= tokens[1] then tokens[1][3..] else ""
    ensures tokens != [] && "to=" <= tokens[0] && |tokens[0]| > 3 ==>
              FromTokens(tokens, channel) == Header("tool", channel, tokens[0][3..])
    ensures tokens != [] && tokens[0] == "to=" ==>
              FromTokens(tokens, channel)
              == Header("tool", channel, if |tokens| > 1 && "to=" <= tokens[1] then tokens[1][3..] else "")
  {
  }

  /** A header of white space alone says nothing. */
  lemma EmptyHeader(blank: string)
    requires Blank(blank)
    ensures ParseHeader(blank) == Header("", "", "")
  {
    BlankIsSpaces(blank);
    FieldsSpaces(blank, "");
    assert blank + "" == blank;
    forall i
      ensures !At(blank, "<|channel|>", i) && !At(blank, "<|constrain|>", i)
    {
      if 0 <= i < |blank| {
        assert blank[i] != '<';
        assert "<|channel|>"[0] == '<' && "<|constrain|>"[0] == '<';
      }
    }
    PlainHeader(blank);
  }
}

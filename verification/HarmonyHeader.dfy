/** Message headers: role, channel and recipient. */
module HarmonyHeader {
  import opened HarmonyText

  datatype Header = Header(role: string, channel: string, recipient: string)

  const CONSTRAIN := "<|constrain|>"
  const CHANNEL := "<|channel|>"

  predicate IsSpace(c: char) {
    c == ' ' || c == '\t' || c == '\n' || c == '\r' || c == '\U{0B}' || c == '\U{0C}'
  }

  /** The number of leading characters up to the first space. */
  function TokenLength(s: string): (n: nat)
    ensures n <= |s| && (forall i :: 0 <= i < n ==> !IsSpace(s[i])) && (n < |s| ==> IsSpace(s[n]))
  {
    if s == "" || IsSpace(s[0]) then 0 else 1 + TokenLength(s[1..])
  }

  function TrimLeft(s: string): string {
    if s != "" && IsSpace(s[0]) then TrimLeft(s[1..]) else s
  }

  function TrimRight(s: string): string {
    if s != "" && IsSpace(s[|s| - 1]) then TrimRight(s[..|s| - 1]) else s
  }

  function TrimSpace(s: string): string {
    TrimRight(TrimLeft(s))
  }

  /** `strings.Fields`. */
  function Fields(s: string): seq<string>
    decreases |s|
  {
    if s == "" then []
    else if IsSpace(s[0]) then Fields(s[1..])
    else
      var n := TokenLength(s);
      [s[..n]] + Fields(s[n..])
  }

  predicate HasPrefix(s: string, prefix: string) {
    prefix <= s
  }

  /** The role and the recipient are the first tokens once the channel is taken out. */
  function FromTokens(tokens: seq<string>, channel: string): Header {
    if tokens == [] then Header("", channel, "")
    else
      var first := tokens[0];
      var early := HasPrefix(first, "to=");
      var recipient0 := if early then first[3..] else "";
      var recipient := if recipient0 == "" && |tokens| > 1 && HasPrefix(tokens[1], "to=") then tokens[1][3..]
                       else recipient0;
      Header(if early then "tool" else first, channel, recipient)
  }

  /** A space is put before the first constraint tag, so that it ends the token before it. */
  function Separated(raw: string): string {
    var i := Index(raw, CONSTRAIN);
    if i >= 0 then TrimSpace(raw[..i] + " " + raw[i..]) else raw
  }

  function ParseHeader(raw0: string): Header {
    var raw := Separated(raw0);
    var i := Index(raw, CHANNEL);
    if i >= 0 then
      var after := raw[i + |CHANNEL|..];
      var n := TokenLength(after);
      FromTokens(Fields(TrimSpace(raw[..i] + after[n..])), after[..n])
    else FromTokens(Fields(raw), "")
  }

  // ---------------------------------------------------------------- headers read back

  predicate NoSpace(s: string) {
    forall i :: 0 <= i < |s| ==> !IsSpace(s[i])
  }

  predicate StartsWithSpace(s: string) {
    s == "" || IsSpace(s[0])
  }

  predicate Trimmed(s: string) {
    s == "" || (!IsSpace(s[0]) && !IsSpace(s[|s| - 1]))
  }

  lemma {:induction false} TokenLengthIs(t: string, s: string)
    requires NoSpace(t) && StartsWithSpace(s)
    ensures TokenLength(t + s) == |t|
  {
    if t == "" {
      assert t + s == s;
    } else {
      assert (t + s)[1..] == t[1..] + s;
      TokenLengthIs(t[1..], s);
    }
  }

  lemma FieldsToken(t: string, s: string)
    requires t != "" && NoSpace(t) && StartsWithSpace(s)
    ensures Fields(t + s) == [t] + Fields(s)
  {
    TokenLengthIs(t, s);
    assert (t + s)[..|t|] == t && (t + s)[|t|..] == s;
  }

  lemma {:induction false} FieldsSpaces(sp: string, s: string)
    requires forall i :: 0 <= i < |sp| ==> IsSpace(sp[i])
    ensures Fields(sp + s) == Fields(s)
  {
    if sp == "" {
      assert sp + s == s;
    } else {
      assert (sp + s)[1..] == sp[1..] + s;
      FieldsSpaces(sp[1..], s);
    }
  }

  /** The recipient as it is written into a header. */
  function To(recipient: string): string {
    if recipient == "" then "" else " to=" + recipient
  }

  /** An optional constraint on the content type, as models write it: glued to what precedes it, or after spaces. */
  datatype Constraint = Free | Constrained(spaces: string, kind: string)

  function Tail(c: Constraint): string {
    if c.Free? then "" else c.spaces + CONSTRAIN + c.kind
  }

  /** The tail once a space separates it. */
  function SeparateTail(c: Constraint): string {
    if c.Free? then "" else c.spaces + " " + CONSTRAIN + c.kind
  }

  /** A header with the recipient before or after the channel. */
  function RenderHeader(h: Header, recipientFirst: bool, c: Constraint): string {
    if recipientFirst then h.role + To(h.recipient) + CHANNEL + h.channel + Tail(c)
    else h.role + CHANNEL + h.channel + To(h.recipient) + Tail(c)
  }

  /** The names hold no whitespace and no tag. */
  ghost predicate Readable(h: Header, recipientFirst: bool, c: Constraint) {
    && h.role != "" && NoSpace(h.role) && NoSpace(h.channel) && NoSpace(h.recipient)
    && !Contains(Before(h, recipientFirst), CHANNEL)
    && !Contains(RenderHeader(h, recipientFirst, Free) + (if c.Free? then "" else c.spaces), CONSTRAIN)
    && (c.Constrained? ==> NoSpace(c.kind) && forall i :: 0 <= i < |c.spaces| ==> IsSpace(c.spaces[i]))
  }

  lemma HeaderTagsUnbordered()
    ensures Unbordered(CHANNEL) && Unbordered(CONSTRAIN)
  {
    DistinctFirstIsUnbordered(CHANNEL);
    DistinctFirstIsUnbordered(CONSTRAIN);
  }

  lemma TrimStable(s: string)
    requires Trimmed(s)
    ensures TrimSpace(s) == s
  {
  }

  /** The first step sees the header with its constraint set off by a space. */
  lemma SeparatedIs(f: string, c: Constraint)
    requires f != "" && !IsSpace(f[0])
    requires !Contains(f + (if c.Free? then "" else c.spaces), CONSTRAIN)
    requires c.Constrained? ==> NoSpace(c.kind)
    ensures Separated(f + Tail(c)) == f + SeparateTail(c)
  {
    if c.Free? {
      assert f + "" == f;
      IndexSpec(f, CONSTRAIN);
    } else {
      var text := f + c.spaces;
      var raw := text + CONSTRAIN + c.kind;
      assert f + Tail(c) == raw;
      HeaderTagsUnbordered();
      FirstTagAfter(text, CONSTRAIN, c.kind);
      assert raw[..|text|] == text && raw[|text|..] == CONSTRAIN + c.kind;
      var apart := text + " " + (CONSTRAIN + c.kind);
      assert apart == f + SeparateTail(c);
      assert apart[|apart| - 1] == (CONSTRAIN + c.kind)[|CONSTRAIN + c.kind| - 1];
      TrimStable(apart);
    }
  }

  lemma SpaceFirst(a: string, b: string)
    requires StartsWithSpace(a) && StartsWithSpace(b)
    ensures StartsWithSpace(a + b)
  {
    assert a == "" ==> a + b == b;
  }

  lemma ToStartsWithSpace(recipient: string)
    ensures StartsWithSpace(To(recipient))
  {
  }

  lemma TailStartsWithSpace(c: Constraint)
    requires c.Constrained? ==> forall i :: 0 <= i < |c.spaces| ==> IsSpace(c.spaces[i])
    ensures StartsWithSpace(SeparateTail(c))
  {
    if c.Constrained? {
      assert SeparateTail(c)[0] == (c.spaces + " ")[0];
    }
  }

  lemma FieldsTo(recipient: string, tail: string)
    requires NoSpace(recipient) && StartsWithSpace(tail)
    ensures Fields(To(recipient) + tail) == (if recipient == "" then [] else ["to=" + recipient]) + Fields(tail)
  {
    if recipient == "" {
      assert To(recipient) + tail == tail;
    } else {
      var token := "to=" + recipient;
      assert " " + token == " to=" + recipient;
      assert To(recipient) + tail == " " + (token + tail);
      FieldsSpaces(" ", token + tail);
      FieldsToken(token, tail);
    }
  }

  /** What a header says: a role written as a recipient makes it a tool's header. */
  function Meaning(h: Header): Header {
    if !HasPrefix(h.role, "to=") then h
    else Header("tool", h.channel, if |h.role| > 3 then h.role[3..] else h.recipient)
  }

  lemma FromTokensIs(role: string, channel: string, recipient: string, rest: seq<string>)
    requires rest != [] ==> !HasPrefix(rest[0], "to=")
    ensures FromTokens([role] + ((if recipient == "" then [] else ["to=" + recipient]) + rest), channel)
              == Meaning(Header(role, channel, recipient))
  {
    if recipient == "" {
      assert [] + rest == rest;
    } else {
      var token := "to=" + recipient;
      assert ([role] + ([token] + rest))[1] == token;
      assert token[3..] == recipient;
    }
  }

  lemma FieldsSpacedToken(spaces: string, token: string)
    requires token != "" && NoSpace(token) && forall i :: 0 <= i < |spaces| ==> IsSpace(spaces[i])
    ensures Fields(spaces + token) == [token]
  {
    FieldsSpaces(spaces, token);
    FieldsToken(token, "");
    assert token + "" == token;
  }

  lemma TailTokens(c: Constraint)
    requires c.Constrained? ==> NoSpace(c.kind) && forall i :: 0 <= i < |c.spaces| ==> IsSpace(c.spaces[i])
    ensures var t := Fields(SeparateTail(c)); t != [] ==> !HasPrefix(t[0], "to=")
  {
    if c.Constrained? {
      var token := CONSTRAIN + c.kind;
      assert SeparateTail(c) == (c.spaces + " ") + token;
      FieldsSpacedToken(c.spaces + " ", token);
      assert token[0] == '<';
    }
  }

  /** The tokens of a header without its channel. */
  lemma TokensAre(h: Header, c: Constraint)
    requires h.role != "" && NoSpace(h.role) && NoSpace(h.recipient)
    requires c.Constrained? ==> NoSpace(c.kind) && forall i :: 0 <= i < |c.spaces| ==> IsSpace(c.spaces[i])
    ensures FromTokens(Fields(h.role + (To(h.recipient) + SeparateTail(c))), h.channel) == Meaning(h)
  {
    var to, tail := To(h.recipient), SeparateTail(c);
    ToStartsWithSpace(h.recipient);
    TailStartsWithSpace(c);
    SpaceFirst(to, tail);
    FieldsToken(h.role, to + tail);
    FieldsTo(h.recipient, tail);
    TailTokens(c);
    FromTokensIs(h.role, h.channel, h.recipient, Fields(tail));
  }

  /** Taking the channel out of a separated header. */
  lemma ChannelTaken(before: string, channel: string, rest: string)
    requires !Contains(before, CHANNEL) && NoSpace(channel) && StartsWithSpace(rest) && Trimmed(before + rest)
    ensures var raw := before + CHANNEL + (channel + rest);
            var i := Index(raw, CHANNEL);
            var after := raw[i + |CHANNEL|..];
            && i == |before| && TokenLength(after) == |channel| && after[..|channel|] == channel
            && TrimSpace(raw[..i] + after[|channel|..]) == before + rest
  {
    var raw := before + CHANNEL + (channel + rest);
    HeaderTagsUnbordered();
    FirstTagAfter(before, CHANNEL, channel + rest);
    assert raw[|before| + |CHANNEL|..] == channel + rest;
    TokenLengthIs(channel, rest);
    assert (channel + rest)[..|channel|] == channel && (channel + rest)[|channel|..] == rest;
    assert raw[..|before|] == before;
    TrimStable(before + rest);
  }

  lemma HeaderEnds(h: Header, c: Constraint)
    requires h.role != "" && NoSpace(h.role) && NoSpace(h.recipient) && (c.Constrained? ==> NoSpace(c.kind))
    ensures Trimmed(h.role + (To(h.recipient) + SeparateTail(c)))
  {
    var s := h.role + (To(h.recipient) + SeparateTail(c));
    if c.Constrained? {
      assert s[|s| - 1] == (CONSTRAIN + c.kind)[|CONSTRAIN + c.kind| - 1];
    } else if h.recipient != "" {
      assert s[|s| - 1] == h.recipient[|h.recipient| - 1];
    } else {
      assert s == h.role;
    }
  }

  /** What stands before the channel tag, and what follows the channel name. */
  function Before(h: Header, recipientFirst: bool): string {
    if recipientFirst then h.role + To(h.recipient) else h.role
  }

  function After(h: Header, recipientFirst: bool, tail: string): string {
    if recipientFirst then tail else To(h.recipient) + tail
  }

  lemma Pieces(h: Header, recipientFirst: bool, c: Constraint)
    requires h.role != ""
    ensures var f, tail := RenderHeader(h, recipientFirst, Free), SeparateTail(c);
            && RenderHeader(h, recipientFirst, c) == f + Tail(c)
            && f != "" && f[0] == h.role[0]
            && f + tail == Before(h, recipientFirst) + CHANNEL + (h.channel + After(h, recipientFirst, tail))
            && Before(h, recipientFirst) + After(h, recipientFirst, tail) == h.role + (To(h.recipient) + tail)
  {
    Glue(h.role, To(h.recipient), CHANNEL, h.channel, SeparateTail(c));
    Glue(h.role, To(h.recipient), CHANNEL, h.channel, Tail(c));
  }

  lemma Glue(a: string, b: string, tag: string, d: string, e: string)
    ensures a + b + tag + d + "" == a + b + tag + d && a + tag + d + b + "" == a + tag + d + b
    ensures (a + b + tag + d) + e == (a + b) + tag + (d + e)
    ensures (a + tag + d + b) + e == a + tag + (d + (b + e))
    ensures (a + b) + e == a + (b + e)
  {
  }

  lemma ParseSeparated(raw: string, before: string, channel: string, rest: string)
    requires Separated(raw) == before + CHANNEL + (channel + rest)
    requires !Contains(before, CHANNEL) && NoSpace(channel) && StartsWithSpace(rest) && Trimmed(before + rest)
    ensures ParseHeader(raw) == FromTokens(Fields(before + rest), channel)
  {
    ChannelTaken(before, channel, rest);
  }

  /**
   * A header reads back to its role, channel and recipient, wherever the recipient was put; if the role is
   * itself written as a recipient, to a tool's header with that recipient.
   */
  lemma HeaderRoundTrip(h: Header, recipientFirst: bool, c: Constraint)
    requires Readable(h, recipientFirst, c)
    ensures ParseHeader(RenderHeader(h, recipientFirst, c)) == Meaning(h)
  {
    var to, tail := To(h.recipient), SeparateTail(c);
    Pieces(h, recipientFirst, c);
    SeparatedIs(RenderHeader(h, recipientFirst, Free), c);
    HeaderEnds(h, c);
    ToStartsWithSpace(h.recipient);
    TailStartsWithSpace(c);
    SpaceFirst(to, tail);
    ParseSeparated(RenderHeader(h, recipientFirst, c), Before(h, recipientFirst), h.channel,
        After(h, recipientFirst, tail));
    TokensAre(h, c);
  }

  /** A header without a channel tag reads back with an empty channel. */
  lemma ChannellessRoundTrip(role: string, recipient: string, c: Constraint)
    requires role != "" && NoSpace(role) && NoSpace(recipient)
    requires c.Constrained? ==> NoSpace(c.kind) && forall i :: 0 <= i < |c.spaces| ==> IsSpace(c.spaces[i])
    requires !Contains(role + To(recipient) + (if c.Free? then "" else c.spaces), CONSTRAIN)
    requires !Contains(role + (To(recipient) + SeparateTail(c)), CHANNEL)
    ensures ParseHeader(role + To(recipient) + Tail(c)) == Meaning(Header(role, "", recipient))
  {
    var raw := role + (To(recipient) + SeparateTail(c));
    SeparatedIs(role + To(recipient), c);
    GlueTail(role, To(recipient), SeparateTail(c));
    ParseWithoutChannel(role + To(recipient) + Tail(c), raw);
    TokensAre(Header(role, "", recipient), c);
  }

  lemma GlueTail(a: string, b: string, c: string)
    ensures a + b + c == a + (b + c)
  {
  }

  lemma ParseWithoutChannel(raw0: string, raw: string)
    requires Separated(raw0) == raw && !Contains(raw, CHANNEL)
    ensures ParseHeader(raw0) == FromTokens(Fields(raw), "")
  {
    IndexSpec(raw, CHANNEL);
  }
}

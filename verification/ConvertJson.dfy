/** Rewriting of the number tokens that JSON does not allow: Infinity, -Infinity and NaN (section 6 of RFC 8259). */
module ConvertJson {

  /** A byte, written as the character with that code. */
  type Byte = c: char | c < '\U{0100}' witness '0'

  type Bytes = seq<Byte>

  const NEG_INFINITY: Bytes := "-Infinity"
  const INFINITY: Bytes := "Infinity"
  const NAN: Bytes := "NaN"

  predicate IsWhitespace(b: Byte) {
    b == ' ' || b == '\t' || b == '\n' || b == '\r'
  }

  predicate IsPrefixBoundary(b: Byte) {
    IsWhitespace(b) || b == ':' || b == ',' || b == '['
  }

  predicate IsSuffixBoundary(b: Byte) {
    IsWhitespace(b) || b == ',' || b == ']' || b == '}'
  }

  /** `hasToken`: `tok` stands at `at`, set off on both sides. */
  predicate HasToken(s: Bytes, at: nat, tok: Bytes) {
    var end := at + |tok|;
    && end <= |s| && s[at..end] == tok
    && (at > 0 ==> IsPrefixBoundary(s[at - 1]))
    && (end < |s| ==> IsSuffixBoundary(s[end]))
  }

  /** Where the scan is: outside strings, inside one, or after a backslash in one. */
  datatype Mode = Outside | Inside | Escaped

  function Next(m: Mode, c: Byte): Mode {
    match m
    case Outside => if c == '"' then Inside else Outside
    case Inside => if c == '\\' then Escaped else if c == '"' then Outside else Inside
    case Escaped => Inside
  }

  /** The mode before byte `n`. */
  function ModeAt(s: Bytes, n: nat): Mode
    requires n <= |s|
  {
    if n == 0 then Outside else Next(ModeAt(s, n - 1), s[n - 1])
  }

  // ---------------------------------------------------------------- the rewriting, on what is left to read

  /** What precedes the bytes that are left. */
  datatype Prev = Begin | After(b: Byte)

  predicate Boundary(p: Prev) {
    p.Begin? || IsPrefixBoundary(p.b)
  }

  predicate TokenHere(p: Prev, s: Bytes, tok: Bytes) {
    tok <= s && Boundary(p) && (|tok| < |s| ==> IsSuffixBoundary(s[|tok|]))
  }

  /** The length of the token that stands here, and 0 if there is none. */
  function TokenLength(p: Prev, s: Bytes): (n: nat)
    ensures n <= |s|
  {
    if TokenHere(p, s, NEG_INFINITY) then |NEG_INFINITY|
    else if TokenHere(p, s, INFINITY) then |INFINITY|
    else if TokenHere(p, s, NAN) then |NAN|
    else 0
  }

  function Rewrite(p: Prev, s: Bytes, m: Mode): Bytes
    decreases |s|
  {
    if s == [] then []
    else
      var n := TokenLength(p, s);
      if m == Outside && n > 0 then ['0'] + Rewrite(After(s[n - 1]), s[n..], Outside)
      else [s[0]] + Rewrite(After(s[0]), s[1..], Next(m, s[0]))
  }

  function Sanitize(s: Bytes): Bytes {
    Rewrite(Begin, s, Outside)
  }

  function PrevOf(s: Bytes, i: nat): Prev
    requires i <= |s|
  {
    if i == 0 then Begin else After(s[i - 1])
  }

  lemma TokenHereIs(s: Bytes, i: nat, tok: Bytes)
    requires i <= |s|
    ensures HasToken(s, i, tok) <==> TokenHere(PrevOf(s, i), s[i..], tok)
  {
    if i + |tok| <= |s| {
      assert s[i..][..|tok|] == s[i..i + |tok|];
    }
  }

  /** The rewriting of the bytes from `i` on. */
  function RewriteFrom(s: Bytes, i: nat, m: Mode): Bytes
    requires i <= |s|
  {
    Rewrite(PrevOf(s, i), s[i..], m)
  }

  lemma QuoteIsNoToken(s: Bytes, i: nat)
    requires i < |s| && s[i] == '"'
    ensures !HasToken(s, i, NEG_INFINITY) && !HasToken(s, i, INFINITY) && !HasToken(s, i, NAN)
  {
    assert forall tok: Bytes :: tok != [] && HasToken(s, i, tok) ==> s[i] == tok[0] by {
      assert forall tok: Bytes :: tok != [] && i + |tok| <= |s| ==> s[i..i + |tok|][0] == s[i];
    }
  }

  lemma StepCopies(s: Bytes, i: nat, m: Mode)
    requires i < |s|
    requires m == Outside ==> !HasToken(s, i, NEG_INFINITY) && !HasToken(s, i, INFINITY) && !HasToken(s, i, NAN)
    ensures RewriteFrom(s, i, m) == [s[i]] + RewriteFrom(s, i + 1, Next(m, s[i]))
  {
    TokenHereIs(s, i, NEG_INFINITY);
    TokenHereIs(s, i, INFINITY);
    TokenHereIs(s, i, NAN);
    assert s[i..][1..] == s[i + 1..];
  }

  lemma StepReplaces(s: Bytes, i: nat, tok: Bytes)
    requires i < |s| && HasToken(s, i, tok)
    requires || tok == NEG_INFINITY || (tok == INFINITY && !HasToken(s, i, NEG_INFINITY))
             || (tok == NAN && !HasToken(s, i, NEG_INFINITY) && !HasToken(s, i, INFINITY))
    ensures i + |tok| <= |s| && RewriteFrom(s, i, Outside) == ['0'] + RewriteFrom(s, i + |tok|, Outside)
  {
    TokenHereIs(s, i, NEG_INFINITY);
    TokenHereIs(s, i, INFINITY);
    TokenHereIs(s, i, NAN);
    assert s[i..][|tok|..] == s[i + |tok|..];
  }

  function ModeOf(inString: bool, escape: bool): Mode {
    if !inString then Outside else if escape then Escaped else Inside
  }

  /** `out` is the rewriting of what was read before `i`. */
  predicate Done(s: Bytes, i: nat, m: Mode, out: Bytes) {
    i <= |s| && out + RewriteFrom(s, i, m) == Sanitize(s)
  }

  lemma CopyOne(s: Bytes, i: nat, m: Mode, out: Bytes)
    requires i < |s| && Done(s, i, m, out)
    requires m == Outside ==> !HasToken(s, i, NEG_INFINITY) && !HasToken(s, i, INFINITY) && !HasToken(s, i, NAN)
    ensures Done(s, i + 1, Next(m, s[i]), out + [s[i]])
  {
    StepCopies(s, i, m);
    Glue(out, s[i], RewriteFrom(s, i + 1, Next(m, s[i])));
  }

  lemma ReplaceOne(s: Bytes, i: nat, tok: Bytes, out: Bytes)
    requires i < |s| && HasToken(s, i, tok) && Done(s, i, Outside, out)
    requires || tok == NEG_INFINITY || (tok == INFINITY && !HasToken(s, i, NEG_INFINITY))
             || (tok == NAN && !HasToken(s, i, NEG_INFINITY) && !HasToken(s, i, INFINITY))
    ensures Done(s, i + |tok|, Outside, out + ['0'])
  {
    StepReplaces(s, i, tok);
    Glue(out, '0', RewriteFrom(s, i + |tok|, Outside));
  }

  lemma Glue(out: Bytes, b: Byte, rest: Bytes)
    ensures (out + [b]) + rest == out + ([b] + rest)
  {
  }

  /** `sanitizeNonFiniteJSON`. */
  method SanitizeNonFinite(input: Bytes) returns (out: Bytes)
    ensures out == Sanitize(input)
  {
    out := [];
    var inString, escape, i := false, false, 0;
    assert input[0..] == input;
    while i < |input|
      invariant 0 <= i <= |input| && (escape ==> inString)
      invariant Done(input, i, ModeOf(inString, escape), out)
    {
      var c := input[i];
      ghost var m := ModeOf(inString, escape);
      if inString || c == '"' {
        if c == '"' {
          QuoteIsNoToken(input, i);
        }
        CopyOne(input, i, m, out);
        out := out + [c];
        if !inString {
          inString := true;
        } else if escape {
          escape := false;
        } else if c == '\\' {
          escape := true;
        } else if c == '"' {
          inString := false;
        }
        i := i + 1;
      } else if HasToken(input, i, NEG_INFINITY) {
        ReplaceOne(input, i, NEG_INFINITY, out);
        out := out + ['0'];
        i := i + |NEG_INFINITY|;
      } else if HasToken(input, i, INFINITY) {
        ReplaceOne(input, i, INFINITY, out);
        out := out + ['0'];
        i := i + |INFINITY|;
      } else if HasToken(input, i, NAN) {
        ReplaceOne(input, i, NAN, out);
        out := out + ['0'];
        i := i + |NAN|;
      } else {
        CopyOne(input, i, m, out);
        out := out + [c];
        i := i + 1;
      }
    }
  }

  // ---------------------------------------------------------------- no token is left

  predicate IsToken(tok: Bytes) {
    tok == NEG_INFINITY || tok == INFINITY || tok == NAN
  }

  /** Tokens are made of letters and a sign: no zero, no quote and no boundary is in them. */
  lemma TokenBytes(tok: Bytes)
    requires IsToken(tok)
    ensures tok != []
    ensures forall i :: 0 <= i < |tok| ==>
              tok[i] != '0' && tok[i] != '"' && !IsPrefixBoundary(tok[i]) && !IsSuffixBoundary(tok[i])
  {
    TokenBytesPlain(NEG_INFINITY);
    TokenBytesPlain(INFINITY);
    TokenBytesPlain(NAN);
  }

  predicate Plain(b: Byte) {
    'a' <= b <= 'z' || 'A' <= b <= 'Z' || b == '-'
  }

  lemma TokenBytesPlain(tok: Bytes)
    requires IsToken(tok)
    ensures forall i :: 0 <= i < |tok| ==> Plain(tok[i])
  {
  }

  lemma TokenLengthIs(p: Prev, s: Bytes)
    ensures TokenLength(p, s) > 0 <==> exists tok :: IsToken(tok) && TokenHere(p, s, tok)
    ensures TokenLength(p, s) > 0 ==> IsToken(s[..TokenLength(p, s)])
  {
    assert IsToken(NEG_INFINITY) && IsToken(INFINITY) && IsToken(NAN);
    var n := TokenLength(p, s);
    if TokenHere(p, s, NEG_INFINITY) {
      assert s[..n] == NEG_INFINITY;
    } else if TokenHere(p, s, INFINITY) {
      assert s[..n] == INFINITY;
    } else if TokenHere(p, s, NAN) {
      assert s[..n] == NAN;
    }
  }

  /** Output bytes that are neither zero nor quote were copied, one after the other. */
  lemma {:induction false} CopiedPrefix(p: Prev, s: Bytes, n: nat)
    requires var out := Rewrite(p, s, Outside); n <= |out| && forall k :: 0 <= k < n ==> out[k] != '0' && out[k] != '"'
    ensures var out := Rewrite(p, s, Outside);
            && n <= |s| && s[..n] == out[..n]
            && (n < |out| <==> n < |s|) && (n < |out| && out[n] != '0' ==> out[n] == s[n])
    decreases |s|
  {
    if s != [] && n > 0 {
      var out, rest := Rewrite(p, s, Outside), Rewrite(After(s[0]), s[1..], Outside);
      assert out[0] != '0';
      assert out == [s[0]] + rest;
      assert forall k :: 0 <= k < n - 1 ==> rest[k] == out[k + 1];
      CopiedPrefix(After(s[0]), s[1..], n - 1);
      PrefixGrows(s[0], s[1..], rest, n - 1);
      assert [s[0]] + s[1..] == s;
    }
  }

  lemma PrefixGrows(b: Byte, s: Bytes, out: Bytes, n: nat)
    requires n <= |s| && n <= |out| && s[..n] == out[..n]
    ensures ([b] + s)[..n + 1] == ([b] + out)[..n + 1]
    ensures n < |s| ==> ([b] + s)[n + 1] == s[n]
    ensures n < |out| ==> ([b] + out)[n + 1] == out[n]
  {
    assert ([b] + s)[..n + 1] == [b] + s[..n] && ([b] + out)[..n + 1] == [b] + out[..n];
  }

  /** A token in the output stood in the input at the same place. */
  lemma TokenWasThere(p: Prev, p': Prev, s: Bytes, tok: Bytes)
    requires IsToken(tok) && (Boundary(p') ==> Boundary(p))
    requires TokenHere(p', Rewrite(p, s, Outside), tok)
    ensures TokenHere(p, s, tok)
  {
    var out := Rewrite(p, s, Outside);
    TokenBytes(tok);
    assert forall k :: 0 <= k < |tok| ==> out[k] == tok[k];
    CopiedPrefix(p, s, |tok|);
    assert s[..|tok|] == tok;
  }

  /** No token stands outside strings in `s`, read after `p` in mode `m`. */
  ghost predicate Clean(p: Prev, s: Bytes, m: Mode)
    decreases |s|
  {
    && (m == Outside ==> forall tok :: IsToken(tok) ==> !TokenHere(p, s, tok))
    && (s != [] ==> Clean(After(s[0]), s[1..], Next(m, s[0])))
  }

  lemma {:induction false} RewriteCleans(p: Prev, p': Prev, s: Bytes, m: Mode)
    requires Boundary(p') ==> Boundary(p)
    ensures Clean(p', Rewrite(p, s, m), m)
    decreases |s|
  {
    var out := Rewrite(p, s, m);
    if s == [] {
      forall tok | IsToken(tok)
        ensures !TokenHere(p', out, tok)
      {
        TokenBytes(tok);
      }
    } else {
      var n := TokenLength(p, s);
      TokenLengthIs(p, s);
      if m == Outside && n > 0 {
        TokenBytes(s[..n]);
        assert s[..n][n - 1] == s[n - 1];
        RewriteCleans(After(s[n - 1]), After('0'), s[n..], Outside);
        assert out[1..] == Rewrite(After(s[n - 1]), s[n..], Outside);
        forall tok | IsToken(tok)
          ensures !TokenHere(p', out, tok)
        {
          TokenBytes(tok);
        }
      } else {
        RewriteCleans(After(s[0]), After(s[0]), s[1..], Next(m, s[0]));
        assert out[1..] == Rewrite(After(s[0]), s[1..], Next(m, s[0]));
        forall tok | m == Outside && IsToken(tok)
          ensures !TokenHere(p', out, tok)
        {
          if TokenHere(p', out, tok) {
            TokenWasThere(p, p', s, tok);
          }
        }
      }
    }
  }

  lemma {:induction false} CleanAt(s: Bytes, i: nat, k: nat)
    requires i <= k <= |s| && Clean(PrevOf(s, i), s[i..], ModeAt(s, i)) && ModeAt(s, k) == Outside
    ensures forall tok :: IsToken(tok) ==> !HasToken(s, k, tok)
    decreases k - i
  {
    if i == k {
      forall tok | IsToken(tok)
        ensures !HasToken(s, k, tok)
      {
        TokenHereIs(s, k, tok);
      }
    } else {
      assert s[i..][1..] == s[i + 1..];
      CleanAt(s, i + 1, k);
    }
  }

  /** Outside strings the result holds no Infinity, -Infinity or NaN token. */
  lemma NoTokenLeft(s: Bytes, k: nat)
    requires k <= |Sanitize(s)| && ModeAt(Sanitize(s), k) == Outside
    ensures !HasToken(Sanitize(s), k, NEG_INFINITY) && !HasToken(Sanitize(s), k, INFINITY)
    ensures !HasToken(Sanitize(s), k, NAN)
  {
    RewriteCleans(Begin, Begin, s, Outside);
    assert Sanitize(s)[0..] == Sanitize(s);
    CleanAt(Sanitize(s), 0, k);
    assert IsToken(NEG_INFINITY) && IsToken(INFINITY) && IsToken(NAN);
  }

  lemma {:induction false} CleanIsFixed(p: Prev, s: Bytes, m: Mode)
    requires Clean(p, s, m)
    ensures Rewrite(p, s, m) == s
    decreases |s|
  {
    if s != [] {
      TokenLengthIs(p, s);
      CleanIsFixed(After(s[0]), s[1..], Next(m, s[0]));
      assert [s[0]] + s[1..] == s;
    }
  }

  /** A second pass changes nothing, and neither does a first pass over bytes without such tokens. */
  lemma SanitizeIdempotent(s: Bytes)
    ensures Sanitize(Sanitize(s)) == Sanitize(s)
    ensures Clean(Begin, s, Outside) ==> Sanitize(s) == s
  {
    RewriteCleans(Begin, Begin, s, Outside);
    CleanIsFixed(Begin, Sanitize(s), Outside);
    if Clean(Begin, s, Outside) {
      CleanIsFixed(Begin, s, Outside);
    }
  }

  // ---------------------------------------------------------------- strings are left alone

  /**
   * The string literals of `s`, with their quotes; `open` is the part of a literal already read (section 7 of RFC
   * 8259).
   */
  function Literals(s: Bytes, m: Mode, open: Bytes): seq<Bytes>
    decreases |s|
  {
    if s == [] then (if m == Outside then [] else [open])
    else
      var m' := Next(m, s[0]);
      if m == Outside then
        Literals(s[1..], m', if m' == Outside then [] else [s[0]])
      else if m' == Outside then [open + [s[0]]] + Literals(s[1..], m', [])
      else Literals(s[1..], m', open + [s[0]])
  }

  lemma {:induction false} NoLiteralsIn(tok: Bytes, rest: Bytes, open: Bytes)
    requires forall i :: 0 <= i < |tok| ==> tok[i] != '"'
    requires open == []
    ensures Literals(tok + rest, Outside, open) == Literals(rest, Outside, open)
    decreases |tok|
  {
    if tok == [] {
      assert tok + rest == rest;
    } else {
      assert (tok + rest)[1..] == tok[1..] + rest;
      NoLiteralsIn(tok[1..], rest, open);
    }
  }

  lemma {:induction false} RewriteKeepsLiterals(p: Prev, s: Bytes, m: Mode, open: Bytes)
    requires m == Outside ==> open == []
    ensures Literals(Rewrite(p, s, m), m, open) == Literals(s, m, open)
    decreases |s|
  {
    if s != [] {
      var out := Rewrite(p, s, m);
      var n := TokenLength(p, s);
      TokenLengthIs(p, s);
      if m == Outside && n > 0 {
        var rest := Rewrite(After(s[n - 1]), s[n..], Outside);
        TokenBytes(s[..n]);
        assert s == s[..n] + s[n..];
        NoLiteralsIn(s[..n], s[n..], []);
        NoLiteralsIn(['0'], rest, []);
        RewriteKeepsLiterals(After(s[n - 1]), s[n..], Outside, []);
      } else {
        var m' := Next(m, s[0]);
        assert out[1..] == Rewrite(After(s[0]), s[1..], m');
        RewriteKeepsLiterals(After(s[0]), s[1..], m',
                             if m == Outside then (if m' == Outside then [] else [s[0]])
                             else if m' == Outside then [] else open + [s[0]]);
      }
    }
  }

  /** The result has exactly the string literals of the input, in order. */
  lemma SanitizeKeepsLiterals(s: Bytes)
    ensures Literals(Sanitize(s), Outside, []) == Literals(s, Outside, [])
  {
    RewriteKeepsLiterals(Begin, s, Outside, []);
  }
}

/** What the rewriting of number tokens does, said of the bytes themselves. */
module ConvertJsonExact {
  import opened ConvertJson

  // ---------------------------------------------------------------- words that stand alone

  /**
   * `word` stands at `at`: between the beginning, white space or one of `:,[`, and the end, white space or one of
   * `,]}`.
   */
  predicate Standing(s: Bytes, at: nat, word: Bytes) {
    var end := at + |word|;
    && end <= |s| && s[at..end] == word
    && (at == 0 || s[at - 1] in " \t\n\r:,[")
    && (end == |s| || s[end] in " \t\n\r,]}")
  }

  predicate IsWord(word: Bytes) {
    word == "-Infinity" || word == "Infinity" || word == "NaN"
  }

  lemma PrefixBoundaryIs(b: Byte)
    ensures IsPrefixBoundary(b) <==> b in " \t\n\r:,["
  {
  }

  lemma SuffixBoundaryIs(b: Byte)
    ensures IsSuffixBoundary(b) <==> b in " \t\n\r,]}"
  {
  }

  lemma TokenIsStanding(s: Bytes, at: nat, word: Bytes)
    ensures HasToken(s, at, word) <==> Standing(s, at, word)
  {
    var end := at + |word|;
    if end <= |s| {
      if at > 0 {
        PrefixBoundaryIs(s[at - 1]);
      }
      if end < |s| {
        SuffixBoundaryIs(s[end]);
      }
    }
  }

  lemma WordsAre(word: Bytes)
    ensures IsWord(word) <==> word == NEG_INFINITY || word == INFINITY || word == NAN
  {
  }

  /** No two words stand at the same place. */
  lemma OneWord(s: Bytes, at: nat, v: Bytes, w: Bytes)
    requires IsWord(v) && IsWord(w) && Standing(s, at, v) && Standing(s, at, w)
    ensures v == w
  {
    assert s[at..at + |v|][0] == s[at] && s[at..at + |w|][0] == s[at];
  }

  /** No word is left standing outside the strings of the result. */
  lemma NoWordLeft(s: Bytes, at: nat, word: Bytes)
    requires IsWord(word) && at <= |Sanitize(s)| && ModeAt(Sanitize(s), at) == Outside
    ensures !Standing(Sanitize(s), at, word)
  {
    NoTokenLeft(s, at);
    TokenIsStanding(Sanitize(s), at, word);
    WordsAre(word);
  }

  /** A word that stands outside strings becomes a single zero, and nothing else is changed. */
  lemma StandingWordsOnly(s: Bytes, i: nat)
    requires i <= |s|
    ensures RewriteFrom(s, 0, Outside) == Sanitize(s) && RewriteFrom(s, |s|, ModeAt(s, |s|)) == []
    ensures forall word :: IsWord(word) && Standing(s, i, word) ==>
              RewriteFrom(s, i, Outside) == "0" + RewriteFrom(s, i + |word|, Outside)
    ensures i < |s| && (forall word :: IsWord(word) ==> !Standing(s, i, word)) ==>
              RewriteFrom(s, i, Outside) == [s[i]] + RewriteFrom(s, i + 1, if s[i] == '"' then Inside else Outside)
    ensures forall m :: i < |s| && m != Outside ==>
              RewriteFrom(s, i, m) == [s[i]] + RewriteFrom(s, i + 1, Next(m, s[i]))
  {
    assert s[0..] == s && s[|s|..] == [];
    if i < |s| {
      CopiedOrReplaced(s, i);
    }
    forall word | IsWord(word) && Standing(s, i, word)
      ensures RewriteFrom(s, i, Outside) == "0" + RewriteFrom(s, i + |word|, Outside)
    {
      WordReplaced(s, i, word);
    }
  }

  lemma WordReplaced(s: Bytes, i: nat, word: Bytes)
    requires IsWord(word) && Standing(s, i, word)
    ensures RewriteFrom(s, i, Outside) == "0" + RewriteFrom(s, i + |word|, Outside)
  {
    WordsAre(word);
    TokenIsStanding(s, i, word);
    forall v | IsWord(v) && v != word
      ensures !HasToken(s, i, v)
    {
      TokenIsStanding(s, i, v);
      if Standing(s, i, v) {
        OneWord(s, i, v, word);
      }
    }
    WordsAre(NEG_INFINITY);
    WordsAre(INFINITY);
    StepReplaces(s, i, word);
  }

  lemma CopiedOrReplaced(s: Bytes, i: nat)
    requires i < |s|
    ensures (forall word :: IsWord(word) ==> !Standing(s, i, word)) ==>
              RewriteFrom(s, i, Outside) == [s[i]] + RewriteFrom(s, i + 1, if s[i] == '"' then Inside else Outside)
    ensures forall m :: m != Outside ==> RewriteFrom(s, i, m) == [s[i]] + RewriteFrom(s, i + 1, Next(m, s[i]))
  {
    if forall word :: IsWord(word) ==> !Standing(s, i, word) {
      forall word | word == NEG_INFINITY || word == INFINITY || word == NAN
        ensures !HasToken(s, i, word)
      {
        WordsAre(word);
        TokenIsStanding(s, i, word);
      }
      StepCopies(s, i, Outside);
    }
    forall m | m != Outside
      ensures RewriteFrom(s, i, m) == [s[i]] + RewriteFrom(s, i + 1, Next(m, s[i]))
    {
      StepCopies(s, i, m);
    }
  }

  /** No word stands outside strings. */
  ghost predicate NoWords(s: Bytes) {
    forall at, word :: 0 <= at <= |s| && ModeAt(s, at) == Outside && IsWord(word) ==> !Standing(s, at, word)
  }

  lemma CopiedHere(s: Bytes, i: nat)
    requires i < |s| && NoWords(s)
    ensures RewriteFrom(s, i, ModeAt(s, i)) == [s[i]] + RewriteFrom(s, i + 1, ModeAt(s, i + 1))
  {
    CopiedOrReplaced(s, i);
  }

  /** Bytes in which no word stands outside strings are left as they are, and no others. */
  lemma UnchangedIffWithoutWords(s: Bytes)
    ensures Sanitize(s) == s <==> NoWords(s)
  {
    if NoWords(s) {
      WithoutWordsCopied(s, 0);
      assert s[0..] == s;
    }
    if Sanitize(s) == s {
      forall at, word | 0 <= at <= |s| && ModeAt(s, at) == Outside && IsWord(word)
        ensures !Standing(s, at, word)
      {
        NoWordLeft(s, at, word);
      }
    }
  }

  lemma {:induction false} WithoutWordsCopied(s: Bytes, i: nat)
    requires i <= |s| && NoWords(s)
    ensures RewriteFrom(s, i, ModeAt(s, i)) == s[i..]
    decreases |s| - i
  {
    if i == |s| {
      assert s[i..] == [];
    } else {
      WithoutWordsCopied(s, i + 1);
      CopiedHere(s, i);
      assert s[i..] == [s[i]] + s[i + 1..];
    }
  }

  // ---------------------------------------------------------------- strings

  /** What a string is made of (section 7 of RFC 8259): bytes other than quote and backslash, and escaped bytes. */
  datatype Unit = Plain(b: Byte) | Escape(b: Byte)

  predicate GoodUnits(units: seq<Unit>) {
    forall i :: 0 <= i < |units| && units[i].Plain? ==> units[i].b != '"' && units[i].b != '\\'
  }

  function SpellUnit(u: Unit): Bytes {
    if u.Plain? then [u.b] else ['\\', u.b]
  }

  function Spell(units: seq<Unit>): Bytes {
    if units == [] then [] else SpellUnit(units[0]) + Spell(units[1..])
  }

  /** Bytes outside strings, and strings. */
  datatype Piece = Bare(bytes: Bytes) | Quoted(units: seq<Unit>)

  predicate GoodPiece(p: Piece) {
    match p
    case Bare(bytes) => forall i :: 0 <= i < |bytes| ==> bytes[i] != '"'
    case Quoted(units) => GoodUnits(units)
  }

  function SpellPiece(p: Piece): Bytes {
    match p
    case Bare(bytes) => bytes
    case Quoted(units) => "\"" + Spell(units) + "\""
  }

  function SpellAll(pieces: seq<Piece>): Bytes {
    if pieces == [] then [] else SpellPiece(pieces[0]) + SpellAll(pieces[1..])
  }

  /** The strings of a text, with their quotes. */
  function QuotedOf(pieces: seq<Piece>): seq<Bytes> {
    if pieces == [] then []
    else (if pieces[0].Quoted? then [SpellPiece(pieces[0])] else []) + QuotedOf(pieces[1..])
  }

  /** One unit of a string is read as part of it. */
  lemma UnitIsRead(u: Unit, tail: Bytes, open: Bytes)
    requires u.Plain? ==> u.b != '"' && u.b != '\\'
    ensures Literals(SpellUnit(u) + tail, Inside, open) == Literals(tail, Inside, open + SpellUnit(u))
  {
    if u.Plain? {
      assert ([u.b] + tail)[1..] == tail;
    } else {
      var s := ['\\', u.b] + tail;
      assert s[1..][1..] == tail;
      assert open + ['\\'] + [u.b] == open + ['\\', u.b];
    }
  }

  lemma Regroup(a: Bytes, b: Bytes, c: Bytes, d: Bytes)
    ensures a + (b + c) + d == a + b + (c + d) && a + (b + c) + d == (a + b) + c + d
    ensures (b + c) + d == b + (c + d)
  {
  }

  /** Inside a string the scan stays inside, over escapes too, up to the closing quote. */
  lemma {:induction false} UnitsStayInside(units: seq<Unit>, rest: Bytes, open: Bytes)
    requires GoodUnits(units)
    ensures Literals(Spell(units) + ("\"" + rest), Inside, open)
            == [open + Spell(units) + "\""] + Literals(rest, Outside, [])
    decreases |units|
  {
    if units == [] {
      QuoteCloses(rest, open);
    } else {
      var u, later := units[0], Spell(units[1..]);
      Regroup(open, SpellUnit(u), later, "\"" + rest);
      Regroup(open, SpellUnit(u), later, "\"");
      UnitIsRead(u, later + ("\"" + rest), open);
      UnitsStayInside(units[1..], rest, open + SpellUnit(u));
    }
  }

  lemma QuoteCloses(rest: Bytes, open: Bytes)
    ensures Literals(Spell([]) + ("\"" + rest), Inside, open) == [open + Spell([]) + "\""] + Literals(rest, Outside, [])
  {
    assert Spell([]) + ("\"" + rest) == ['"'] + rest;
    assert open + Spell([]) + "\"" == open + ['"'];
  }

  lemma {:induction false} BareHasNoStrings(bytes: Bytes, rest: Bytes)
    requires GoodPiece(Bare(bytes))
    ensures Literals(bytes + rest, Outside, []) == Literals(rest, Outside, [])
  {
    NoLiteralsIn(bytes, rest, []);
  }

  /** The strings of a text are read as they were written. */
  lemma {:induction false} StringsAreRead(pieces: seq<Piece>)
    requires forall i :: 0 <= i < |pieces| ==> GoodPiece(pieces[i])
    ensures Literals(SpellAll(pieces), Outside, []) == QuotedOf(pieces)
    decreases |pieces|
  {
    if pieces != [] {
      var p, rest := pieces[0], SpellAll(pieces[1..]);
      StringsAreRead(pieces[1..]);
      if p.Bare? {
        BareHasNoStrings(p.bytes, rest);
      } else {
        var inner := Spell(p.units) + ("\"" + rest);
        assert SpellAll(pieces) == ['"'] + inner;
        UnitsStayInside(p.units, rest, ['"']);
        assert ['"'] + Spell(p.units) + "\"" == SpellPiece(p);
      }
    }
  }

  /** The result has exactly the strings that were written, escapes and all. */
  lemma StringsSurvive(pieces: seq<Piece>)
    requires forall i :: 0 <= i < |pieces| ==> GoodPiece(pieces[i])
    ensures Literals(Sanitize(SpellAll(pieces)), Outside, []) == QuotedOf(pieces)
  {
    SanitizeKeepsLiterals(SpellAll(pieces));
    StringsAreRead(pieces);
  }

  // ---------------------------------------------------------------- where strings are

  /** One unit is read without leaving the string. */
  lemma UnitStaysInside(before: Bytes, u: Unit, s: Bytes)
    requires u.Plain? ==> u.b != '"' && u.b != '\\'
    requires ModeAt(before, |before|) == Inside && before + SpellUnit(u) <= s
    ensures var n := |before| + |SpellUnit(u)|;
            ModeAt(s, n) == Inside && ModeAt(before + SpellUnit(u), n) == Inside
            && forall k :: |before| <= k <= n ==> ModeAt(s, k) != Outside
  {
    var more, n := before + SpellUnit(u), |before|;
    ModeOfPrefix(before, more, n);
    ModeOfPrefix(more, s, n);
    ModeOfPrefix(more, s, n + 1);
    ModeOfPrefix(more, s, |more|);
    assert ModeAt(more, n + 1) == Next(Inside, more[n]);
    if u.Escape? {
      assert ModeAt(more, n + 2) == Next(Escaped, more[n + 1]);
    }
  }

  /** Within a string, escapes included, every place is inside. */
  lemma {:induction false} ModeInUnits(before: Bytes, units: seq<Unit>, s: Bytes)
    requires GoodUnits(units) && ModeAt(before, |before|) == Inside && before + Spell(units) <= s
    ensures ModeAt(s, |before| + |Spell(units)|) == Inside
    ensures forall k :: |before| <= k <= |before| + |Spell(units)| ==> ModeAt(s, k) != Outside
    decreases |units|
  {
    if units == [] {
      ModeOfPrefix(before, s, |before|);
    } else {
      var more := before + SpellUnit(units[0]);
      assert more + Spell(units[1..]) == before + Spell(units);
      UnitStaysInside(before, units[0], s);
      ModeInUnits(more, units[1..], s);
    }
  }

  lemma {:induction false} ModeOfPrefix(a: Bytes, s: Bytes, k: nat)
    requires a <= s && k <= |a|
    ensures ModeAt(s, k) == ModeAt(a, k)
  {
    if k > 0 {
      ModeOfPrefix(a, s, k - 1);
    }
  }

  /** A string that starts outside: inside from its opening quote on, and outside right after its closing one. */
  lemma StringIsInside(before: Bytes, units: seq<Unit>, s: Bytes)
    requires GoodUnits(units) && ModeAt(before, |before|) == Outside
    requires before + ("\"" + Spell(units) + "\"") <= s
    ensures var n := |before| + |Spell(units)|;
            && (forall k :: |before| < k <= n + 1 ==> ModeAt(s, k) != Outside)
            && ModeAt(s, n + 2) == Outside
  {
    var open, n := before + "\"", |before| + |Spell(units)|;
    assert before + ("\"" + Spell(units) + "\"") == open + Spell(units) + "\"";
    OpeningQuote(before, open);
    ModeInUnits(open, units, s);
    assert s[n + 1] == '"';
  }

  lemma OpeningQuote(before: Bytes, open: Bytes)
    requires open == before + "\"" && ModeAt(before, |before|) == Outside
    ensures ModeAt(open, |open|) == Inside
  {
    ModeOfPrefix(before, open, |before|);
  }

  /** Outside strings, a byte that is no quote leaves the scan outside. */
  lemma BareStaysOutside(s: Bytes, k: nat)
    requires k < |s| && ModeAt(s, k) == Outside && s[k] != '"'
    ensures ModeAt(s, k + 1) == Outside && ModeAt(s, 0) == Outside
  {
  }

  // ---------------------------------------------------------------- an example

  /** A word in brackets is rewritten. */
  lemma BracketsExample(s: Bytes)
    requires s == "[NaN]"
    ensures Sanitize(s) == "[0]"
  {
    InBrackets(s);
    WordReplaced(s, 1, "NaN");
    ClosingBracket(s);
    NoWordStarts(s, 0);
    CopiedOrReplaced(s, 0);
    assert s[0..] == s;
  }

  lemma InBrackets(s: Bytes)
    requires s == "[NaN]"
    ensures Standing(s, 1, "NaN")
  {
    assert s[1..4] == "NaN";
  }

  lemma ClosingBracket(s: Bytes)
    requires s == "[NaN]"
    ensures RewriteFrom(s, 4, Outside) == "]"
  {
    NoWordStarts(s, 4);
    CopiedOrReplaced(s, 4);
    assert s[5..] == [];
  }

  lemma NoWordStarts(s: Bytes, at: nat)
    requires at < |s| && s[at] !in "-IN"
    ensures forall word :: IsWord(word) ==> !Standing(s, at, word)
  {
    forall word | IsWord(word) && at + |word| <= |s|
      ensures s[at..at + |word|] != word
    {
      assert s[at..at + |word|][0] == s[at];
    }
  }
}

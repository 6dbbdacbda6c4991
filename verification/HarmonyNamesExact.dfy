/** Which names tools are given, said of the characters themselves. */
module HarmonyNamesExact {
  import opened HarmonyNames

  // ---------------------------------------------------------------- identifiers

  /** Names are mapped character by character, in order. */
  lemma {:induction false} MapCharsConcat(a: string, b: string)
    ensures MapChars(a + b) == MapChars(a) + MapChars(b)
  {
    if a == "" {
      assert a + b == b;
    } else {
      assert (a + b)[1..] == a[1..] + b;
      MapCharsConcat(a[1..], b);
    }
  }

  /** Spaces, hyphens and dots become underscores, identifier characters stay, and anything else goes. */
  lemma MapCharIs(c: char)
    ensures MapChars("") == ""
    ensures c in " -." ==> MapChars([c]) == "_"
    ensures 'a' <= c <= 'z' || 'A' <= c <= 'Z' || '0' <= c <= '9' || c == '_' || c == '$' ==> MapChars([c]) == [c]
    ensures c !in " -._$" && !('a' <= c <= 'z' || 'A' <= c <= 'Z' || '0' <= c <= '9') ==> MapChars([c]) == ""
  {
    assert [c][1..] == "";
  }

  /** What is left is the name, with an underscore in front of a digit; if nothing is left the name is "unnamed". */
  lemma SanitizeIs(name: string)
    ensures MapChars(name) == "" ==> Sanitize(name) == "unnamed"
    ensures MapChars(name) != "" && '0' <= MapChars(name)[0] <= '9' ==> Sanitize(name) == "_" + MapChars(name)
    ensures MapChars(name) != "" && !('0' <= MapChars(name)[0] <= '9') ==> Sanitize(name) == MapChars(name)
  {
  }

  /** Joining identifiers with separators joins them with underscores. */
  lemma SeparatorsBecomeUnderscores(a: string, c: char, b: string)
    requires IsIdentifier(a) && IsIdentifier(b) && c in " -."
    ensures Sanitize(a + [c] + b) == a + "_" + b
  {
    MapCharsConcat(a + [c], b);
    MapCharsConcat(a, [c]);
    MapCharIs(c);
    IdentifierCharsStay(a);
    IdentifierCharsStay(b);
    SanitizeIs(a + [c] + b);
  }

  // ---------------------------------------------------------------- suffixes

  /** Numbers are written without leading zeros. */
  lemma {:induction false} NoLeadingZero(n: nat)
    ensures n > 0 ==> Decimal(n)[0] != '0'
  {
    if n >= 10 {
      NoLeadingZero(n / 10);
    }
  }

  /** The tools that are built in. */
  lemma BuiltinsAre(user: string)
    ensures IsBuiltin(user) <==>
              user == "browser.open" || user == "browser.search" || user == "browser.find" || user == "python"
  {
  }

  /**
   * The name for a tool that is not built in: its identifier if that is free, and otherwise the identifier with the
   * smallest suffix from 2 on that makes it free.
   */
  lemma NameForIs(taken: set<string>, user: string)
    requires !IsBuiltin(user)
    ensures Sanitize(user) !in taken ==> NameFor(taken, user) == Sanitize(user)
    ensures Sanitize(user) in taken ==>
              exists n :: 2 <= n && NameFor(taken, user) == Sanitize(user) + "_" + Decimal(n)
                          && (forall m :: 2 <= m < n ==> Sanitize(user) + "_" + Decimal(m) in taken)
    ensures NameFor(taken, user) !in taken
  {
    var base, name := Sanitize(user), NameFor(taken, user);
    var k: nat :| FirstFree(taken, base, k) && name == Candidate(base, k);
    assert Candidate(base, 0) == base;
    forall m | 2 <= m < k + 1
      ensures base + "_" + Decimal(m) in taken
    {
      SuffixIs(base, m);
    }
    if k > 0 {
      SuffixIs(base, k + 1);
    }
  }

  lemma SuffixIs(base: string, n: int)
    requires 2 <= n
    ensures Candidate(base, n - 1) == base + "_" + Decimal(n)
  {
  }

  /** The built-in tools keep their names, whatever is taken. */
  lemma BuiltinsKeepTheirNames(taken: set<string>)
    ensures NameFor(taken, "browser.open") == "browser.open" && NameFor(taken, "browser.search") == "browser.search"
    ensures NameFor(taken, "browser.find") == "browser.find" && NameFor(taken, "python") == "python"
  {
  }

  /** The same tool name `n` times. */
  function Repeated(name: string, n: nat): seq<string> {
    if n == 0 then [] else Repeated(name, n - 1) + [name]
  }

  /** After `n` calls with one identifier: itself, then with 2, 3 and so on behind it, and no other name is taken. */
  ghost predicate CountsUp(name: string, n: nat, log: Log) {
    && |log.returned| == n
    && (forall i :: 0 <= i < n ==> log.returned[i] == if i == 0 then name else name + "_" + Decimal(i + 1))
    && (forall x :: x in log.toUser <==> exists i :: 0 <= i < n && x == Candidate(name, i))
  }

  lemma CountsUpFurther(name: string, n: nat, before: Log, log: Log)
    requires CountsUp(name, n, before)
    requires log.toUser == before.toUser[Candidate(name, n) := name]
    requires log.returned == before.returned + [Candidate(name, n)]
    ensures CountsUp(name, n + 1, log)
  {
    forall x
      ensures x in log.toUser <==> exists i :: 0 <= i < n + 1 && x == Candidate(name, i)
    {
      if x == Candidate(name, n) {
        assert 0 <= n < n + 1;
      }
    }
  }

  lemma RepeatedOnce(name: string, n: nat, names: seq<string>)
    requires IsIdentifier(name) && name != PYTHON && CountsUp(name, n, Convert(names))
    ensures CountsUp(name, n + 1, Convert(names + [name]))
  {
    ConvertSnoc(names, name);
    NextRepeated(name, n, Convert(names).toUser.Keys);
    CountsUpFurther(name, n, Convert(names), Convert(names + [name]));
  }

  /** A tool name that is an identifier, added again and again. */
  lemma {:induction false} RepeatedNames(name: string, n: nat)
    requires IsIdentifier(name) && name != PYTHON
    ensures CountsUp(name, n, Convert(Repeated(name, n)))
  {
    if n > 0 {
      RepeatedNames(name, n - 1);
      RepeatedOnce(name, n - 1, Repeated(name, n - 1));
    }
  }

  lemma NextRepeated(name: string, k: nat, taken: set<string>)
    requires IsIdentifier(name) && name != PYTHON
    requires forall x :: x in taken <==> exists i :: 0 <= i < k && x == Candidate(name, i)
    ensures NameFor(taken, name) == Candidate(name, k)
  {
    SanitizeKeepsIdentifiers(name);
    IdentifierIsNotBrowser(name);
    forall i | 0 <= i < k
      ensures Candidate(name, i) != Candidate(name, k)
    {
      CandidatesDiffer(name, i, k);
    }
    assert FirstFree(taken, name, k);
    FirstFreeUnique(taken, name, k);
  }
}

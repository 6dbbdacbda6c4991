/** The reversible renaming of tool functions to identifiers that the model accepts. */
module HarmonyNames {

  predicate IsDigit(c: char) {
    '0' <= c <= '9'
  }

  /** The characters of an identifier, for ASCII names. */
  predicate IsIdentifierChar(c: char) {
    'a' <= c <= 'z' || 'A' <= c <= 'Z' || IsDigit(c) || c == '_' || c == '$'
  }

  function MapChars(name: string): (r: string)
    ensures forall i :: 0 <= i < |r| ==> IsIdentifierChar(r[i])
  {
    if name == "" then ""
    else
      var c, rest := name[0], MapChars(name[1..]);
      if c == ' ' || c == '-' || c == '.' then "_" + rest
      else if IsIdentifierChar(c) then [c] + rest
      else rest
  }

  predicate IsIdentifier(s: string) {
    s != "" && !IsDigit(s[0]) && forall i :: 0 <= i < |s| ==> IsIdentifierChar(s[i])
  }

  /** `convertToValidChars`. */
  function Sanitize(name: string): (r: string)
    ensures IsIdentifier(r)
  {
    var candidate := MapChars(name);
    if candidate == "" then "unnamed"
    else if IsDigit(candidate[0]) then "_" + candidate
    else candidate
  }

  lemma {:induction false} IdentifierCharsStay(name: string)
    requires forall i :: 0 <= i < |name| ==> IsIdentifierChar(name[i])
    ensures MapChars(name) == name
  {
    if name != "" {
      IdentifierCharsStay(name[1..]);
      assert name == [name[0]] + name[1..];
    }
  }

  /** An identifier keeps its name, and only an identifier does. */
  lemma SanitizeKeepsIdentifiers(name: string)
    ensures Sanitize(name) == name <==> IsIdentifier(name)
  {
    if IsIdentifier(name) {
      IdentifierCharsStay(name);
    }
  }

  const DIGITS := "0123456789"

  function Decimal(n: nat): (s: string)
    ensures s != "" && forall i :: 0 <= i < |s| ==> IsDigit(s[i])
  {
    if n < 10 then [DIGITS[n]] else Decimal(n / 10) + [DIGITS[n % 10]]
  }

  /** The number that a decimal string denotes. */
  function Value(s: string): int {
    if s == "" then 0 else 10 * Value(s[..|s| - 1]) + (s[|s| - 1] as int - '0' as int)
  }

  lemma {:induction false} DecimalRoundTrip(n: nat)
    ensures Value(Decimal(n)) == n
  {
    var s := Decimal(n);
    if n < 10 {
      assert s[..0] == "";
    } else {
      DecimalRoundTrip(n / 10);
      assert s[..|s| - 1] == Decimal(n / 10);
    }
  }

  /** The names tried for a base: the base itself, then `base_2`, `base_3` and so on. */
  function Candidate(base: string, k: nat): string {
    if k == 0 then base else base + "_" + Decimal(k + 1)
  }

  lemma CandidatesDiffer(base: string, j: nat, k: nat)
    requires j != k
    ensures Candidate(base, j) != Candidate(base, k)
  {
    var a, b := Candidate(base, j), Candidate(base, k);
    if j > 0 && k > 0 {
      assert a[|base| + 1..] == Decimal(j + 1) && b[|base| + 1..] == Decimal(k + 1);
      DecimalRoundTrip(j + 1);
      DecimalRoundTrip(k + 1);
    } else {
      assert |a| != |b|;
    }
  }

  ghost function Tried(base: string, k: nat): set<string> {
    if k == 0 then {} else Tried(base, k - 1) + {Candidate(base, k - 1)}
  }

  lemma {:induction false} TriedCount(base: string, k: nat)
    ensures |Tried(base, k)| == k
    ensures forall x :: x in Tried(base, k) ==> exists j :: 0 <= j < k && x == Candidate(base, j)
  {
    if k > 0 {
      TriedCount(base, k - 1);
      forall j: nat | j < k - 1
        ensures Candidate(base, j) != Candidate(base, k - 1)
      {
        CandidatesDiffer(base, j, k - 1);
      }
      assert Candidate(base, k - 1) !in Tried(base, k - 1);
    }
  }

  /** A search through `k` occupied names needs `k` entries. */
  lemma SearchIsBounded(base: string, k: nat, taken: set<string>)
    requires forall j :: 0 <= j < k ==> Candidate(base, j) in taken
    ensures k <= |taken|
  {
    TriedCount(base, k);
    var tried := Tried(base, k);
    assert tried <= taken;
    assert |taken| == |tried| + |taken - tried|;
  }

  ghost predicate FirstFree(taken: set<string>, base: string, k: nat) {
    Candidate(base, k) !in taken && forall j :: 0 <= j < k ==> Candidate(base, j) in taken
  }

  lemma FirstFreeExists(taken: set<string>, base: string, k: nat)
    requires forall j :: 0 <= j < k ==> Candidate(base, j) in taken
    ensures exists n: nat :: FirstFree(taken, base, n)
    decreases |taken| + 1 - k
  {
    SearchIsBounded(base, k, taken);
    if Candidate(base, k) in taken {
      SearchIsBounded(base, k + 1, taken);
      FirstFreeExists(taken, base, k + 1);
    } else {
      assert FirstFree(taken, base, k);
    }
  }

  const PYTHON := "python"

  /** The built-in functions whose names no identifier can equal. */
  predicate IsBrowser(name: string) {
    name == "browser.open" || name == "browser.search" || name == "browser.find"
  }

  predicate IsBuiltin(name: string) {
    IsBrowser(name) || name == PYTHON
  }

  /** The name that `ConvertAndAdd` returns, given the names already given out. */
  ghost function NameFor(taken: set<string>, user: string): (r: string)
    ensures !IsBuiltin(user) ==>
              r !in taken && exists k: nat :: FirstFree(taken, Sanitize(user), k) && r == Candidate(Sanitize(user), k)
    ensures IsBuiltin(user) ==> r == user
  {
    if IsBuiltin(user) then user
    else
      FirstFreeExists(taken, Sanitize(user), 0);
      var k: nat :| FirstFree(taken, Sanitize(user), k);
      Candidate(Sanitize(user), k)
  }

  lemma FirstFreeUnique(taken: set<string>, base: string, k: nat)
    requires FirstFree(taken, base, k)
    ensures forall n: nat :: FirstFree(taken, base, n) ==> n == k
  {
  }

  // ---------------------------------------------------------------- reversibility over whole runs

  /** Both maps and everything returned after a list of `ConvertAndAdd` calls. */
  datatype Log = Log(toHarmony: map<string, string>, toUser: map<string, string>, returned: seq<string>)

  ghost function Convert(names: seq<string>): (log: Log)
    ensures |log.returned| == |names|
  {
    if names == [] then Log(map[], map[], [])
    else
      var n := |names| - 1;
      var before := Convert(names[..n]);
      var name := NameFor(before.toUser.Keys, names[n]);
      Log(before.toHarmony[names[n] := name], before.toUser[name := names[n]], before.returned + [name])
  }

  lemma ConvertSnoc(names: seq<string>, user: string)
    ensures var before := Convert(names); var name := NameFor(before.toUser.Keys, user);
            Convert(names + [user])
            == Log(before.toHarmony[user := name], before.toUser[name := user], before.returned + [name])
  {
    assert (names + [user])[..|names|] == names;
  }

  /** Every name ever returned still leads back to the user's name it was returned for. */
  ghost predicate Reversible(names: seq<string>) {
    var log := Convert(names);
    forall i :: 0 <= i < |names| ==> log.returned[i] in log.toUser && log.toUser[log.returned[i]] == names[i]
  }

  /** Call `i` is the first whose name becomes PYTHON. */
  predicate FirstPython(names: seq<string>, i: int) {
    0 <= i < |names| && Sanitize(names[i]) == PYTHON && forall h :: 0 <= h < i ==> Sanitize(names[h]) != PYTHON
  }

  /** Another name took PYTHON before the built-in of that name was added. */
  ghost predicate PythonConflict(names: seq<string>) {
    exists i, j :: FirstPython(names, i) && names[i] != PYTHON && i < j < |names| && names[j] == PYTHON
  }

  lemma SanitizePython()
    ensures Sanitize(PYTHON) == PYTHON
  {
    SanitizeKeepsIdentifiers(PYTHON);
  }

  /** A derived name is no `browser` name, and it is PYTHON only if the user's name becomes PYTHON. */
  lemma DerivedNames(base: string, k: nat)
    requires IsIdentifier(base)
    ensures IsIdentifier(Candidate(base, k))
    ensures Candidate(base, k) == PYTHON ==> k == 0
  {
    var c := Candidate(base, k);
    if k > 0 {
      assert c[|c| - 1] == Decimal(k + 1)[|Decimal(k + 1)| - 1];
    }
  }

  /** Names other than PYTHON lead back. */
  ghost predicate OthersLeadBack(names: seq<string>, log: Log) {
    && |log.returned| == |names|
    && (forall key :: key in log.toUser && IsBrowser(key) ==> log.toUser[key] == key)
    && (forall i :: 0 <= i < |names| ==> log.returned[i] in log.toUser)
    && (forall i :: 0 <= i < |names| && log.returned[i] != PYTHON ==> log.toUser[log.returned[i]] == names[i])
  }

  /** Who was told PYTHON, and who owns it. */
  ghost predicate PythonOwned(names: seq<string>, log: Log) {
    && |log.returned| == |names|
    && (PYTHON in log.toUser <==> exists i :: FirstPython(names, i))
    && (forall i :: 0 <= i < |names| ==> (log.returned[i] == PYTHON <==> names[i] == PYTHON || FirstPython(names, i)))
    && (forall i :: FirstPython(names, i) ==> log.toUser[PYTHON] == if PYTHON in names then PYTHON else names[i])
  }

  /** What holds of the log after every prefix of a run. */
  ghost predicate LogInvariant(names: seq<string>, log: Log) {
    OthersLeadBack(names, log) && PythonOwned(names, log)
  }

  lemma {:induction false} FirstPythonExists(names: seq<string>, h: nat)
    requires h < |names| && Sanitize(names[h]) == PYTHON
    ensures exists i :: FirstPython(names, i)
  {
    if g: nat :| g < h && Sanitize(names[g]) == PYTHON {
      FirstPythonExists(names, g);
    } else {
      assert FirstPython(names, h);
    }
  }

  /** How the first PYTHON call changes when one more call is made. */
  lemma FirstPythonStep(names: seq<string>, n: nat)
    requires |names| == n + 1
    ensures forall i :: i < n ==> (FirstPython(names, i) <==> FirstPython(names[..n], i))
    ensures FirstPython(names, n) <==> Sanitize(names[n]) == PYTHON && !exists i :: FirstPython(names[..n], i)
  {
    var before := names[..n];
    forall i | i < n
      ensures FirstPython(names, i) <==> FirstPython(before, i)
    {
      assert forall h :: 0 <= h <= i ==> before[h] == names[h];
    }
    if Sanitize(names[n]) == PYTHON && !exists i :: FirstPython(before, i) {
      forall h | 0 <= h < n
        ensures Sanitize(names[h]) != PYTHON
      {
        if Sanitize(before[h]) == PYTHON {
          FirstPythonExists(before, h);
        }
      }
    }
    if i :| FirstPython(before, i) {
      assert before[i] == names[i];
    }
  }

  lemma BrowserIsNotPython(user: string)
    requires IsBrowser(user)
    ensures Sanitize(user) != PYTHON
  {
    assert user[0] == 'b';
    assert MapChars(user)[0] == 'b';
  }

  lemma BrowserHasDot(s: string)
    requires IsBrowser(s)
    ensures |s| > 7 && !IsIdentifierChar(s[7])
  {
  }

  lemma IdentifierIsNotBrowser(s: string)
    requires IsIdentifier(s)
    ensures !IsBrowser(s)
  {
    if IsBrowser(s) {
      BrowserHasDot(s);
    }
  }

  /**
   * One call on its own: a derived name is free, and it is PYTHON exactly if that is free and the name becomes PYTHON.
   */
  lemma DerivedIs(taken: set<string>, user: string)
    requires !IsBuiltin(user)
    ensures var name := NameFor(taken, user);
            name !in taken && !IsBrowser(name) && (name == PYTHON <==> Sanitize(user) == PYTHON && PYTHON !in taken)
  {
    var base := Sanitize(user);
    var name := NameFor(taken, user);
    var k: nat :| FirstFree(taken, base, k) && name == Candidate(base, k);
    DerivedNames(base, k);
    IdentifierIsNotBrowser(Candidate(base, k));
    assert Candidate(base, 0) == base;
  }

  /** What one call returns, in terms of the calls before it. */
  ghost predicate Fits(names: seq<string>, n: nat, before: Log, name: string)
    requires n < |names|
  {
    && (name == PYTHON <==> names[n] == PYTHON || FirstPython(names, n))
    && (IsBrowser(name) ==> name == names[n])
    && (name in before.toUser && name != PYTHON ==> IsBrowser(name))
  }

  lemma ReturnedFits(names: seq<string>, n: nat, before: Log)
    requires |names| == n + 1 && LogInvariant(names[..n], before)
    ensures Fits(names, n, before, NameFor(before.toUser.Keys, names[n]))
  {
    var user := names[n];
    FirstPythonStep(names, n);
    if IsBrowser(user) {
      BrowserIsNotPython(user);
      assert user != PYTHON by { SanitizePython(); }
    } else if user != PYTHON {
      DerivedIs(before.toUser.Keys, user);
    }
  }

  lemma {:induction false} ConvertKeepsInvariant(names: seq<string>)
    ensures LogInvariant(names, Convert(names))
  {
    if names != [] {
      var n := |names| - 1;
      var before, log := Convert(names[..n]), Convert(names);
      ConvertKeepsInvariant(names[..n]);
      ReturnedFits(names, n, before);
      OthersStep(names, n, before, log, NameFor(before.toUser.Keys, names[n]));
      PythonStep(names, n, before, log, NameFor(before.toUser.Keys, names[n]));
    }
  }

  lemma OthersStep(names: seq<string>, n: nat, before: Log, log: Log, name: string)
    requires |names| == n + 1 && OthersLeadBack(names[..n], before) && Fits(names, n, before, name)
    requires log.toUser == before.toUser[name := names[n]] && log.returned == before.returned + [name]
    ensures OthersLeadBack(names, log)
  {
    forall i | 0 <= i < |names| && log.returned[i] != PYTHON
      ensures log.toUser[log.returned[i]] == names[i]
    {
      if i < n {
        assert names[..n][i] == names[i] && log.returned[i] == before.returned[i];
      }
    }
    forall i | 0 <= i < |names|
      ensures log.returned[i] in log.toUser
    {
      assert i < n ==> log.returned[i] == before.returned[i];
    }
  }

  lemma OwnerStep(names: seq<string>, n: nat, before: Log, log: Log, name: string, i: int)
    requires |names| == n + 1 && PythonOwned(names[..n], before) && Fits(names, n, before, name)
    requires log.toUser == before.toUser[name := names[n]] && log.returned == before.returned + [name]
    requires FirstPython(names, i)
    ensures PYTHON in log.toUser && log.toUser[PYTHON] == if PYTHON in names then PYTHON else names[i]
  {
    var earlier := names[..n];
    FirstPythonStep(names, n);
    SanitizePython();
    assert names == earlier + [names[n]];
    if i == n {
      assert forall h :: 0 <= h < n ==> names[h] != PYTHON;
    } else {
      assert FirstPython(earlier, i) && earlier[i] == names[i];
    }
  }

  lemma ReturnedStep(names: seq<string>, n: nat, before: Log, log: Log, name: string)
    requires |names| == n + 1 && PythonOwned(names[..n], before) && Fits(names, n, before, name)
    requires log.toUser == before.toUser[name := names[n]] && log.returned == before.returned + [name]
    ensures |log.returned| == |names|
    ensures forall i :: 0 <= i < |names| ==>
              (log.returned[i] == PYTHON <==> names[i] == PYTHON || FirstPython(names, i))
  {
    FirstPythonStep(names, n);
    forall i | 0 <= i < |names|
      ensures log.returned[i] == PYTHON <==> names[i] == PYTHON || FirstPython(names, i)
    {
      if i < n {
        assert names[..n][i] == names[i] && log.returned[i] == before.returned[i];
      }
    }
  }

  lemma PythonStep(names: seq<string>, n: nat, before: Log, log: Log, name: string)
    requires |names| == n + 1 && PythonOwned(names[..n], before) && Fits(names, n, before, name)
    requires log.toUser == before.toUser[name := names[n]] && log.returned == before.returned + [name]
    ensures PythonOwned(names, log)
  {
    var earlier := names[..n];
    FirstPythonStep(names, n);
    ReturnedStep(names, n, before, log, name);
    forall i | FirstPython(names, i)
      ensures PYTHON in log.toUser && log.toUser[PYTHON] == if PYTHON in names then PYTHON else names[i]
    {
      OwnerStep(names, n, before, log, name, i);
    }
    if PYTHON in log.toUser {
      if PYTHON in before.toUser {
        var i :| FirstPython(earlier, i);
        assert FirstPython(names, i);
      } else if names[n] == PYTHON {
        SanitizePython();
        FirstPythonExists(names, n);
      }
    }
  }

  /** The reverse map has entries for returned names only. */
  lemma {:induction false} OnlyReturnedNames(names: seq<string>, name: string)
    ensures name in Convert(names).toUser <==> name in Convert(names).returned
  {
    if names != [] {
      OnlyReturnedNames(names[..|names| - 1], name);
    }
  }

  /**
   * Every name ever returned still leads back to the user's name if and only if no other name became
   * PYTHON before the built-in PYTHON was added.
   */
  lemma ReversibleIffNoConflict(names: seq<string>)
    ensures Reversible(names) <==> !PythonConflict(names)
  {
    ConvertKeepsInvariant(names);
    SanitizePython();
    var log := Convert(names);
    if PythonConflict(names) {
      var i, j :| FirstPython(names, i) && names[i] != PYTHON && i < j < |names| && names[j] == PYTHON;
      assert log.returned[i] == PYTHON && log.toUser[PYTHON] == PYTHON;
    } else {
      forall i | 0 <= i < |names| && log.returned[i] == PYTHON
        ensures log.toUser[PYTHON] == names[i]
      {
        if names[i] == PYTHON {
          FirstPythonExists(names, i);
          var f :| FirstPython(names, f);
        } else {
          assert FirstPython(names, i);
          assert forall j :: 0 <= j < i ==> names[j] != PYTHON;
        }
      }
    }
  }

  /** A run in which the promise fails: the first tool is renamed to "python", then the built-in is added. */
  lemma PythonConflictExample()
    ensures !Reversible(["python!", "python"])
  {
    var names := ["python!", "python"];
    SanitizePython();
    assert MapChars("!") == "" by { assert "!"[1..] == ""; }
    assert MapChars("n!") == "n" by { assert "n!"[1..] == "!"; }
    assert MapChars("on!") == "on" by { assert "on!"[1..] == "n!"; }
    assert MapChars("hon!") == "hon" by { assert "hon!"[1..] == "on!"; }
    assert MapChars("thon!") == "thon" by { assert "thon!"[1..] == "hon!"; }
    assert MapChars("ython!") == "ython" by { assert "ython!"[1..] == "thon!"; }
    assert MapChars("python!") == "python" by { assert "python!"[1..] == "ython!"; }
    assert FirstPython(names, 0) && names[1] == "python";
    assert PythonConflict(names);
    ReversibleIffNoConflict(names);
  }

  // ---------------------------------------------------------------- the map

  class FunctionNameMap {
    var userToHarmony: map<string, string>
    var harmonyToUser: map<string, string>
    ghost var names: seq<string>

    /** The maps are what adding `names`, in this order, makes of them. */
    ghost predicate Valid()
      reads this
    {
      harmonyToUser == Convert(names).toUser && userToHarmony == Convert(names).toHarmony
    }

    constructor ()
      ensures Valid() && names == []
    {
      userToHarmony, harmonyToUser := map[], map[];
      names := [];
    }

    /** The first free name, found after at most one attempt more than there are entries. */
    method DeriveName(user: string) returns (candidate: string, attempts: nat)
      ensures attempts <= |harmonyToUser| + 1
      ensures attempts > 0 && candidate == Candidate(Sanitize(user), attempts - 1)
      ensures FirstFree(harmonyToUser.Keys, Sanitize(user), attempts - 1)
    {
      var base := Sanitize(user);
      candidate := base;
      var count := 2;
      while candidate in harmonyToUser
        invariant count >= 2 && candidate == Candidate(base, count - 2)
        invariant forall j :: 0 <= j < count - 2 ==> Candidate(base, j) in harmonyToUser
        invariant count - 2 <= |harmonyToUser.Keys|
        decreases |harmonyToUser.Keys| + 2 - count
      {
        SearchIsBounded(base, count - 1, harmonyToUser.Keys);
        candidate := base + "_" + Decimal(count);
        count := count + 1;
      }
      attempts := count - 1;
    }

    /** Adds a name; what is returned for it is the next entry of the run. */
    method ConvertAndAdd(user: string) returns (name: string)
      requires Valid()
      modifies this
      ensures Valid() && names == old(names) + [user]
      ensures Convert(names).returned == old(Convert(names).returned) + [name]
      ensures name == NameFor(old(harmonyToUser.Keys), user)
    {
      var attempts;
      name, attempts := DeriveName(user);
      if IsBuiltin(user) {
        name := user;
      } else {
        FirstFreeUnique(harmonyToUser.Keys, Sanitize(user), attempts - 1);
      }
      assert name == NameFor(harmonyToUser.Keys, user);
      ConvertSnoc(names, user);
      userToHarmony := userToHarmony[user := name];
      harmonyToUser := harmonyToUser[name := user];
      names := names + [user];
    }

    /**
     * The user's name for which `name` was returned, unless another name became PYTHON before the built-in PYTHON
     * was added; a name that was never returned is handed back as it is.
     */
    method OriginalFromConverted(name: string) returns (user: string)
      requires Valid()
      ensures !PythonConflict(names) ==> forall i :: 0 <= i < |names| && Convert(names).returned[i] == name ==>
                user == names[i]
      ensures name != PYTHON ==> forall i :: 0 <= i < |names| && Convert(names).returned[i] == name ==> user == names[i]
      ensures name !in Convert(names).returned ==> user == name
    {
      ReversibleIffNoConflict(names);
      ConvertKeepsInvariant(names);
      OnlyReturnedNames(names, name);
      user := if name in harmonyToUser then harmonyToUser[name] else name;
    }
  }
}

/** The string searches that the parser uses. A char stands for one byte of a Go string. */
module HarmonyText {

  /** `tag` occurs in `s` at `i`. */
  predicate At(s: string, tag: string, i: int) {
    0 <= i && i + |tag| <= |s| && forall j :: 0 <= j < |tag| ==> s[i + j] == tag[j]
  }

  ghost predicate Contains(s: string, tag: string) {
    exists i :: At(s, tag, i)
  }

  /** `strings.Index` from position `i` on: the first occurrence, or -1. */
  function IndexFrom(s: string, tag: string, i: nat): (r: int)
    requires i <= |s|
    ensures r == -1 || i <= r <= |s| - |tag|
    decreases |s| - i
  {
    if At(s, tag, i) then i
    else if i == |s| then -1
    else IndexFrom(s, tag, i + 1)
  }

  function Index(s: string, tag: string): (r: int)
    ensures r == -1 || 0 <= r <= |s| - |tag|
  {
    IndexFrom(s, tag, 0)
  }

  lemma {:induction false} IndexFromIs(s: string, tag: string, i: nat)
    requires i <= |s|
    ensures var r := IndexFrom(s, tag, i);
            if r == -1 then forall k :: i <= k ==> !At(s, tag, k)
            else At(s, tag, r) && forall k :: i <= k < r ==> !At(s, tag, k)
    decreases |s| - i
  {
    if !At(s, tag, i) && i < |s| {
      IndexFromIs(s, tag, i + 1);
    }
  }

  /** `Index` finds the first occurrence if there is one. */
  lemma IndexSpec(s: string, tag: string)
    ensures Index(s, tag) == -1 <==> !Contains(s, tag)
    ensures Index(s, tag) != -1 ==> At(s, tag, Index(s, tag)) && forall k :: 0 <= k < Index(s, tag) ==> !At(s, tag, k)
  {
    IndexFromIs(s, tag, 0);
  }

  lemma IndexIs(s: string, tag: string, r: int)
    requires At(s, tag, r) && forall k :: 0 <= k < r ==> !At(s, tag, k)
    ensures Index(s, tag) == r
  {
    IndexSpec(s, tag);
    assert Contains(s, tag);
  }

  lemma IndexIsNone(s: string, tag: string)
    requires forall k :: !At(s, tag, k)
    ensures Index(s, tag) == -1
  {
    IndexSpec(s, tag);
  }

  /** The last `n` characters of `s` are the first `n` of `delim`. */
  predicate EndsWithPrefix(s: string, delim: string, n: int) {
    0 <= n <= |s| && n <= |delim| && forall j :: 0 <= j < n ==> s[|s| - n + j] == delim[j]
  }

  function OverlapFrom(s: string, delim: string, n: nat): (r: nat)
    requires n <= |s| && n <= |delim|
    ensures r <= n
  {
    if n == 0 || EndsWithPrefix(s, delim, n) then n else OverlapFrom(s, delim, n - 1)
  }

  /** The longest suffix of `s` that is a prefix of `delim`. */
  function Overlap(s: string, delim: string): (r: nat)
    ensures r <= |s|
  {
    OverlapFrom(s, delim, if |delim| < |s| then |delim| else |s|)
  }

  lemma {:induction false} OverlapFromIs(s: string, delim: string, n: nat)
    requires n <= |s| && n <= |delim|
    ensures var r := OverlapFrom(s, delim, n); EndsWithPrefix(s, delim, r) && forall k :: r < k <= n ==>
              !EndsWithPrefix(s, delim, k)
  {
    if n != 0 && !EndsWithPrefix(s, delim, n) {
      OverlapFromIs(s, delim, n - 1);
    }
  }

  /** `Overlap` is the longest overlap. */
  lemma OverlapSpec(s: string, delim: string)
    ensures EndsWithPrefix(s, delim, Overlap(s, delim))
    ensures forall k :: Overlap(s, delim) < k ==> !EndsWithPrefix(s, delim, k)
  {
    OverlapFromIs(s, delim, if |delim| < |s| then |delim| else |s|);
  }

  lemma OverlapIs(s: string, delim: string, n: nat)
    requires EndsWithPrefix(s, delim, n) && forall k :: n < k ==> !EndsWithPrefix(s, delim, k)
    ensures Overlap(s, delim) == n
  {
    OverlapSpec(s, delim);
  }

  /** The loop of `overlap`, longest candidate first. */
  method ComputeOverlap(s: string, delim: string) returns (n: nat)
    ensures n == Overlap(s, delim)
  {
    n := if |delim| < |s| then |delim| else |s|;
    while n > 0
      invariant n <= |s| && n <= |delim|
      invariant OverlapFrom(s, delim, n) == Overlap(s, delim)
    {
      if EndsWithPrefix(s, delim, n) {
        return;
      }
      n := n - 1;
    }
  }

  /** More text never changes where the first occurrence is. */
  lemma IndexOfExtension(x: string, y: string, tag: string)
    requires Contains(x, tag)
    ensures Index(x + y, tag) == Index(x, tag)
  {
    IndexSpec(x, tag);
    var r := Index(x, tag);
    assert At(x + y, tag, r);
    forall k | 0 <= k < r
      ensures !At(x + y, tag, k)
    {
      assert !At(x, tag, k);
    }
    IndexIs(x + y, tag, r);
  }

  /** No proper suffix of `tag` is a prefix of it. */
  predicate Unbordered(tag: string) {
    tag != "" && forall k :: 0 < k < |tag| ==> tag[k..] != tag[..|tag| - k]
  }

  /** An occurrence that reaches into the tag makes a border. */
  lemma StraddlingIsBorder(text: string, tag: string, rest: string, k: int)
    requires 0 <= k < |text| < k + |tag|
    ensures var d := |text| - k; At(text + tag + rest, tag, k) ==> tag[d..] == tag[..|tag| - d]
  {
    var s, d := text + tag + rest, |text| - k;
    if At(s, tag, k) {
      forall j | 0 <= j < |tag| - d
        ensures tag[d..][j] == tag[j]
      {
        assert s[k + (d + j)] == tag[d + j];
        assert s[|text| + j] == tag[j];
      }
      assert tag[d..] == tag[..|tag| - d];
    }
  }

  /** Text that does not contain an unbordered tag can be followed by it and is found again, and only then. */
  lemma FirstTagAfter(text: string, tag: string, rest: string)
    requires Unbordered(tag)
    ensures Index(text + tag + rest, tag) == |text| <==> !Contains(text, tag)
  {
    var s := text + tag + rest;
    assert At(s, tag, |text|);
    if Contains(text, tag) {
      var i :| At(text, tag, i);
      assert At(s, tag, i);
      IndexSpec(s, tag);
    } else {
      forall k | 0 <= k < |text|
        ensures !At(s, tag, k)
      {
        if k + |tag| <= |text| {
          assert !At(text, tag, k);
        } else {
          StraddlingIsBorder(text, tag, rest, k);
        }
      }
      IndexIs(s, tag, |text|);
    }
  }

  /** A tag whose first character does not come back is unbordered. */
  lemma DistinctFirstIsUnbordered(tag: string)
    requires tag != "" && forall k :: 0 < k < |tag| ==> tag[k] != tag[0]
    ensures Unbordered(tag)
  {
    forall k | 0 < k < |tag|
      ensures tag[k..] != tag[..|tag| - k]
    {
      assert tag[k..][0] != tag[..|tag| - k][0];
    }
  }
}

/** Row-major index arithmetic: three coordinates in one index, and permutations of the middle one. */
module ConvertIndex {
  import opened Arithmetic

  /** The index of `(a, b, c)` in an array of shape `_ x nb x nc`. */
  function At3(a: int, b: int, c: int, nb: int, nc: int): int {
    (a * nb + b) * nc + c
  }

  function First(k: int, nb: int, nc: int): int
    requires nb > 0 && nc > 0
  {
    k / nc / nb
  }

  function Second(k: int, nb: int, nc: int): int
    requires nb > 0 && nc > 0
  {
    (k / nc) % nb
  }

  function Third(k: int, nc: int): int
    requires nc > 0
  {
    k % nc
  }

  /** The coordinates of an index that was made from coordinates. */
  lemma Coordinates(a: int, b: int, c: int, nb: int, nc: int)
    requires 0 <= b < nb && 0 <= c < nc
    ensures var k := At3(a, b, c, nb, nc); First(k, nb, nc) == a && Second(k, nb, nc) == b && Third(k, nc) == c
  {
    DivMod(a * nb + b, c, nc);
    DivMod(a, b, nb);
  }

  lemma QuotientIs(k: int, nc: int)
    requires nc > 0
    ensures (k / nc) * nc + k % nc == k && 0 <= k % nc < nc && (k >= 0 ==> k / nc >= 0)
  {
  }

  /** Every index is made from its coordinates. */
  lemma Recompose(k: int, nb: int, nc: int)
    requires nb > 0 && nc > 0
    ensures At3(First(k, nb, nc), Second(k, nb, nc), Third(k, nc), nb, nc) == k
    ensures 0 <= Second(k, nb, nc) < nb && 0 <= Third(k, nc) < nc
    ensures k >= 0 ==> First(k, nb, nc) >= 0
  {
    var q := k / nc;
    QuotientIs(k, nc);
    QuotientIs(q, nb);
  }

  lemma Inside(a: int, b: int, c: int, na: int, nb: int, nc: int)
    requires 0 <= a < na && 0 <= b < nb && 0 <= c < nc
    ensures 0 <= At3(a, b, c, nb, nc) < na * nb * nc
  {
    var r := a * nb + b;
    assert 0 <= r by { assert a * nb >= 0; }
    assert r < na * nb by {
      MulMonotone(a + 1, na, nb);
      assert (a + 1) * nb == a * nb + nb;
    }
    assert r * nc >= 0;
    MulMonotone(r + 1, na * nb, nc);
    assert (r + 1) * nc == r * nc + nc;
  }

  lemma FirstBelow(k: int, na: int, nb: int, nc: int)
    requires nb > 0 && nc > 0 && 0 <= k < na * nb * nc
    ensures 0 <= First(k, nb, nc) < na
  {
    Recompose(k, nb, nc);
    var a, b, c := First(k, nb, nc), Second(k, nb, nc), Third(k, nc);
    if a >= na {
      var r := a * nb + b;
      MulMonotone(na, a, nb);
      MulMonotone(na * nb, r, nc);
    }
  }

  // ---------------------------------------------------------------- swapping the last two axes

  /** The index, in shape `na x nc x nb`, of the element at index `k` of shape `na x nb x nc`. */
  function SwapLast(k: int, nb: int, nc: int): int
    requires nb > 0 && nc > 0
  {
    At3(First(k, nb, nc), Third(k, nc), Second(k, nb, nc), nc, nb)
  }

  lemma SwapLastIs(k: int, na: int, nb: int, nc: int)
    requires nb > 0 && nc > 0 && 0 <= k < na * nb * nc
    ensures 0 <= SwapLast(k, nb, nc) < na * nc * nb && SwapLast(SwapLast(k, nb, nc), nc, nb) == k
  {
    Recompose(k, nb, nc);
    FirstBelow(k, na, nb, nc);
    Inside(First(k, nb, nc), Third(k, nc), Second(k, nb, nc), na, nc, nb);
    Coordinates(First(k, nb, nc), Third(k, nc), Second(k, nb, nc), nc, nb);
  }

  // ---------------------------------------------------------------- permuting the middle coordinate

  /** `pi` and `rho` are inverse permutations of `0..nb`. */
  ghost predicate Inverse(pi: int -> int, rho: int -> int, nb: int) {
    && (forall b :: 0 <= b < nb ==> 0 <= pi(b) < nb && rho(pi(b)) == b)
    && (forall b :: 0 <= b < nb ==> 0 <= rho(b) < nb && pi(rho(b)) == b)
  }

  /** The source index of output index `k` when the middle coordinate is permuted. */
  function Source(k: int, nb: int, nc: int, pi: int -> int): int
    requires nb > 0 && nc > 0
  {
    At3(First(k, nb, nc), pi(Second(k, nb, nc)), Third(k, nc), nb, nc)
  }

  lemma SourceInside(k: int, na: int, nb: int, nc: int, pi: int -> int, rho: int -> int)
    requires nb > 0 && nc > 0 && 0 <= k < na * nb * nc && Inverse(pi, rho, nb)
    ensures 0 <= Source(k, nb, nc, pi) < na * nb * nc
  {
    Recompose(k, nb, nc);
    FirstBelow(k, na, nb, nc);
    Inside(First(k, nb, nc), pi(Second(k, nb, nc)), Third(k, nc), na, nb, nc);
  }

  /** Distinct outputs have distinct sources, and every element is some output's source. */
  lemma SourceInvertible(k: int, na: int, nb: int, nc: int, pi: int -> int, rho: int -> int)
    requires nb > 0 && nc > 0 && 0 <= k < na * nb * nc && Inverse(pi, rho, nb)
    ensures Source(Source(k, nb, nc, pi), nb, nc, rho) == k && Source(Source(k, nb, nc, rho), nb, nc, pi) == k
  {
    var a, b, c := First(k, nb, nc), Second(k, nb, nc), Third(k, nc);
    Recompose(k, nb, nc);
    Coordinates(a, pi(b), c, nb, nc);
    Coordinates(a, rho(b), c, nb, nc);
  }

  /** `r` is `s` with the middle coordinate permuted. */
  ghost predicate Permuted<T>(s: seq<T>, r: seq<T>, na: int, nb: int, nc: int, pi: int -> int) {
    && nb > 0 && nc > 0 && |r| == |s| == na * nb * nc
    && forall k :: 0 <= k < |r| ==> 0 <= Source(k, nb, nc, pi) < |s| && r[k] == s[Source(k, nb, nc, pi)]
  }

  /** The permutation can be undone. */
  lemma PermutedBack<T>(s: seq<T>, r: seq<T>, t: seq<T>, na: int, nb: int, nc: int, pi: int -> int, rho: int -> int)
    requires Permuted(s, r, na, nb, nc, pi) && Permuted(r, t, na, nb, nc, rho) && Inverse(pi, rho, nb)
    ensures t == s
  {
    forall k | 0 <= k < |t|
      ensures t[k] == s[k]
    {
      SourceInvertible(k, na, nb, nc, pi, rho);
    }
  }
}

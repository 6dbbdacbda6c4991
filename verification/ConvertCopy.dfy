/** Four nested loops that copy elements from one index to another. */
module ConvertCopy {

  /** The loop bounds. */
  datatype Box = Box(n0: int, n1: int, n2: int, n3: int)

  predicate In(b: Box, i: int, j: int, k: int, l: int) {
    0 <= i < b.n0 && 0 <= j < b.n1 && 0 <= k < b.n2 && 0 <= l < b.n3
  }

  type Index = (int, int, int, int) -> int

  /** Every point of the box has an index below `n`. */
  ghost predicate Fits(b: Box, at: Index, n: int) {
    forall i, j, k, l :: In(b, i, j, k, l) ==> 0 <= at(i, j, k, l) < n
  }

  /** Distinct points have distinct indices. */
  ghost predicate Injective(b: Box, at: Index) {
    forall i, j, k, l, i', j', k', l' ::
      In(b, i, j, k, l) && In(b, i', j', k', l') && at(i, j, k, l) == at(i', j', k', l') ==>
        i == i' && j == j' && k == k' && l == l'
  }

  /** Some point of the box has index `m`. */
  ghost predicate Hit(b: Box, at: Index, m: int) {
    exists i, j, k, l :: In(b, i, j, k, l) && at(i, j, k, l) == m
  }

  method CopyRow<T>(data: seq<T>, out: array<T>, b: Box, dst: Index, src: Index, i: int, j: int, k: int)
    requires Fits(b, dst, out.Length) && Fits(b, src, |data|) && Injective(b, dst)
    requires 0 <= i < b.n0 && 0 <= j < b.n1 && 0 <= k < b.n2
    modifies out
    ensures forall l :: 0 <= l < b.n3 ==> In(b, i, j, k, l) && out[dst(i, j, k, l)] == data[src(i, j, k, l)]
    ensures forall i', j', k', l' :: In(b, i', j', k', l') && !(i' == i && j' == j && k' == k) ==>
              out[dst(i', j', k', l')] == old(out[dst(i', j', k', l')])
    ensures forall m :: 0 <= m < out.Length && !Hit(b, dst, m) ==> out[m] == old(out[m])
  {
    var l := 0;
    while l < b.n3
      invariant 0 <= l && (0 <= b.n3 ==> l <= b.n3)
      invariant forall m :: 0 <= m < l ==> In(b, i, j, k, m) && out[dst(i, j, k, m)] == data[src(i, j, k, m)]
      invariant forall i', j', k', l' :: In(b, i', j', k', l') && !(i' == i && j' == j && k' == k) ==>
                  out[dst(i', j', k', l')] == old(out[dst(i', j', k', l')])
      invariant forall m :: 0 <= m < out.Length && !Hit(b, dst, m) ==> out[m] == old(out[m])
    {
      assert In(b, i, j, k, l);
      out[dst(i, j, k, l)] := data[src(i, j, k, l)];
      l := l + 1;
    }
  }

  method CopyPlane<T>(data: seq<T>, out: array<T>, b: Box, dst: Index, src: Index, i: int, j: int)
    requires Fits(b, dst, out.Length) && Fits(b, src, |data|) && Injective(b, dst)
    requires 0 <= i < b.n0 && 0 <= j < b.n1
    modifies out
    ensures forall k, l :: In(b, i, j, k, l) ==> out[dst(i, j, k, l)] == data[src(i, j, k, l)]
    ensures forall i', j', k', l' :: In(b, i', j', k', l') && !(i' == i && j' == j) ==>
              out[dst(i', j', k', l')] == old(out[dst(i', j', k', l')])
    ensures forall m :: 0 <= m < out.Length && !Hit(b, dst, m) ==> out[m] == old(out[m])
  {
    var k := 0;
    while k < b.n2
      invariant 0 <= k
      invariant forall m, l :: In(b, i, j, m, l) && m < k ==> out[dst(i, j, m, l)] == data[src(i, j, m, l)]
      invariant forall i', j', k', l' :: In(b, i', j', k', l') && !(i' == i && j' == j) ==>
                  out[dst(i', j', k', l')] == old(out[dst(i', j', k', l')])
      invariant forall m :: 0 <= m < out.Length && !Hit(b, dst, m) ==> out[m] == old(out[m])
    {
      CopyRow(data, out, b, dst, src, i, j, k);
      k := k + 1;
    }
  }

  method CopySlab<T>(data: seq<T>, out: array<T>, b: Box, dst: Index, src: Index, i: int)
    requires Fits(b, dst, out.Length) && Fits(b, src, |data|) && Injective(b, dst)
    requires 0 <= i < b.n0
    modifies out
    ensures forall j, k, l :: In(b, i, j, k, l) ==> out[dst(i, j, k, l)] == data[src(i, j, k, l)]
    ensures forall i', j', k', l' :: In(b, i', j', k', l') && i' != i ==>
              out[dst(i', j', k', l')] == old(out[dst(i', j', k', l')])
    ensures forall m :: 0 <= m < out.Length && !Hit(b, dst, m) ==> out[m] == old(out[m])
  {
    var j := 0;
    while j < b.n1
      invariant 0 <= j
      invariant forall m, k, l :: In(b, i, m, k, l) && m < j ==> out[dst(i, m, k, l)] == data[src(i, m, k, l)]
      invariant forall i', j', k', l' :: In(b, i', j', k', l') && i' != i ==>
                  out[dst(i', j', k', l')] == old(out[dst(i', j', k', l')])
      invariant forall m :: 0 <= m < out.Length && !Hit(b, dst, m) ==> out[m] == old(out[m])
    {
      CopyPlane(data, out, b, dst, src, i, j);
      j := j + 1;
    }
  }

  /**
   * The four loops: each element of the box is copied from its source to its destination, and nothing else is written.
   */
  method CopyBox<T>(data: seq<T>, out: array<T>, b: Box, dst: Index, src: Index)
    requires Fits(b, dst, out.Length) && Fits(b, src, |data|) && Injective(b, dst)
    modifies out
    ensures forall i, j, k, l :: In(b, i, j, k, l) ==> out[dst(i, j, k, l)] == data[src(i, j, k, l)]
    ensures forall m :: 0 <= m < out.Length && !Hit(b, dst, m) ==> out[m] == old(out[m])
  {
    var i := 0;
    while i < b.n0
      invariant 0 <= i
      invariant forall m, j, k, l :: In(b, m, j, k, l) && m < i ==> out[dst(m, j, k, l)] == data[src(m, j, k, l)]
      invariant forall m :: 0 <= m < out.Length && !Hit(b, dst, m) ==> out[m] == old(out[m])
    {
      CopySlab(data, out, b, dst, src, i);
      i := i + 1;
    }
  }
}

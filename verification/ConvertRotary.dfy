/** The reordering of rotary dimensions from interleaved to half-split order. */
module ConvertRotary {
  import opened Arithmetic
  import opened ConvertIndex

  /** The dimension from which output dimension `d` of a head comes: even ones first, then odd ones, then the rest. */
  function SourceDim(d: int, half: int): int {
    if d < half then 2 * d else if d < 2 * half then 2 * (d - half) + 1 else d
  }

  function TargetDim(d: int, half: int): int {
    if d >= 2 * half then d else if d % 2 == 0 then d / 2 else half + d / 2
  }

  function SourceDims(half: int): int -> int {
    d => SourceDim(d, half)
  }

  function TargetDims(half: int): int -> int {
    d => TargetDim(d, half)
  }

  lemma DimsInverse(half: int, headDim: int)
    requires 0 <= 2 * half <= headDim
    ensures Inverse(SourceDims(half), TargetDims(half), headDim)
  {
    forall d | 0 <= d < headDim
      ensures 0 <= SourceDims(half)(d) < headDim && TargetDims(half)(SourceDims(half)(d)) == d
      ensures 0 <= TargetDims(half)(d) < headDim && SourceDims(half)(TargetDims(half)(d)) == d
    {
      DimIs(d, half, headDim);
    }
  }

  lemma DimIs(d: int, half: int, headDim: int)
    requires 0 <= 2 * half <= headDim && 0 <= d < headDim
    ensures 0 <= SourceDim(d, half) < headDim && TargetDim(SourceDim(d, half), half) == d
    ensures 0 <= TargetDim(d, half) < headDim && SourceDim(TargetDim(d, half), half) == d
  {
  }

  // ---------------------------------------------------------------- the loops, for any injective index

  type Index = (int, int, int) -> int

  predicate In(heads: int, headDim: int, inF: int, h: int, d: int, f: int) {
    0 <= h < heads && 0 <= d < headDim && 0 <= f < inF
  }

  ghost predicate Usable(heads: int, headDim: int, inF: int, at: Index, n: int) {
    && (forall h, d, f :: In(heads, headDim, inF, h, d, f) ==> 0 <= at(h, d, f) < n)
    && (forall h, d, f, h', d', f' ::
          In(heads, headDim, inF, h, d, f) && In(heads, headDim, inF, h', d', f') && at(h, d, f) == at(h', d', f')
          ==> h == h' && d == d' && f == f')
  }

  /** Some dimension of some head has index `m`. */
  ghost predicate Hit(heads: int, headDim: int, inF: int, at: Index, m: int) {
    exists h, d, f :: In(heads, headDim, inF, h, d, f) && at(h, d, f) == m
  }

  /** The rotary dimensions of one head and feature. */
  method FillRotary<T>(data: seq<T>, result: array<T>, heads: int, headDim: int, inF: int, half: int, at: Index, h: int,
                       f: int)
    requires Usable(heads, headDim, inF, at, |data|) && result.Length == |data| && 0 <= 2 * half <= headDim
    requires 0 <= h < heads && 0 <= f < inF
    modifies result
    ensures forall d :: 0 <= d < 2 * half ==>
              In(heads, headDim, inF, h, d, f) && In(heads, headDim, inF, h, SourceDim(d, half), f)
                  && result[at(h, d, f)] == data[at(h, SourceDim(d, half), f)]
    ensures forall h', d, f' :: In(heads, headDim, inF, h', d, f') && !(h' == h && f' == f) ==>
              result[at(h', d, f')] == old(result[at(h', d, f')])
    ensures forall m :: 0 <= m < |data| && !Hit(heads, headDim, inF, at, m) ==> result[m] == old(result[m])
  {
    for i := 0 to half
      invariant forall d :: 0 <= d < i || half <= d < half + i ==>
                  In(heads, headDim, inF, h, d, f) && In(heads, headDim, inF, h, SourceDim(d, half), f)
                      && result[at(h, d, f)] == data[at(h, SourceDim(d, half), f)]
      invariant forall h', d, f' :: In(heads, headDim, inF, h', d, f') && !(h' == h && f' == f) ==>
                  result[at(h', d, f')] == old(result[at(h', d, f')])
      invariant forall m :: 0 <= m < |data| && !Hit(heads, headDim, inF, at, m) ==> result[m] == old(result[m])
    {
      WritePair(data, result, heads, headDim, inF, at, h, f, i, half);
    }
  }

  /** The body of the rotary loop: the even dimension, then the odd one. */
  method WritePair<T>(data: seq<T>, result: array<T>, heads: int, headDim: int, inF: int, at: Index, h: int, f: int,
                      i: int, half: int)
    requires Usable(heads, headDim, inF, at, |data|) && result.Length == |data| && 0 <= i < half && 2 * half <= headDim
    requires 0 <= h < heads && 0 <= f < inF
    modifies result
    ensures forall d :: d == i || d == half + i ==>
              In(heads, headDim, inF, h, d, f) && In(heads, headDim, inF, h, SourceDim(d, half), f)
                  && result[at(h, d, f)] == data[at(h, SourceDim(d, half), f)]
    ensures forall h', d, f' ::
              In(heads, headDim, inF, h', d, f') && !(h' == h && f' == f && (d == i || d == half + i)) ==>
              result[at(h', d, f')] == old(result[at(h', d, f')])
    ensures forall m :: 0 <= m < |data| && !Hit(heads, headDim, inF, at, m) ==> result[m] == old(result[m])
  {
    assert In(heads, headDim, inF, h, i, f) && In(heads, headDim, inF, h, half + i, f);
    assert In(heads, headDim, inF, h, 2 * i, f) && In(heads, headDim, inF, h, 2 * i + 1, f);
    result[at(h, i, f)] := data[at(h, 2 * i, f)];
    result[at(h, half + i, f)] := data[at(h, 2 * i + 1, f)];
  }

  /** The other dimensions of one head and feature, copied as they are. */
  method FillRest<T>(data: seq<T>, result: array<T>, heads: int, headDim: int, inF: int, start: int, at: Index, h: int,
                     f: int)
    requires Usable(heads, headDim, inF, at, |data|) && result.Length == |data| && 0 <= start <= headDim
    requires 0 <= h < heads && 0 <= f < inF
    modifies result
    ensures forall d :: start <= d < headDim ==>
              In(heads, headDim, inF, h, d, f) && result[at(h, d, f)] == data[at(h, d, f)]
    ensures forall h', d, f' :: In(heads, headDim, inF, h', d, f') && !(h' == h && f' == f && start <= d) ==>
              result[at(h', d, f')] == old(result[at(h', d, f')])
    ensures forall m :: 0 <= m < |data| && !Hit(heads, headDim, inF, at, m) ==> result[m] == old(result[m])
  {
    for i := start to headDim
      invariant forall d :: start <= d < i ==>
                  In(heads, headDim, inF, h, d, f) && result[at(h, d, f)] == data[at(h, d, f)]
      invariant forall h', d, f' :: In(heads, headDim, inF, h', d, f') && !(h' == h && f' == f && start <= d) ==>
                  result[at(h', d, f')] == old(result[at(h', d, f')])
      invariant forall m :: 0 <= m < |data| && !Hit(heads, headDim, inF, at, m) ==> result[m] == old(result[m])
    {
      assert In(heads, headDim, inF, h, i, f);
      result[at(h, i, f)] := data[at(h, i, f)];
    }
  }

  /** All dimensions of one head and feature. */
  method FillColumn<T>(data: seq<T>, result: array<T>, heads: int, headDim: int, inF: int, half: int, at: Index, h: int,
                       f: int)
    requires Usable(heads, headDim, inF, at, |data|) && result.Length == |data| && 0 <= 2 * half <= headDim
    requires 0 <= h < heads && 0 <= f < inF
    modifies result
    ensures forall d :: 0 <= d < headDim ==>
              In(heads, headDim, inF, h, d, f) && In(heads, headDim, inF, h, SourceDim(d, half), f)
                  && result[at(h, d, f)] == data[at(h, SourceDim(d, half), f)]
    ensures forall h', d, f' :: In(heads, headDim, inF, h', d, f') && !(h' == h && f' == f) ==>
              result[at(h', d, f')] == old(result[at(h', d, f')])
    ensures forall m :: 0 <= m < |data| && !Hit(heads, headDim, inF, at, m) ==> result[m] == old(result[m])
  {
    FillRotary(data, result, heads, headDim, inF, half, at, h, f);
    FillRest(data, result, heads, headDim, inF, 2 * half, at, h, f);
  }

  method FillHead<T>(data: seq<T>, result: array<T>, heads: int, headDim: int, inF: int, half: int, at: Index, h: int)
    requires Usable(heads, headDim, inF, at, |data|) && result.Length == |data| && 0 <= 2 * half <= headDim && 0 <= inF
    requires 0 <= h < heads
    modifies result
    ensures forall d, f :: In(heads, headDim, inF, h, d, f) ==>
                In(heads, headDim, inF, h, SourceDim(d, half), f)
                    && result[at(h, d, f)] == data[at(h, SourceDim(d, half), f)]
    ensures forall h', d, f' :: In(heads, headDim, inF, h', d, f') && h' != h ==>
              result[at(h', d, f')] == old(result[at(h', d, f')])
    ensures forall m :: 0 <= m < |data| && !Hit(heads, headDim, inF, at, m) ==> result[m] == old(result[m])
  {
    for f := 0 to inF
      invariant forall d, g :: In(heads, headDim, inF, h, d, g) && g < f ==>
                In(heads, headDim, inF, h, SourceDim(d, half), g)
                    && result[at(h, d, g)] == data[at(h, SourceDim(d, half), g)]
      invariant forall h', d, f' :: In(heads, headDim, inF, h', d, f') && h' != h ==>
                  result[at(h', d, f')] == old(result[at(h', d, f')])
      invariant forall m :: 0 <= m < |data| && !Hit(heads, headDim, inF, at, m) ==> result[m] == old(result[m])
    {
      FillColumn(data, result, heads, headDim, inF, half, at, h, f);
    }
  }

  method Fill<T>(data: seq<T>, zero: T, heads: int, headDim: int, inF: int, half: int, at: Index)
    returns (result: array<T>)
    requires Usable(heads, headDim, inF, at, |data|) && 0 <= 2 * half <= headDim && 0 <= inF && 0 <= heads
    ensures fresh(result) && result.Length == |data|
    ensures forall h, d, f :: In(heads, headDim, inF, h, d, f) ==>
                In(heads, headDim, inF, h, SourceDim(d, half), f)
                    && result[at(h, d, f)] == data[at(h, SourceDim(d, half), f)]
    ensures forall m :: 0 <= m < |data| && !Hit(heads, headDim, inF, at, m) ==> result[m] == zero
  {
    result := new T[|data|](_ => zero);
    for h := 0 to heads
      invariant forall g, d, f :: In(heads, headDim, inF, g, d, f) && g < h ==>
                In(heads, headDim, inF, g, SourceDim(d, half), f)
                    && result[at(g, d, f)] == data[at(g, SourceDim(d, half), f)]
      invariant forall m :: 0 <= m < |data| && !Hit(heads, headDim, inF, at, m) ==> result[m] == zero
    {
      FillHead(data, result, heads, headDim, inF, half, at, h);
    }
  }

  // ---------------------------------------------------------------- the repacker

  /** The flat index of dimension `d` of head `h` in feature column `f`. */
  function Flat(headDim: int, inF: int): Index {
    (h, d, f) => At3(h, d, f, headDim, inF)
  }

  /** What the repacker returns: whole heads reordered, and zeros where no whole head reaches. */
  ghost predicate IsNeoX<T>(data: seq<T>, result: seq<T>, zero: T, heads: int, headDim: int, inF: int, half: int) {
    && headDim > 0 && inF > 0 && |result| == |data|
    && forall k :: 0 <= k < |data| ==>
         if k < heads * headDim * inF
         then 0 <= Source(k, headDim, inF, SourceDims(half)) < |data|
             && result[k] == data[Source(k, headDim, inF, SourceDims(half))]
         else result[k] == zero
  }

  lemma FlatUsable(heads: int, headDim: int, inF: int, n: int)
    requires headDim > 0 && inF > 0 && heads * headDim * inF <= n
    ensures Usable(heads, headDim, inF, Flat(headDim, inF), n)
    ensures forall m :: heads * headDim * inF <= m ==> !Hit(heads, headDim, inF, Flat(headDim, inF), m)
  {
    var at := Flat(headDim, inF);
    forall h, d, f | In(heads, headDim, inF, h, d, f)
      ensures 0 <= at(h, d, f) < heads * headDim * inF
      ensures First(at(h, d, f), headDim, inF) == h && Second(at(h, d, f), headDim, inF) == d
      ensures Third(at(h, d, f), inF) == f
    {
      Inside(h, d, f, heads, headDim, inF);
      Coordinates(h, d, f, headDim, inF);
    }
  }

  lemma WholeHeadsFit(outFeatures: nat, headDim: nat, inF: nat)
    requires headDim > 0
    ensures (outFeatures / headDim) * headDim * inF <= outFeatures * inF
    ensures outFeatures % headDim == 0 ==> (outFeatures / headDim) * headDim == outFeatures
    ensures outFeatures % headDim != 0 && inF > 0 ==> (outFeatures / headDim) * headDim * inF < outFeatures * inF
  {
    var whole := (outFeatures / headDim) * headDim;
    assert outFeatures == whole + outFeatures % headDim;
    MulMonotone(whole, outFeatures, inF);
    if outFeatures % headDim != 0 && inF > 0 {
      MulMonotone(whole + 1, outFeatures, inF);
      assert (whole + 1) * inF == whole * inF + inF;
    }
  }

  /** Slot `k` of a whole head holds what the loops put there. */
  lemma SlotIs<T>(data: seq<T>, result: seq<T>, heads: int, headDim: int, inF: int, half: int, k: int)
    requires headDim > 0 && inF > 0 && 0 <= k < heads * headDim * inF <= |data| && |result| == |data|
    requires Usable(heads, headDim, inF, Flat(headDim, inF), |data|) && 0 <= 2 * half <= headDim
    requires forall h, d, f :: In(heads, headDim, inF, h, d, f) ==>
               In(heads, headDim, inF, h, SourceDim(d, half), f)
               && result[Flat(headDim, inF)(h, d, f)] == data[Flat(headDim, inF)(h, SourceDim(d, half), f)]
    ensures 0 <= Source(k, headDim, inF, SourceDims(half)) < |data|
    ensures result[k] == data[Source(k, headDim, inF, SourceDims(half))]
  {
    var at := Flat(headDim, inF);
    var h, d, f := First(k, headDim, inF), Second(k, headDim, inF), Third(k, inF);
    Recompose(k, headDim, inF);
    FirstBelow(k, heads, headDim, inF);
    assert In(heads, headDim, inF, h, d, f);
    assert at(h, d, f) == k;
    assert at(h, SourceDim(d, half), f) == Source(k, headDim, inF, SourceDims(half));
  }

  /** `normalToNeoXRepacker`, for a rotary dimension already taken as an integer. */
  method NormalToNeoX<T>(data: seq<T>, zero: T, outFeatures: nat, inF: nat, headDim: nat, rotaryDim: nat)
    returns (result: array<T>)
    requires headDim > 0 && inF > 0 && rotaryDim <= headDim && |data| == outFeatures * inF
    ensures fresh(result) && IsNeoX(data, result[..], zero, outFeatures / headDim, headDim, inF, rotaryDim / 2)
  {
    WholeHeadsFit(outFeatures, headDim, inF);
    result := RepackHeads(data, zero, outFeatures / headDim, inF, headDim, rotaryDim / 2);
  }

  method RepackHeads<T>(data: seq<T>, zero: T, heads: nat, inF: nat, headDim: nat, half: nat) returns (result: array<T>)
    requires headDim > 0 && inF > 0 && 2 * half <= headDim && heads * headDim * inF <= |data|
    ensures fresh(result) && IsNeoX(data, result[..], zero, heads, headDim, inF, half)
  {
    FlatUsable(heads, headDim, inF, |data|);
    result := Fill(data, zero, heads, headDim, inF, half, Flat(headDim, inF));
    ghost var r := result[..];
    forall k | 0 <= k < |data|
      ensures if k < heads * headDim * inF
              then 0 <= Source(k, headDim, inF, SourceDims(half)) < |data|
                  && r[k] == data[Source(k, headDim, inF, SourceDims(half))]
              else r[k] == zero
    {
      if k < heads * headDim * inF {
        SlotIs(data, r, heads, headDim, inF, half, k);
      }
    }
  }

  /** For whole heads the repacker is a permutation, so the data can be had back. */
  lemma NeoXIsPermutation<T>(data: seq<T>, result: seq<T>, zero: T, heads: int, headDim: int, inF: int, half: nat)
    requires headDim > 0 && inF > 0 && 2 * half <= headDim && |data| == heads * headDim * inF
    requires IsNeoX(data, result, zero, heads, headDim, inF, half)
    ensures Permuted(data, result, heads, headDim, inF, SourceDims(half))
    ensures Inverse(SourceDims(half), TargetDims(half), headDim)
  {
    DimsInverse(half, headDim);
  }

  lemma PermutedInjective<T>(s: seq<T>, s': seq<T>, r: seq<T>, na: int, nb: int, nc: int, pi: int -> int,
                             rho: int -> int)
    requires Permuted(s, r, na, nb, nc, pi) && Permuted(s', r, na, nb, nc, pi) && Inverse(pi, rho, nb)
    ensures s == s'
  {
    forall k | 0 <= k < |s|
      ensures s[k] == s'[k]
    {
      SourceInvertible(k, na, nb, nc, pi, rho);
      SourceInside(k, na, nb, nc, rho, pi);
    }
  }

  /** Two tensors of `n` elements that the repacker cannot tell apart. */
  ghost predicate Confused<T>(data: seq<T>, data': seq<T>, r: seq<T>, zero: T, n: int, heads: int, headDim: int,
                              inF: int, half: int) {
    && |data| == |data'| == n && data != data'
    && IsNeoX(data, r, zero, heads, headDim, inF, half) && IsNeoX(data', r, zero, heads, headDim, inF, half)
  }

  lemma WholeHeadsAreKept<T(!new)>(zero: T, heads: int, headDim: int, inF: int, half: nat)
    requires headDim > 0 && inF > 0 && 2 * half <= headDim
    ensures !exists data: seq<T>, data': seq<T>, r: seq<T> ::
              Confused(data, data', r, zero, heads * headDim * inF, heads, headDim, inF, half)
  {
    forall data: seq<T>, data': seq<T>, r: seq<T>
      ensures !Confused(data, data', r, zero, heads * headDim * inF, heads, headDim, inF, half)
    {
      if Confused(data, data', r, zero, heads * headDim * inF, heads, headDim, inF, half) {
        NeoXIsPermutation(data, r, zero, heads, headDim, inF, half);
        NeoXIsPermutation(data', r, zero, heads, headDim, inF, half);
        PermutedInjective(data, data', r, heads, headDim, inF, SourceDims(half), TargetDims(half));
      }
    }
  }

  lemma TailIsLost<T(!new)>(zero: T, x: T, y: T, n: nat, heads: int, headDim: int, inF: int, half: nat)
    requires x != y && headDim > 0 && inF > 0 && 2 * half <= headDim && 0 <= heads * headDim * inF < n
    ensures exists data: seq<T>, data': seq<T>, r: seq<T> ::
              Confused(data, data', r, zero, n, heads, headDim, inF, half)
  {
    var whole := heads * headDim * inF;
    var data := seq(n, _ => x);
    var data' := data[n - 1 := y];
    var r := seq(n, k => if k < whole then x else zero);
    DimsInverse(half, headDim);
    forall k | 0 <= k < whole
      ensures 0 <= Source(k, headDim, inF, SourceDims(half)) < whole
    {
      SourceInside(k, heads, headDim, inF, SourceDims(half), TargetDims(half));
    }
    assert data[n - 1] != data'[n - 1];
    assert Confused(data, data', r, zero, n, heads, headDim, inF, half);
  }

  /** The repacker loses nothing if and only if the rows are whole heads. */
  lemma NeoXLosslessIff<T(!new)>(zero: T, x: T, y: T, outFeatures: nat, inF: nat, headDim: nat, half: nat)
    requires x != y && headDim > 0 && inF > 0 && 2 * half <= headDim
    ensures outFeatures % headDim == 0 <==>
            !exists data: seq<T>, data': seq<T>, r: seq<T> ::
              Confused(data, data', r, zero, outFeatures * inF, outFeatures / headDim, headDim, inF, half)
  {
    var heads := outFeatures / headDim;
    WholeHeadsFit(outFeatures, headDim, inF);
    if outFeatures % headDim == 0 {
      WholeHeadsAreKept<T>(zero, heads, headDim, inF, half);
    } else {
      assert heads * headDim * inF >= 0;
      TailIsLost(zero, x, y, outFeatures * inF, heads, headDim, inF, half);
    }
  }

  // ---------------------------------------------------------------- element by element

  /** The flat place of dimension `d` of head `h` in column `f`. */
  lemma PlaceIs(h: int, d: int, f: int, headDim: int, inF: int)
    ensures At3(h, d, f, headDim, inF) == h * headDim * inF + d * inF + f
  {
    Distribute(h * headDim, d, inF);
  }

  lemma NeoXAt<T>(data: seq<T>, result: seq<T>, zero: T, heads: int, headDim: int, inF: int, half: nat, h: nat, d: nat,
                  f: nat)
    requires IsNeoX(data, result, zero, heads, headDim, inF, half) && heads * headDim * inF <= |data|
    requires 2 * half <= headDim && h < heads && d < headDim && f < inF
    ensures 0 <= At3(h, d, f, headDim, inF) < |result| && 0 <= At3(h, SourceDim(d, half), f, headDim, inF) < |data|
    ensures result[At3(h, d, f, headDim, inF)] == data[At3(h, SourceDim(d, half), f, headDim, inF)]
  {
    Inside(h, d, f, heads, headDim, inF);
    Inside(h, SourceDim(d, half), f, heads, headDim, inF);
    Coordinates(h, d, f, headDim, inF);
  }

  /**
   * In each head the first half of the rotary dimensions are the even ones, in order, the second half the odd ones,
   * and the other dimensions stay.
   */
  lemma EvensThenOdds<T>(data: seq<T>, result: seq<T>, zero: T, heads: int, headDim: int, inF: int, half: nat, h: nat,
                         i: nat, f: nat)
    requires IsNeoX(data, result, zero, heads, headDim, inF, half) && heads * headDim * inF <= |data|
    requires 2 * half <= headDim && h < heads && f < inF
    ensures i < half ==>
              var to, from := h * headDim * inF + i * inF + f, h * headDim * inF + (2 * i) * inF + f;
              0 <= to < |result| && 0 <= from < |data| && result[to] == data[from]
    ensures i < half ==>
              var to, from := h * headDim * inF + (half + i) * inF + f, h * headDim * inF + (2 * i + 1) * inF + f;
              0 <= to < |result| && 0 <= from < |data| && result[to] == data[from]
    ensures 2 * half <= i < headDim ==>
              var at := h * headDim * inF + i * inF + f; 0 <= at < |result| && at < |data| && result[at] == data[at]
  {
    if i < half {
      NeoXAt(data, result, zero, heads, headDim, inF, half, h, i, f);
      NeoXAt(data, result, zero, heads, headDim, inF, half, h, half + i, f);
      PlaceIs(h, i, f, headDim, inF);
      PlaceIs(h, 2 * i, f, headDim, inF);
      PlaceIs(h, half + i, f, headDim, inF);
      PlaceIs(h, 2 * i + 1, f, headDim, inF);
    } else if 2 * half <= i < headDim {
      NeoXAt(data, result, zero, heads, headDim, inF, half, h, i, f);
      PlaceIs(h, i, f, headDim, inF);
    }
  }
}

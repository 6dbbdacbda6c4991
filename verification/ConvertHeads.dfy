/** The reordering of value heads from grouped by key head to tiled over the key heads. */
module ConvertHeads {
  import opened Arithmetic
  import opened ConvertIndex

  function Product(shape: seq<nat>): nat {
    if shape == [] then 1 else shape[0] * Product(shape[1..])
  }

  lemma {:induction false} ProductSplits(shape: seq<nat>, d: nat)
    requires d < |shape|
    ensures Product(shape) == Product(shape[..d]) * shape[d] * Product(shape[d + 1..])
  {
    if d > 0 {
      var rest := shape[1..];
      ProductSplits(rest, d - 1);
      assert rest[..d - 1] == shape[..d][1..];
      assert rest[d..] == shape[d + 1..];
      Regroup(shape[0], Product(rest[..d - 1]), shape[d], Product(shape[d + 1..]));
    }
  }

  lemma Regroup(a: nat, b: nat, c: nat, d: nat)
    ensures a * (b * c * d) == a * b * c * d
  {
  }

  /** Source of output index `k` when shape `na x ng x nv x nc` is transposed to `na x nv x ng x nc`. */
  function HeadSource(k: int, ng: int, nv: int, nc: int): int
    requires ng > 0 && nv > 0 && nc > 0
  {
    SwapLast(k / nc, nv, ng) * nc + k % nc
  }

  lemma HeadSourceIs(k: int, na: nat, ng: nat, nv: nat, nc: nat)
    requires ng > 0 && nv > 0 && nc > 0 && 0 <= k < na * nv * ng * nc
    ensures 0 <= HeadSource(k, ng, nv, nc) < na * ng * nv * nc && HeadSource(HeadSource(k, ng, nv, nc), nv, ng, nc) == k
  {
    var q, h := k / nc, k % nc;
    QuotientIs(k, nc);
    if q >= na * nv * ng {
      MulMonotone(na * nv * ng, q, nc);
    }
    SwapLastIs(q, na, nv, ng);
    var q' := SwapLast(q, nv, ng);
    DivMod(q', h, nc);
    MulMonotone(0, q', nc);
    MulMonotone(q' + 1, na * ng * nv, nc);
    Distribute(q', 1, nc);
  }

  /**
   * Value head `v` of key head `g` stands at `g * nv + v` in the grouped layout and at `v * ng + g` in the tiled one.
   */
  lemma GroupedToTiled(a: nat, g: nat, v: nat, c: nat, ng: nat, nv: nat, nc: nat)
    requires g < ng && v < nv && c < nc
    ensures HeadSource(At3(a, v, g, nv, ng) * nc + c, ng, nv, nc) == At3(a, g, v, ng, nv) * nc + c
  {
    DivMod(At3(a, v, g, nv, ng), c, nc);
    Coordinates(a, v, g, nv, ng);
  }

  /** The tensor operations: reshape, exchange two axes, copy. */
  function SwapHeads<T>(data: seq<T>, na: nat, ng: nat, nv: nat, nc: nat): (r: seq<T>)
    requires ng > 0 && nv > 0 && |data| == na * ng * nv * nc
    ensures |r| == |data|
  {
    if nc == 0 then data
    else
      Associate(na, ng, nv);
      seq(|data|, k requires 0 <= k < |data| => HeadSourceIs(k, na, ng, nv, nc); data[HeadSource(k, ng, nv, nc)])
  }

  lemma HeadsSize(na: nat, ng: nat, nv: nat, headDim: nat, inner: nat)
    ensures na * (ng * nv * headDim) * inner == na * ng * nv * (headDim * inner)
  {
    Associate(na, ng * nv, headDim);
    Associate(na, ng, nv);
    Associate(na * (ng * nv), headDim, inner);
  }

  /** The axis counted from the end when negative. */
  function Axis(dim: int, rank: nat): int {
    if dim < 0 then dim + rank else dim
  }

  /** The axis is made of `ng * nv` heads. */
  predicate HasHeads(shape: seq<nat>, dim: int, ng: int, nv: int, headDim: int) {
    && |shape| > 0 && ng > 0 && nv > 0 && headDim > 0
    && 0 <= Axis(dim, |shape|) < |shape| && shape[Axis(dim, |shape|)] == ng * nv * headDim
  }

  /** `reorderHeadLayout`. */
  function ReorderHeadLayout<T>(data: seq<T>, shape: seq<nat>, dim: int, ng: int, nv: int, headDim: int): (r: seq<T>)
    requires |data| == Product(shape)
    ensures |r| == |data|
  {
    if HasHeads(shape, dim, ng, nv, headDim) then
      var d := Axis(dim, |shape|);
      ProductSplits(shape, d);
      HeadsSize(Product(shape[..d]), ng, nv, headDim, Product(shape[d + 1..]));
      SwapHeads(data, Product(shape[..d]), ng, nv, headDim * Product(shape[d + 1..]))
    else data
  }

  lemma SwapHeadsBack<T>(data: seq<T>, na: nat, ng: nat, nv: nat, nc: nat)
    requires ng > 0 && nv > 0 && |data| == na * ng * nv * nc
    ensures na * ng * nv * nc == na * nv * ng * nc && SwapHeads(SwapHeads(data, na, ng, nv, nc), na, nv, ng, nc) == data
  {
    Associate(na, ng, nv);
    var r := SwapHeads(data, na, ng, nv, nc);
    var t := SwapHeads(r, na, nv, ng, nc);
    if nc > 0 {
      forall k | 0 <= k < |t|
        ensures t[k] == data[k]
      {
        HeadSourceIs(k, na, nv, ng, nc);
        assert t[k] == r[HeadSource(k, nv, ng, nc)];
      }
    }
  }

  /** The reordering loses nothing, on any axis of any tensor: exchanging the two head counts undoes it. */
  lemma ReorderInvertible<T>(data: seq<T>, shape: seq<nat>, dim: int, ng: int, nv: int, headDim: int)
    requires |data| == Product(shape)
    ensures ReorderHeadLayout(ReorderHeadLayout(data, shape, dim, ng, nv, headDim), shape, dim, nv, ng, headDim) == data
  {
    if HasHeads(shape, dim, ng, nv, headDim) {
      var d := Axis(dim, |shape|);
      ProductSplits(shape, d);
      HeadsSize(Product(shape[..d]), ng, nv, headDim, Product(shape[d + 1..]));
      SwapHeadsBack(data, Product(shape[..d]), ng, nv, headDim * Product(shape[d + 1..]));
    }
  }

  lemma HeadElement<T>(data: seq<T>, shape: seq<nat>, dim: int, d: nat, ng: nat, nv: nat, headDim: nat, a: nat, g: nat,
                       v: nat, c: nat)
    requires |data| == Product(shape) && HasHeads(shape, dim, ng, nv, headDim) && d == Axis(dim, |shape|)
    requires g < ng && v < nv && a < Product(shape[..d]) && c < headDim * Product(shape[d + 1..])
    ensures var nc := headDim * Product(shape[d + 1..]);
            var to, from := At3(a, v, g, nv, ng) * nc + c, At3(a, g, v, ng, nv) * nc + c;
            && 0 <= to < |data| && 0 <= from < |data|
            && ReorderHeadLayout(data, shape, dim, ng, nv, headDim)[to] == data[from]
  {
    var na, nc := Product(shape[..d]), headDim * Product(shape[d + 1..]);
    ProductSplits(shape, d);
    HeadsSize(na, ng, nv, headDim, Product(shape[d + 1..]));
    GroupedToTiled(a, g, v, c, ng, nv, nc);
    PlaceInside(a, v, g, c, na, nv, ng, nc);
    PlaceInside(a, g, v, c, na, ng, nv, nc);
    Associate(na, ng, nv);
  }

  /**
   * What the reordering does on the axis it is given: with `a` the index over the axes before it and `c` the
   * index within a head and over the axes after it, value head `v` of key head `g` moves to its tiled place.
   */
  lemma ReorderedElement<T>(data: seq<T>, shape: seq<nat>, dim: int, d: nat, ng: nat, nv: nat, headDim: nat, a: nat,
                            g: nat, v: nat, c: nat)
    requires |data| == Product(shape) && d < |shape| && (d == dim || d == dim + |shape|) && -|shape| <= dim < |shape|
    requires dim < 0 ==> d == dim + |shape|
    requires shape[d] == ng * nv * headDim && g < ng && v < nv
    requires a < Product(shape[..d]) && c < headDim * Product(shape[d + 1..])
    ensures var nc := headDim * Product(shape[d + 1..]);
            var to, from := ((a * nv + v) * ng + g) * nc + c, ((a * ng + g) * nv + v) * nc + c;
            && 0 <= to < |data| && 0 <= from < |data|
            && ReorderHeadLayout(data, shape, dim, ng, nv, headDim)[to] == data[from]
  {
    assert headDim > 0;
    assert HasHeads(shape, dim, ng, nv, headDim);
    HeadElement(data, shape, dim, d, ng, nv, headDim, a, g, v, c);
  }

  lemma PlaceInside(a: nat, i: nat, j: nat, c: nat, na: nat, nv: nat, ng: nat, nc: nat)
    requires a < na && i < nv && j < ng && c < nc
    ensures 0 <= At3(a, i, j, nv, ng) * nc + c < na * nv * ng * nc
  {
    var q := At3(a, i, j, nv, ng);
    Inside(a, i, j, na, nv, ng);
    MulMonotone(0, q, nc);
    MulMonotone(q + 1, na * nv * ng, nc);
    Distribute(q, 1, nc);
  }
}

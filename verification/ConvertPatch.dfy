/** Patch-embedding layouts: channel-last pixels to channel planes, and the split into temporal slices. */
module ConvertPatch {
  import opened Arithmetic
  import opened ConvertIndex
  import opened ConvertCopy

  datatype Outcome<T> = Failed | Ok(value: T)

  // ---------------------------------------------------------------- swapping the last two axes

  /**
   * `result` holds, as `nOut` rows of `nc` planes of `pixels` pixels, what `data` holds as `nOut` rows of `pixels`
   * pixels of `nc` channels.
   */
  ghost predicate IsRepacked<T>(data: seq<T>, result: seq<T>, nOut: int, nc: int, pixels: int) {
    && nc > 0 && pixels > 0 && |data| == |result| == nOut * nc * pixels
    && forall k :: 0 <= k < |result| ==>
        0 <= SwapLast(k, nc, pixels) < |data| && result[k] == data[SwapLast(k, nc, pixels)]
  }

  lemma ProductsAgree(nOut: int, nc: int, pixels: int)
    ensures nOut * nc * pixels == nOut * pixels * nc
  {
  }

  /** The repacking is a bijection: each element of the source is found again, and repacking back gives the source. */
  lemma RepackedBijective<T>(data: seq<T>, result: seq<T>, nOut: int, nc: int, pixels: int)
    requires IsRepacked(data, result, nOut, nc, pixels)
    ensures forall j :: 0 <= j < |data| ==>
              0 <= SwapLast(j, pixels, nc) < |result| && data[j] == result[SwapLast(j, pixels, nc)]
  {
    ProductsAgree(nOut, nc, pixels);
    forall j | 0 <= j < |data|
      ensures 0 <= SwapLast(j, pixels, nc) < |result| && data[j] == result[SwapLast(j, pixels, nc)]
    {
      SwapLastIs(j, nOut, pixels, nc);
    }
  }

  // ---------------------------------------------------------------- pixels

  /** Pixel `(y, x)` of a patch. */
  lemma PixelIs(y: int, x: int, side: int)
    requires 0 <= y < side && 0 <= x < side
    ensures 0 <= y * side + x < side * side && (y * side + x) / side == y && (y * side + x) % side == x
  {
    DivMod(y, x, side);
    MulMonotone(y + 1, side, side);
    assert (y + 1) * side == y * side + side;
    assert y * side >= 0;
  }

  lemma PixelOf(p: int, side: int)
    requires 0 < side && 0 <= p < side * side
    ensures 0 <= p / side < side && 0 <= p % side < side && (p / side) * side + p % side == p
  {
    var y := p / side;
    assert p == y * side + p % side;
    if y >= side {
      MulMonotone(side, y, side);
    }
  }

  function PlaneIndex(nc: int, side: int): Index {
    (o, y, x, c) => At3(o, c, y * side + x, nc, side * side)
  }

  function PixelIndex(nc: int, side: int): Index {
    (o, y, x, c) => At3(o, y * side + x, c, side * side, nc)
  }

  lemma PixelIndexFits(nOut: int, nc: int, side: int)
    requires nc > 0 && side > 0
    ensures Fits(Box(nOut, side, side, nc), PixelIndex(nc, side), nOut * (side * side) * nc)
  {
    var b := Box(nOut, side, side, nc);
    forall o, y, x, c | In(b, o, y, x, c)
      ensures 0 <= PixelIndex(nc, side)(o, y, x, c) < nOut * (side * side) * nc
    {
      PixelIs(y, x, side);
      Inside(o, y * side + x, c, nOut, side * side, nc);
    }
  }

  lemma PlaneIndexUsable(nOut: int, nc: int, side: int)
    requires nc > 0 && side > 0
    ensures Fits(Box(nOut, side, side, nc), PlaneIndex(nc, side), nOut * nc * (side * side))
    ensures Injective(Box(nOut, side, side, nc), PlaneIndex(nc, side))
  {
    var b, at := Box(nOut, side, side, nc), PlaneIndex(nc, side);
    assert side * side > 0;
    forall o, y, x, c | In(b, o, y, x, c)
      ensures 0 <= at(o, y, x, c) < nOut * nc * (side * side)
      ensures First(at(o, y, x, c), nc, side * side) == o && Second(at(o, y, x, c), nc, side * side) == c
      ensures Third(at(o, y, x, c), side * side) / side == y && Third(at(o, y, x, c), side * side) % side == x
    {
      PixelIs(y, x, side);
      Inside(o, c, y * side + x, nOut, nc, side * side);
      Coordinates(o, c, y * side + x, nc, side * side);
    }
  }

  /** The loops leave the repacked tensor. */
  lemma LoopsRepack<T>(data: seq<T>, result: seq<T>, nOut: int, nc: int, side: int)
    requires nc > 0 && side > 0 && |data| == |result| == nOut * nc * (side * side)
    requires Fits(Box(nOut, side, side, nc), PlaneIndex(nc, side), |result|)
    requires Fits(Box(nOut, side, side, nc), PixelIndex(nc, side), |data|)
    requires forall o, y, x, c :: In(Box(nOut, side, side, nc), o, y, x, c) ==>
               result[PlaneIndex(nc, side)(o, y, x, c)] == data[PixelIndex(nc, side)(o, y, x, c)]
    ensures IsRepacked(data, result, nOut, nc, side * side)
  {
    assert side * side > 0;
    forall k | 0 <= k < |result|
      ensures 0 <= SwapLast(k, nc, side * side) < |data| && result[k] == data[SwapLast(k, nc, side * side)]
    {
      SlotIs(data, result, nOut, nc, side, k);
    }
  }

  lemma SlotIs<T>(data: seq<T>, result: seq<T>, nOut: int, nc: int, side: int, k: int)
    requires nc > 0 && side > 0 && side * side > 0 && |data| == |result| == nOut * nc * (side * side)
    requires 0 <= k < |result|
    requires Fits(Box(nOut, side, side, nc), PlaneIndex(nc, side), |result|)
    requires Fits(Box(nOut, side, side, nc), PixelIndex(nc, side), |data|)
    requires forall o, y, x, c :: In(Box(nOut, side, side, nc), o, y, x, c) ==>
               result[PlaneIndex(nc, side)(o, y, x, c)] == data[PixelIndex(nc, side)(o, y, x, c)]
    ensures 0 <= SwapLast(k, nc, side * side) < |data| && result[k] == data[SwapLast(k, nc, side * side)]
  {
    var o, c, p := First(k, nc, side * side), Second(k, nc, side * side), Third(k, side * side);
    Recompose(k, nc, side * side);
    FirstBelow(k, nOut, nc, side * side);
    PixelOf(p, side);
    var y, x := p / side, p % side;
    assert In(Box(nOut, side, side, nc), o, y, x, c);
    assert PlaneIndex(nc, side)(o, y, x, c) == k;
    assert PixelIndex(nc, side)(o, y, x, c) == SwapLast(k, nc, side * side);
  }

  /** Indices that agree at every point of the box serve equally well. */
  lemma SameIndices(b: Box, at: Index, at': Index, n: int)
    requires forall i, j, k, l :: In(b, i, j, k, l) ==> at(i, j, k, l) == at'(i, j, k, l)
    ensures Fits(b, at, n) ==> Fits(b, at', n)
    ensures Injective(b, at) ==> Injective(b, at')
  {
  }

  // ---------------------------------------------------------------- lfm2

  /** Where the lfm2 loops read. */
  function Lfm2Source(nc: int, side: int): Index {
    (o, y, x, c) => o * (nc * side * side) + (y * side + x) * nc + c
  }

  /** Where the lfm2 loops write. */
  function Lfm2Target(nc: int, side: int): Index {
    (o, y, x, c) => o * (nc * side * side) + c * (side * side) + y * side + x
  }

  lemma Lfm2IndicesAre(nc: int, side: int, o: int, y: int, x: int, c: int)
    ensures Lfm2Source(nc, side)(o, y, x, c) == PixelIndex(nc, side)(o, y, x, c)
    ensures Lfm2Target(nc, side)(o, y, x, c) == PlaneIndex(nc, side)(o, y, x, c)
  {
    var p := y * side + x;
    Lfm2Offsets(nc, side, o, p, c);
    assert PixelIndex(nc, side)(o, y, x, c) == At3(o, p, c, side * side, nc);
    assert PlaneIndex(nc, side)(o, y, x, c) == At3(o, c, p, nc, side * side);
  }

  lemma Lfm2Offsets(nc: int, side: int, o: int, p: int, c: int)
    ensures o * (nc * side * side) + p * nc == (o * (side * side) + p) * nc
    ensures o * (nc * side * side) + c * (side * side) == (o * nc + c) * (side * side)
  {
    var q := side * side;
    Associate(nc, side, side);
    Associate(o, nc, q);
    Distribute(o * q, p, nc);
    Distribute(o * nc, c, q);
  }

  lemma Lfm2Usable(nOut: int, nc: int, side: int)
    requires nc > 0 && side > 0
    ensures Fits(Box(nOut, side, side, nc), Lfm2Source(nc, side), nOut * nc * (side * side))
    ensures Fits(Box(nOut, side, side, nc), Lfm2Target(nc, side), nOut * nc * (side * side))
    ensures Injective(Box(nOut, side, side, nc), Lfm2Target(nc, side))
  {
    var b := Box(nOut, side, side, nc);
    PixelIndexFits(nOut, nc, side);
    PlaneIndexUsable(nOut, nc, side);
    ProductsAgree(nOut, nc, side * side);
    forall o, y, x, c
      ensures Lfm2Source(nc, side)(o, y, x, c) == PixelIndex(nc, side)(o, y, x, c)
      ensures Lfm2Target(nc, side)(o, y, x, c) == PlaneIndex(nc, side)(o, y, x, c)
    {
      Lfm2IndicesAre(nc, side, o, y, x, c);
    }
    SameIndices(b, PixelIndex(nc, side), Lfm2Source(nc, side), nOut * nc * (side * side));
    SameIndices(b, PlaneIndex(nc, side), Lfm2Target(nc, side), nOut * nc * (side * side));
  }

  /** The shape and the data of a patch embedding agree with the number of channels and the patch size. */
  predicate GoodPatch(n: nat, shape: seq<nat>, channels: nat, patch: nat) {
    |shape| == 2 && shape[1] == channels * patch * patch && n == shape[0] * shape[1]
  }

  /** `repackPatchEmbeddingWeight`. */
  method RepackPatch<T>(data: seq<T>, zero: T, shape: seq<nat>, channels: nat, patch: nat) returns (r: Outcome<seq<T>>)
    ensures r.Ok? <==> GoodPatch(|data|, shape, channels, patch)
    ensures r.Ok? && channels > 0 && patch > 0 ==> IsRepacked(data, r.value, shape[0], channels, patch * patch)
    ensures r.Ok? && (channels == 0 || patch == 0) ==> r.value == data == []
  {
    if |shape| != 2 || shape[1] != channels * patch * patch || |data| != shape[0] * shape[1] {
      return Failed;
    }
    if channels == 0 || patch == 0 {
      assert shape[1] == 0;
      return Ok([]);
    }
    var value := RepackRows(data, zero, shape[0], channels, patch);
    r := Ok(value);
  }

  method RepackRows<T>(data: seq<T>, zero: T, nOut: nat, nc: nat, side: nat) returns (value: seq<T>)
    requires nc > 0 && side > 0 && |data| == nOut * (nc * side * side)
    ensures IsRepacked(data, value, nOut, nc, side * side)
  {
    assert nOut * (nc * side * side) == nOut * nc * (side * side);
    Lfm2Usable(nOut, nc, side);
    var out := new T[|data|](_ => zero);
    CopyBox(data, out, Box(nOut, side, side, nc), Lfm2Target(nc, side), Lfm2Source(nc, side));
    value := out[..];
    Lfm2Repacks(data, value, nOut, nc, side);
  }

  lemma Lfm2Repacks<T>(data: seq<T>, result: seq<T>, nOut: int, nc: int, side: int)
    requires nc > 0 && side > 0 && |data| == |result| == nOut * nc * (side * side)
    requires Fits(Box(nOut, side, side, nc), Lfm2Source(nc, side), |data|)
    requires Fits(Box(nOut, side, side, nc), Lfm2Target(nc, side), |result|)
    requires forall o, y, x, c :: In(Box(nOut, side, side, nc), o, y, x, c) ==>
               result[Lfm2Target(nc, side)(o, y, x, c)] == data[Lfm2Source(nc, side)(o, y, x, c)]
    ensures IsRepacked(data, result, nOut, nc, side * side)
  {
    PixelIndexFits(nOut, nc, side);
    PlaneIndexUsable(nOut, nc, side);
    ProductsAgree(nOut, nc, side * side);
    forall o, y, x, c | In(Box(nOut, side, side, nc), o, y, x, c)
      ensures result[PlaneIndex(nc, side)(o, y, x, c)] == data[PixelIndex(nc, side)(o, y, x, c)]
    {
      Lfm2IndicesAre(nc, side, o, y, x, c);
      assert result[Lfm2Target(nc, side)(o, y, x, c)] == data[Lfm2Source(nc, side)(o, y, x, c)];
    }
    LoopsRepack(data, result, nOut, nc, side);
  }

  // ---------------------------------------------------------------- gemma4

  /** The integer part of the square root. */
  function ISqrt(n: nat): (r: nat)
    ensures r * r <= n < (r + 1) * (r + 1)
  {
    if n == 0 then 0
    else
      var r := ISqrt(n - 1);
      if (r + 1) * (r + 1) <= n then r + 1 else r
  }

  lemma ISqrtUnique(n: nat, p: nat)
    requires p * p <= n < (p + 1) * (p + 1)
    ensures ISqrt(n) == p
  {
    var r := ISqrt(n);
    if r < p {
      MulMonotone(r + 1, p, r + 1);
      MulMonotone(r + 1, p, p);
    } else if r > p {
      MulMonotone(p + 1, r, p + 1);
      MulMonotone(p + 1, r, r);
    }
  }

  /** The patch size is recovered from a row of three square planes. */
  lemma PatchSizeOf(p: nat)
    ensures ISqrt(3 * p * p / 3) == p
  {
    assert 3 * p * p / 3 == p * p;
    ISqrtUnique(p * p, p);
  }

  /** Where the gemma4 loops read, with rows of `row` elements. */
  function Gemma4Source(row: int, side: int): Index {
    (e, c, h, w) => e * row + h * side * 3 + w * 3 + c
  }

  /** Where the gemma4 loops write. */
  function Gemma4Target(side: int): Index {
    (e, c, h, w) => e * 3 * side * side + c * side * side + h * side + w
  }

  lemma Gemma4IndicesAre(row: int, side: int, e: int, c: int, h: int, w: int)
    ensures Gemma4Source(row, side)(e, c, h, w) == e * row + At3(0, h * side + w, c, side * side, 3)
    ensures row == 3 * side * side ==> Gemma4Source(row, side)(e, c, h, w) == PixelIndex(3, side)(e, h, w, c)
    ensures Gemma4Target(side)(e, c, h, w) == PlaneIndex(3, side)(e, h, w, c)
  {
    Gemma4PixelIs(h, w, side);
    if row == 3 * side * side {
      RowOffset(e, side, h * side + w);
    }
    PlaneOffset(e, c, side);
  }

  lemma Gemma4PixelIs(h: int, w: int, side: int)
    ensures h * side * 3 + w * 3 == (h * side + w) * 3
  {
  }

  lemma RowOffset(e: int, side: int, p: int)
    ensures e * (3 * side * side) + p * 3 == (e * (side * side) + p) * 3
  {
    Associate(3, side, side);
    Associate(e, 3, side * side);
    Distribute(e * (side * side), p, 3);
  }

  lemma PlaneOffset(e: int, c: int, side: int)
    ensures e * 3 * side * side + c * side * side == (e * 3 + c) * (side * side)
  {
    Associate(e * 3, side, side);
    Associate(c, side, side);
    Distribute(e * 3, c, side * side);
  }

  /** One point of the gemma4 loops. */
  lemma Gemma4Point(ne: nat, row: nat, side: nat, e: int, c: int, h: int, w: int)
    requires 3 * side * side <= row && In(Box(ne, 3, side, side), e, c, h, w)
    ensures 0 <= Gemma4Source(row, side)(e, c, h, w) < ne * row
  {
    Gemma4IndicesAre(row, side, e, c, h, w);
    PixelIs(h, w, side);
    Inside(0, h * side + w, c, 1, side * side, 3);
    Associate(3, side, side);
    MulMonotone(e + 1, ne, row);
    Distribute(e, 1, row);
    MulMonotone(0, e, row);
  }

  lemma PlanesFit(ne: nat, row: nat, side: nat)
    requires 3 * side * side <= row
    ensures ne * 3 * (side * side) <= ne * row
  {
    Associate(3, side, side);
    Associate(ne, 3, side * side);
    MulMonotone(3 * side * side, row, ne);
  }

  /** Rows of at least three planes hold what the loops touch. */
  lemma Gemma4Usable(ne: nat, row: nat, side: nat)
    requires 3 * side * side <= row
    ensures Fits(Box(ne, 3, side, side), Gemma4Source(row, side), ne * row)
    ensures Fits(Box(ne, 3, side, side), Gemma4Target(side), ne * row)
    ensures Injective(Box(ne, 3, side, side), Gemma4Target(side))
  {
    var b, at := Box(ne, 3, side, side), Gemma4Target(side);
    if side > 0 {
      PlaneIndexUsable(ne, 3, side);
      PlanesFit(ne, row, side);
      forall e, c, h, w | In(b, e, c, h, w)
        ensures 0 <= Gemma4Source(row, side)(e, c, h, w) < ne * row
        ensures In(Box(ne, side, side, 3), e, h, w, c) && at(e, c, h, w) == PlaneIndex(3, side)(e, h, w, c)
      {
        Gemma4IndicesAre(row, side, e, c, h, w);
        Gemma4Point(ne, row, side, e, c, h, w);
      }
    }
  }

  /**
   * `reshapePatchEmbed`: a tensor that is not a matrix is returned as it is; otherwise pixels become planes and the row
   * length is rewritten.
   */
  method ReshapePatchEmbed<T>(data: seq<T>, zero: T, shape: array<nat>) returns (result: seq<T>)
    requires shape.Length == 2 ==> |data| == shape[0] * shape[1]
    modifies shape
    ensures shape.Length != 2 ==> result == data && shape[..] == old(shape[..])
    ensures shape.Length == 2 ==>
              var p := ISqrt(old(shape[1]) / 3);
              && shape[0] == old(shape[0]) && shape[1] == 3 * p * p
              && IsReshaped(data, result, zero, old(shape[0]), old(shape[1]), p)
  {
    if shape.Length != 2 {
      return data;
    }
    var nEmbd, row := shape[0], shape[1];
    var p := ISqrt(row / 3);
    result := ReshapeRows(data, zero, nEmbd, row, p);
    shape[0] := nEmbd;
    shape[1] := 3 * p * p;
  }

  method ReshapeRows<T>(data: seq<T>, zero: T, ne: nat, row: nat, side: nat) returns (result: seq<T>)
    requires |data| == ne * row && 3 * side * side <= row
    ensures IsReshaped(data, result, zero, ne, row, side)
  {
    Gemma4Usable(ne, row, side);
    var out := new T[|data|](_ => zero);
    CopyBox(data, out, Box(ne, 3, side, side), Gemma4Target(side), Gemma4Source(row, side));
    PlanesOnly(ne, row, side);
    result := out[..];
  }

  /**
   * What the gemma4 loops leave: every element of every plane comes from its pixel, and what follows the planes is
   * zero.
   */
  ghost predicate IsReshaped<T>(data: seq<T>, result: seq<T>, zero: T, ne: int, row: int, side: int) {
    && |result| == |data|
    && Fits(Box(ne, 3, side, side), Gemma4Source(row, side), |data|)
        && Fits(Box(ne, 3, side, side), Gemma4Target(side), |data|)
    && (forall e, c, h, w :: In(Box(ne, 3, side, side), e, c, h, w) ==>
          result[Gemma4Target(side)(e, c, h, w)] == data[Gemma4Source(row, side)(e, c, h, w)])
    && (forall m :: 0 <= m < |result| && ne * 3 * (side * side) <= m ==> result[m] == zero)
  }

  /** The loops write the planes and nothing after them. */
  lemma PlanesOnly(ne: nat, row: nat, side: nat)
    requires 3 * side * side <= row
    ensures Fits(Box(ne, 3, side, side), Gemma4Target(side), ne * 3 * (side * side))
    ensures forall m :: ne * 3 * (side * side) <= m ==> !Hit(Box(ne, 3, side, side), Gemma4Target(side), m)
  {
    if side > 0 {
      PlaneIndexUsable(ne, 3, side);
      forall e, c, h, w | In(Box(ne, 3, side, side), e, c, h, w)
        ensures 0 <= Gemma4Target(side)(e, c, h, w) < ne * 3 * (side * side)
      {
        Gemma4IndicesAre(row, side, e, c, h, w);
        assert In(Box(ne, side, side, 3), e, h, w, c);
      }
    }
  }

  lemma Gemma4Repacks<T>(data: seq<T>, result: seq<T>, zero: T, ne: nat, row: nat, side: nat)
    requires side > 0 && row == 3 * side * side && |data| == ne * 3 * (side * side)
    requires IsReshaped(data, result, zero, ne, row, side)
    ensures IsRepacked(data, result, ne, 3, side * side)
  {
    PixelIndexFits(ne, 3, side);
    PlaneIndexUsable(ne, 3, side);
    ProductsAgree(ne, 3, side * side);
    forall o, y, x, c | In(Box(ne, side, side, 3), o, y, x, c)
      ensures result[PlaneIndex(3, side)(o, y, x, c)] == data[PixelIndex(3, side)(o, y, x, c)]
    {
      Gemma4IndicesAre(row, side, o, c, y, x);
      assert In(Box(ne, 3, side, side), o, c, y, x);
    }
    LoopsRepack(data, result, ne, 3, side);
  }

  /** Two tensors that the gemma4 loops cannot tell apart. */
  ghost predicate Confused<T>(data: seq<T>, data': seq<T>, r: seq<T>, zero: T, ne: nat, row: nat, side: nat) {
    && |data| == |data'| == ne * row && data != data'
    && IsReshaped(data, r, zero, ne, row, side) && IsReshaped(data', r, zero, ne, row, side)
  }

  lemma PlanesAreKept<T>(data: seq<T>, data': seq<T>, r: seq<T>, zero: T, ne: nat, row: nat, side: nat)
    requires row == 3 * side * side && |data| == |data'| == ne * row
    requires IsReshaped(data, r, zero, ne, row, side) && IsReshaped(data', r, zero, ne, row, side)
    ensures data == data'
  {
    PlanesFit(ne, row, side);
    Associate(3, side, side);
    Associate(ne, 3, side * side);
    if side > 0 {
      Gemma4Repacks(data, r, zero, ne, row, side);
      Gemma4Repacks(data', r, zero, ne, row, side);
      RepackedBijective(data, r, ne, 3, side * side);
      RepackedBijective(data', r, ne, 3, side * side);
    }
  }

  /** The first element after the pixels of the first row is read by no loop. */
  lemma NeverRead(ne: nat, row: nat, side: nat, e: int, c: int, h: int, w: int)
    requires 3 * side * side < row && In(Box(ne, 3, side, side), e, c, h, w)
    ensures Gemma4Source(row, side)(e, c, h, w) != 3 * side * side
  {
    Gemma4IndicesAre(row, side, e, c, h, w);
    PixelIs(h, w, side);
    Inside(0, h * side + w, c, 1, side * side, 3);
    Associate(3, side, side);
    if e > 0 {
      MulMonotone(1, e, row);
    }
  }

  lemma RemainderIsLost<T(!new)>(zero: T, x: T, y: T, ne: nat, row: nat, side: nat)
    requires x != y && ne > 0 && 3 * side * side < row
    ensures exists data: seq<T>, data': seq<T>, r: seq<T> :: Confused(data, data', r, zero, ne, row, side)
  {
    var n, planes, lost := ne * row, ne * 3 * (side * side), 3 * side * side;
    MulMonotone(1, ne, row);
    assert 0 <= lost < n;
    PlanesFit(ne, row, side);
    PlanesOnly(ne, row, side);
    Gemma4Usable(ne, row, side);
    var data := seq(n, _ => x);
    var data' := data[lost := y];
    var r := seq(n, k => if k < planes then x else zero);
    forall e, c, h, w | In(Box(ne, 3, side, side), e, c, h, w)
      ensures data'[Gemma4Source(row, side)(e, c, h, w)] == x
    {
      NeverRead(ne, row, side, e, c, h, w);
    }
    assert data[lost] != data'[lost];
    assert Confused(data, data', r, zero, ne, row, side);
  }

  /** The gemma4 repacker loses nothing if and only if there is no row, or the rows are three square planes. */
  lemma Gemma4LosslessIff<T(!new)>(zero: T, x: T, y: T, ne: nat, row: nat)
    requires x != y
    ensures var p := ISqrt(row / 3);
            ne == 0 || row == 3 * p * p <==>
            !exists data: seq<T>, data': seq<T>, r: seq<T> :: Confused(data, data', r, zero, ne, row, p)
  {
    var p := ISqrt(row / 3);
    assert 3 * p * p <= row by { Associate(3, p, p); }
    if ne == 0 || row == 3 * p * p {
      forall data: seq<T>, data': seq<T>, r: seq<T>
        ensures !Confused(data, data', r, zero, ne, row, p)
      {
        if Confused(data, data', r, zero, ne, row, p) && row == 3 * p * p {
          PlanesAreKept(data, data', r, zero, ne, row, p);
        }
      }
    } else {
      RemainderIsLost(zero, x, y, ne, row, p);
    }
  }

  lemma RepackedUnique<T>(data: seq<T>, result: seq<T>, other: seq<T>, nOut: int, nc: int, pixels: int)
    requires IsRepacked(data, result, nOut, nc, pixels) && IsRepacked(data, other, nOut, nc, pixels)
    ensures result == other
  {
  }

  /** For rows of three square planes, the gemma4 loops and the lfm2 loops compute the same function. */
  lemma Gemma4IsLfm2<T>(data: seq<T>, result: seq<T>, zero: T, other: seq<T>, ne: nat, side: nat)
    requires side > 0 && |data| == ne * (3 * side * side)
    requires IsReshaped(data, result, zero, ne, 3 * side * side, ISqrt(3 * side * side / 3))
    requires IsRepacked(data, other, ne, 3, side * side)
    ensures result == other
  {
    PatchSizeOf(side);
    Gemma4Repacks(data, result, zero, ne, 3 * side * side, side);
    RepackedUnique(data, result, other, ne, 3, side * side);
  }

  // ---------------------------------------------------------------- temporal slices

  /** The source index of element `k` of a temporal slice: images of `nh x nw`, two to a kernel. */
  function SliceSource(k: int, slice: int, nh: int, nw: int): int
    requires nh > 0 && nw > 0
  {
    At3(First(k, nh, nw) * 2 + slice, Second(k, nh, nw), Third(k, nw), nh, nw)
  }

  ghost predicate IsSlice<T>(data: seq<T>, out: seq<T>, slice: int, kernels: int, nh: int, nw: int) {
    && |out| == kernels * nh * nw
    && (nh > 0 && nw > 0 ==> forall k :: 0 <= k < |out| ==>
        0 <= SliceSource(k, slice, nh, nw) < |data| && out[k] == data[SliceSource(k, slice, nh, nw)])
  }

  function FrameSource(nic: int, slice: int, nh: int, nw: int): Index {
    (oc, ic, y, x) => At3((oc * nic + ic) * 2 + slice, y, x, nh, nw)
  }

  function FrameTarget(nic: int, nh: int, nw: int): Index {
    (oc, ic, y, x) => At3(oc * nic + ic, y, x, nh, nw)
  }

  lemma FramesUsable(noc: nat, nic: nat, slice: int, nh: nat, nw: nat)
    requires 0 <= slice < 2
    ensures Fits(Box(noc, nic, nh, nw), FrameSource(nic, slice, nh, nw), noc * nic * 2 * nh * nw)
    ensures Fits(Box(noc, nic, nh, nw), FrameTarget(nic, nh, nw), noc * nic * nh * nw)
    ensures Injective(Box(noc, nic, nh, nw), FrameTarget(nic, nh, nw))
  {
    var b, at := Box(noc, nic, nh, nw), FrameTarget(nic, nh, nw);
    forall oc, ic, y, x | In(b, oc, ic, y, x)
      ensures 0 <= FrameSource(nic, slice, nh, nw)(oc, ic, y, x) < noc * nic * 2 * nh * nw
      ensures 0 <= at(oc, ic, y, x) < noc * nic * nh * nw
      ensures First(at(oc, ic, y, x), nh, nw) / nic == oc && First(at(oc, ic, y, x), nh, nw) % nic == ic
      ensures Second(at(oc, ic, y, x), nh, nw) == y && Third(at(oc, ic, y, x), nw) == x
    {
      var n := oc * nic + ic;
      KernelIs(oc, ic, noc, nic);
      Inside(n, y, x, noc * nic, nh, nw);
      Inside(n * 2 + slice, y, x, noc * nic * 2, nh, nw);
      Coordinates(n, y, x, nh, nw);
    }
  }

  lemma KernelIs(oc: int, ic: int, noc: int, nic: int)
    requires 0 <= oc < noc && 0 <= ic < nic
    ensures 0 <= oc * nic + ic < noc * nic && (oc * nic + ic) / nic == oc && (oc * nic + ic) % nic == ic
  {
    DivMod(oc, ic, nic);
    MulMonotone(0, oc, nic);
    MulMonotone(oc + 1, noc, nic);
    Distribute(oc, 1, nic);
  }

  lemma FramesAreSlice<T>(data: seq<T>, out: seq<T>, noc: nat, nic: nat, slice: int, nh: nat, nw: nat)
    requires |out| == noc * nic * nh * nw && 0 <= slice < 2
    requires Fits(Box(noc, nic, nh, nw), FrameSource(nic, slice, nh, nw), |data|)
    requires Fits(Box(noc, nic, nh, nw), FrameTarget(nic, nh, nw), |out|)
    requires forall oc, ic, y, x :: In(Box(noc, nic, nh, nw), oc, ic, y, x) ==>
               out[FrameTarget(nic, nh, nw)(oc, ic, y, x)] == data[FrameSource(nic, slice, nh, nw)(oc, ic, y, x)]
    ensures IsSlice(data, out, slice, noc * nic, nh, nw)
  {
    if nh > 0 && nw > 0 {
      forall k | 0 <= k < |out|
        ensures 0 <= SliceSource(k, slice, nh, nw) < |data| && out[k] == data[SliceSource(k, slice, nh, nw)]
      {
        var n, y, x := First(k, nh, nw), Second(k, nh, nw), Third(k, nw);
        Recompose(k, nh, nw);
        FirstBelow(k, noc * nic, nh, nw);
        KernelOf(n, noc, nic);
        assert In(Box(noc, nic, nh, nw), n / nic, n % nic, y, x);
        assert FrameTarget(nic, nh, nw)(n / nic, n % nic, y, x) == k;
        assert FrameSource(nic, slice, nh, nw)(n / nic, n % nic, y, x) == SliceSource(k, slice, nh, nw);
      }
    }
  }

  lemma KernelOf(n: int, noc: nat, nic: nat)
    requires 0 <= n < noc * nic
    ensures nic > 0 && 0 <= n / nic < noc && 0 <= n % nic < nic && (n / nic) * nic + n % nic == n
  {
    assert nic > 0;
    var q := n / nic;
    assert n == q * nic + n % nic;
    if q >= noc {
      MulMonotone(noc, q, nic);
    }
  }

  predicate GoodFrames(n: nat, shape: seq<nat>, slice: int) {
    |shape| == 5 && shape[2] == 2 && 0 <= slice < 2 && n == shape[0] * shape[1] * 2 * shape[3] * shape[4]
  }

  /** `qwen35PatchEmbedSlice`: one of the two frames of every kernel. */
  method PatchEmbedSlice<T>(data: seq<T>, zero: T, shape: seq<nat>, slice: int) returns (r: Outcome<seq<T>>)
    ensures r.Ok? <==> GoodFrames(|data|, shape, slice)
    ensures r.Ok? ==> IsSlice(data, r.value, slice, shape[0] * shape[1], shape[3], shape[4])
  {
    if |shape| != 5 || shape[2] != 2 {
      return Failed;
    }
    var noc, nic, nh, nw := shape[0], shape[1], shape[3], shape[4];
    if slice < 0 || slice >= shape[2] || |data| != noc * nic * 2 * nh * nw {
      return Failed;
    }
    FramesUsable(noc, nic, slice, nh, nw);
    assert noc * nic * nh * nw >= 0;
    var out := new T[noc * nic * nh * nw](_ => zero);
    CopyBox(data, out, Box(noc, nic, nh, nw), FrameTarget(nic, nh, nw), FrameSource(nic, slice, nh, nw));
    FramesAreSlice(data, out[..], noc, nic, slice, nh, nw);
    r := Ok(out[..]);
  }

  /** The frame to which source index `j` belongs, and its place there. */
  function FrameOf(j: int, nh: int, nw: int): int
    requires nh > 0 && nw > 0
  {
    First(j, nh, nw) % 2
  }

  function PlaceOf(j: int, nh: int, nw: int): int
    requires nh > 0 && nw > 0
  {
    At3(First(j, nh, nw) / 2, Second(j, nh, nw), Third(j, nw), nh, nw)
  }

  lemma SliceSourceIs(k: int, slice: int, nh: int, nw: int)
    requires nh > 0 && nw > 0 && 0 <= slice < 2
    ensures FrameOf(SliceSource(k, slice, nh, nw), nh, nw) == slice
    ensures PlaceOf(SliceSource(k, slice, nh, nw), nh, nw) == k
  {
    Recompose(k, nh, nw);
    Coordinates(First(k, nh, nw) * 2 + slice, Second(k, nh, nw), Third(k, nw), nh, nw);
  }

  lemma PlaceOfIs(j: int, kernels: int, nh: int, nw: int)
    requires nh > 0 && nw > 0 && 0 <= j < kernels * 2 * nh * nw
    ensures 0 <= PlaceOf(j, nh, nw) < kernels * nh * nw
    ensures SliceSource(PlaceOf(j, nh, nw), FrameOf(j, nh, nw), nh, nw) == j
  {
    Recompose(j, nh, nw);
    FirstBelow(j, kernels * 2, nh, nw);
    Inside(First(j, nh, nw) / 2, Second(j, nh, nw), Third(j, nw), kernels, nh, nw);
    Coordinates(First(j, nh, nw) / 2, Second(j, nh, nw), Third(j, nw), nh, nw);
  }

  /** The two slices partition the source: each element is at exactly one place of exactly one slice. */
  lemma SlicesPartition<T>(data: seq<T>, slices: seq<seq<T>>, kernels: nat, nh: nat, nw: nat, j: nat)
    requires |slices| == 2 && IsSlice(data, slices[0], 0, kernels, nh, nw)
    requires IsSlice(data, slices[1], 1, kernels, nh, nw)
    requires |data| == kernels * 2 * nh * nw && j < |data|
    ensures nh > 0 && nw > 0 && 0 <= FrameOf(j, nh, nw) < 2 && 0 <= PlaceOf(j, nh, nw) < |slices[FrameOf(j, nh, nw)]|
    ensures slices[FrameOf(j, nh, nw)][PlaceOf(j, nh, nw)] == data[j]
    ensures forall t, k :: 0 <= t < 2 && 0 <= k < |slices[t]| ==>
              (SliceSource(k, t, nh, nw) == j <==> t == FrameOf(j, nh, nw) && k == PlaceOf(j, nh, nw))
  {
    assert nh > 0 && nw > 0;
    PlaceOfIs(j, kernels, nh, nw);
    forall t, k | 0 <= t < 2 && 0 <= k < |slices[t]|
      ensures SliceSource(k, t, nh, nw) == j <==> t == FrameOf(j, nh, nw) && k == PlaceOf(j, nh, nw)
    {
      SliceSourceIs(k, t, nh, nw);
    }
  }

  // ---------------------------------------------------------------- element by element

  /** Channel `c` of pixel `(y, x)` goes to place `(y, x)` of plane `c`. */
  lemma PlanesFromPixels<T>(data: seq<T>, result: seq<T>, nOut: int, nc: int, side: int, o: nat, y: nat, x: nat, c: nat)
    requires IsRepacked(data, result, nOut, nc, side * side) && o < nOut && y < side && x < side && c < nc
    ensures var to := o * (nc * side * side) + c * (side * side) + y * side + x;
            var from := o * (nc * side * side) + (y * side + x) * nc + c;
            0 <= to < |result| && 0 <= from < |data| && result[to] == data[from]
  {
    var p := y * side + x;
    PixelIs(y, x, side);
    Lfm2IndicesAre(nc, side, o, y, x, c);
    Inside(o, c, p, nOut, nc, side * side);
    Coordinates(o, c, p, nc, side * side);
    assert SwapLast(At3(o, c, p, nc, side * side), nc, side * side) == At3(o, p, c, side * side, nc);
  }

  /** The same for the gemma4 repacker, with rows of any length. */
  lemma ReshapedElement<T>(data: seq<T>, result: seq<T>, zero: T, ne: int, row: int, side: int, e: nat, c: nat, h: nat,
                           w: nat)
    requires IsReshaped(data, result, zero, ne, row, side) && e < ne && c < 3 && h < side && w < side
    ensures var to := e * 3 * side * side + c * side * side + h * side + w;
            var from := e * row + h * side * 3 + w * 3 + c;
            0 <= to < |result| && 0 <= from < |data| && result[to] == data[from]
  {
    assert In(Box(ne, 3, side, side), e, c, h, w);
    assert Gemma4Target(side)(e, c, h, w) == e * 3 * side * side + c * side * side + h * side + w;
    assert Gemma4Source(row, side)(e, c, h, w) == e * row + h * side * 3 + w * 3 + c;
  }

  /** Frame `slice` of each kernel, row by row. */
  lemma SliceElement<T>(data: seq<T>, out: seq<T>, slice: int, noc: nat, nic: nat, nh: nat, nw: nat, oc: nat, ic: nat,
                        y: nat, x: nat)
    requires IsSlice(data, out, slice, noc * nic, nh, nw) && oc < noc && ic < nic && y < nh && x < nw
    ensures var to, from := ((oc * nic + ic) * nh + y) * nw + x, (((oc * nic + ic) * 2 + slice) * nh + y) * nw + x;
            0 <= to < |out| && 0 <= from < |data| && out[to] == data[from]
  {
    var n := oc * nic + ic;
    KernelIs(oc, ic, noc, nic);
    Inside(n, y, x, noc * nic, nh, nw);
    Coordinates(n, y, x, nh, nw);
    assert SliceSource(At3(n, y, x, nh, nw), slice, nh, nw) == At3(n * 2 + slice, y, x, nh, nw);
  }
}

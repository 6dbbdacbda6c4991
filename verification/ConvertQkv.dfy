/** Value channels of the linear-attention projections, moved in either orientation of the matrix. */
module ConvertQkv {
  import opened Arithmetic
  import opened ConvertIndex
  import opened ConvertMatrix
  import opened ConvertHeads

  /** The head counts and dimensions of a linear-attention layer. */
  datatype Heads = Heads(numK: nat, numV: nat, headK: nat, headV: nat)

  /** Query and key channels, which come first. */
  function QkChannels(c: Heads): nat {
    c.headK * c.numK + c.headK * c.numK
  }

  function VChannels(c: Heads): nat {
    c.headV * c.numV
  }

  function Channels(c: Heads): nat {
    QkChannels(c) + VChannels(c)
  }

  /** The value heads are shared out evenly over the key heads. */
  predicate Even(c: Heads) {
    c.numK > 0 && c.numV > 0 && c.headV > 0 && c.numV % c.numK == 0
  }

  /** The source of value channel `i`. */
  function VSource(c: Heads, i: int): int {
    if Even(c) then HeadSource(i, c.numK, PerKey(c), c.headV) else i
  }

  function PerKey(c: Heads): (n: nat)
    requires Even(c)
    ensures n > 0 && c.numK * n == c.numV && c.numK * n * c.headV == VChannels(c)
  {
    QuotientIs(c.numV, c.numK);
    c.numV / c.numK
  }

  function VTarget(c: Heads, i: int): int {
    if Even(c) then HeadSource(i, PerKey(c), c.numK, c.headV) else i
  }

  /** The channel from which channel `ch` comes. */
  function Moves(c: Heads): int -> int {
    ch => if ch < QkChannels(c) then ch else QkChannels(c) + VSource(c, ch - QkChannels(c))
  }

  function MovesBack(c: Heads): int -> int {
    ch => if ch < QkChannels(c) then ch else QkChannels(c) + VTarget(c, ch - QkChannels(c))
  }

  function Stay(): int -> int {
    i => i
  }

  lemma VSourceIs(c: Heads, i: nat)
    requires i < VChannels(c)
    ensures 0 <= VSource(c, i) < VChannels(c) && VTarget(c, VSource(c, i)) == i
    ensures 0 <= VTarget(c, i) < VChannels(c) && VSource(c, VTarget(c, i)) == i
  {
    if Even(c) {
      var ng, nv := c.numK, PerKey(c);
      assert 1 * ng * nv == ng * nv && 1 * nv * ng == ng * nv;
      HeadSourceIs(i, 1, ng, nv, c.headV);
      HeadSourceIs(i, 1, nv, ng, c.headV);
    }
  }

  /** The channel permutation: it has an inverse, and it fixes every query and key channel. */
  lemma MovesIsPermutation(c: Heads)
    ensures Inverse(Moves(c), MovesBack(c), Channels(c)) && Within(Moves(c), Channels(c))
    ensures forall ch :: 0 <= ch < QkChannels(c) ==> Moves(c)(ch) == ch
  {
    var qk := QkChannels(c);
    forall ch | 0 <= ch < Channels(c)
      ensures 0 <= Moves(c)(ch) < Channels(c) && MovesBack(c)(Moves(c)(ch)) == ch
      ensures 0 <= MovesBack(c)(ch) < Channels(c) && Moves(c)(MovesBack(c)(ch)) == ch
    {
      if ch >= qk {
        VSourceIs(c, ch - qk);
      }
    }
  }

  /** The value channel of dimension `h` of value head `v` of key head `g` moves from the grouped to the tiled place. */
  lemma MovesHeads(c: Heads, g: nat, v: nat, h: nat)
    requires Even(c) && g < c.numK && v < PerKey(c) && h < c.headV
    ensures Moves(c)(QkChannels(c) + ((v * c.numK + g) * c.headV + h))
              == QkChannels(c) + ((g * PerKey(c) + v) * c.headV + h)
  {
    GroupedToTiled(0, g, v, h, c.numK, PerKey(c), c.headV);
    MulMonotone(0, v, c.numK);
    MulMonotone(0, v * c.numK + g, c.headV);
    var i := (v * c.numK + g) * c.headV + h;
    assert Moves(c)(QkChannels(c) + i) == QkChannels(c) + VSource(c, i);
  }

  // ---------------------------------------------------------------- the value block

  lemma Products(a: nat, b: nat)
    ensures Product([a]) == a && Product([a, b]) == a * b
  {
    assert [a, b][1..] == [b];
    assert [a][1..] == [];
    assert Product([]) == 1;
    assert Product([b]) == b * 1 by { assert [b][1..] == []; }
  }

  /** An element of a row of a head has its source in the same place of the source row. */
  lemma HeadSourceOfRow(i: nat, j: nat, ng: nat, nv: nat, headDim: nat, cols: nat)
    requires ng > 0 && nv > 0 && headDim > 0 && j < cols
    ensures headDim * cols > 0
    ensures HeadSource(Cell(i, j, cols), ng, nv, headDim * cols) == Cell(HeadSource(i, ng, nv, headDim), j, cols)
  {
    var q, h := i / headDim, i % headDim;
    QuotientIs(i, headDim);
    CellIn(h, j, headDim, cols);
    BlockIs(q, h, j, headDim, cols);
    DivMod(q, Cell(h, j, cols), headDim * cols);
    BlockIs(SwapLast(q, nv, ng), h, j, headDim, cols);
  }

  /** What the code calls with `numV / numK` heads to a key head. */
  function ReorderRows<T>(data: seq<T>, cols: nat, c: Heads): (r: seq<T>)
    requires c.numK > 0 && |data| == VChannels(c) * cols
    ensures |r| == |data|
  {
    Products(VChannels(c), cols);
    ReorderHeadLayout(data, [VChannels(c), cols], 0, c.numK, c.numV / c.numK, c.headV)
  }

  function ReorderVector<T>(data: seq<T>, c: Heads): (r: seq<T>)
    requires c.numK > 0 && |data| == VChannels(c)
    ensures |r| == |data|
  {
    Products(VChannels(c), 0);
    ReorderHeadLayout(data, [VChannels(c)], 0, c.numK, c.numV / c.numK, c.headV)
  }

  /** The layout is reordered exactly when the value heads are shared out evenly. */
  lemma HasHeadsIff(c: Heads, shape: seq<nat>)
    requires c.numK > 0 && |shape| > 0 && shape[0] == VChannels(c)
    ensures HasHeads(shape, 0, c.numK, c.numV / c.numK, c.headV) <==> Even(c)
  {
    var n := c.numV / c.numK;
    QuotientIs(c.numV, c.numK);
    if Even(c) {
      assert n == PerKey(c);
    } else if c.headV > 0 && c.numV > 0 {
      assert c.numK * n < c.numV;
      MulMonotone(c.numK * n + 1, c.numV, c.headV);
      Distribute(c.numK * n, 1, c.headV);
    }
  }

  /** Each row of the value block comes from the row `VSource` names. */
  lemma ReorderedRow<T>(data: seq<T>, cols: nat, c: Heads, i: nat, j: nat)
    requires c.numK > 0 && |data| == VChannels(c) * cols && i < VChannels(c) && j < cols
    ensures 0 <= Cell(i, j, cols) < |data| && 0 <= Cell(VSource(c, i), j, cols) < |data|
    ensures ReorderRows(data, cols, c)[Cell(i, j, cols)] == data[Cell(VSource(c, i), j, cols)]
  {
    var shape := [VChannels(c), cols];
    Products(VChannels(c), cols);
    HasHeadsIff(c, shape);
    VSourceIs(c, i);
    CellIn(i, j, VChannels(c), cols);
    CellIn(VSource(c, i), j, VChannels(c), cols);
    if Even(c) {
      HeadSourceOfRow(i, j, c.numK, PerKey(c), c.headV, cols);
      assert shape[1..] == [cols];
      Products(cols, 0);
    }
  }

  lemma ReorderedVector<T>(data: seq<T>, c: Heads, i: nat)
    requires c.numK > 0 && |data| == VChannels(c) && i < VChannels(c)
    ensures 0 <= VSource(c, i) < |data| && ReorderVector(data, c)[i] == data[VSource(c, i)]
  {
    var shape := [VChannels(c)];
    Products(VChannels(c), 0);
    HasHeadsIff(c, shape);
    VSourceIs(c, i);
    if Even(c) {
      assert shape[1..] == [];
    }
  }

  // ---------------------------------------------------------------- the two orientations

  /** Rows are channels: the query and key rows are copied, the value rows reordered. */
  method MoveRows<T>(data: seq<T>, cols: nat, c: Heads) returns (out: seq<T>)
    requires c.numK > 0 && |data| == Channels(c) * cols
    ensures Moved(data, out, Channels(c), cols, Moves(c), Stay())
  {
    var qkSize := QkChannels(c) * cols;
    Distribute(QkChannels(c), VChannels(c), cols);
    var vEnd := qkSize + VChannels(c) * cols;
    var reordered := ReorderRows(data[qkSize..vEnd], cols, c);
    out := data[..qkSize] + reordered + data[vEnd..];
    assert data[qkSize..vEnd] == data[qkSize..] && data[vEnd..] == [];
    RowsMoved(data, out, cols, c, qkSize);
  }

  lemma RowsMoved<T>(data: seq<T>, out: seq<T>, cols: nat, c: Heads, qkSize: nat)
    requires c.numK > 0 && |data| == Channels(c) * cols
    requires qkSize == QkChannels(c) * cols <= |data| && |data| - qkSize == VChannels(c) * cols
    requires out == data[..qkSize] + ReorderRows(data[qkSize..], cols, c)
    ensures Moved(data, out, Channels(c), cols, Moves(c), Stay())
  {
    forall i, j | 0 <= i < Channels(c) && 0 <= j < cols
      ensures 0 <= Cell(i, j, cols) < |out| && 0 <= Cell(Moves(c)(i), Stay()(j), cols) < |data|
      ensures out[Cell(i, j, cols)] == data[Cell(Moves(c)(i), Stay()(j), cols)]
    {
      RowMoved(data, out, cols, c, i, j);
    }
  }

  lemma RowMoved<T>(data: seq<T>, out: seq<T>, cols: nat, c: Heads, i: nat, j: nat)
    requires c.numK > 0 && |data| == |out| == Channels(c) * cols && i < Channels(c) && j < cols
    requires 0 <= QkChannels(c) * cols <= |data| && |data| - QkChannels(c) * cols == VChannels(c) * cols
    requires out == data[..QkChannels(c) * cols] + ReorderRows(data[QkChannels(c) * cols..], cols, c)
    ensures 0 <= Cell(i, j, cols) < |out| && 0 <= Cell(Moves(c)(i), Stay()(j), cols) < |data|
    ensures out[Cell(i, j, cols)] == data[Cell(Moves(c)(i), Stay()(j), cols)]
  {
    var qk := QkChannels(c);
    CellIn(i, j, Channels(c), cols);
    if i < qk {
      CellIn(i, j, qk, cols);
    } else {
      ReorderedRow(data[qk * cols..], cols, c, i - qk, j);
      Distribute(qk, i - qk, cols);
      Distribute(qk, VSource(c, i - qk), cols);
    }
  }

  /** The column that entry `(i, j)` has its value from once the first `done` rows are reordered. */
  function ColumnSource(c: Heads, done: int, i: int, j: int): int {
    if i < done then Moves(c)(j) else j
  }

  ghost predicate EntryFrom<T>(data: seq<T>, out: seq<T>, i: int, j: int, from: int, n: int) {
    0 <= Cell(i, j, n) < |out| && 0 <= Cell(i, from, n) < |data| && out[Cell(i, j, n)] == data[Cell(i, from, n)]
  }

  ghost predicate FirstRowsMoved<T>(data: seq<T>, out: seq<T>, rows: nat, c: Heads, done: int) {
    && |data| == |out| == rows * Channels(c)
    && forall i, j :: 0 <= i < rows && 0 <= j < Channels(c) ==>
        EntryFrom(data, out, i, j, ColumnSource(c, done, i, j), Channels(c))
  }

  lemma NoRowsMoved<T>(data: seq<T>, rows: nat, c: Heads)
    requires |data| == rows * Channels(c)
    ensures FirstRowsMoved(data, data, rows, c, 0)
  {
    forall i, j | 0 <= i < rows && 0 <= j < Channels(c)
      ensures EntryFrom(data, data, i, j, ColumnSource(c, 0, i, j), Channels(c))
    {
      CellIn(i, j, rows, Channels(c));
    }
  }

  /** Row `r` of the matrix, whose value channels end the row. */
  lemma RowBounds(rows: nat, c: Heads, r: nat)
    requires r < rows
    ensures 0 <= r * Channels(c) && (r + 1) * Channels(c) == r * Channels(c) + Channels(c) <= rows * Channels(c)
  {
    Distribute(r, 1, Channels(c));
    MulMonotone(r + 1, rows, Channels(c));
    MulMonotone(0, r, Channels(c));
  }

  /** Columns are channels: the value part of each row is reordered in place. */
  method MoveColumns<T>(data: seq<T>, rows: nat, c: Heads) returns (out: seq<T>)
    requires rows > 0 ==> c.numK > 0
    requires |data| == rows * Channels(c)
    ensures Moved(data, out, rows, Channels(c), Stay(), Moves(c))
  {
    out := data;
    NoRowsMoved(data, rows, c);
    for r := 0 to rows
      invariant FirstRowsMoved(data, out, rows, c, r)
    {
      RowBounds(rows, c, r);
      var vStart := r * Channels(c) + QkChannels(c);
      var vEnd := vStart + VChannels(c);
      var reordered := ReorderVector(out[vStart..vEnd], c);
      var next := out[..vStart] + reordered + out[vEnd..];
      NextRowMoved(data, out, next, rows, c, r, r + 1, vStart);
      out := next;
    }
    AllRowsMoved(data, out, rows, c);
  }

  lemma AllRowsMoved<T>(data: seq<T>, out: seq<T>, rows: nat, c: Heads)
    requires FirstRowsMoved(data, out, rows, c, rows)
    ensures Moved(data, out, rows, Channels(c), Stay(), Moves(c))
  {
    forall i, j | 0 <= i < rows && 0 <= j < Channels(c)
      ensures 0 <= Cell(i, j, Channels(c)) < |out| && 0 <= Cell(Stay()(i), Moves(c)(j), Channels(c)) < |data|
      ensures out[Cell(i, j, Channels(c))] == data[Cell(Stay()(i), Moves(c)(j), Channels(c))]
    {
      EntryMoved(data, out, rows, c, i, j);
    }
  }

  lemma EntryMoved<T>(data: seq<T>, out: seq<T>, rows: nat, c: Heads, i: nat, j: nat)
    requires FirstRowsMoved(data, out, rows, c, rows) && i < rows && j < Channels(c)
    ensures EntryFrom(data, out, i, j, Moves(c)(j), Channels(c)) && Stay()(i) == i
  {
    assert EntryFrom(data, out, i, j, ColumnSource(c, rows, i, j), Channels(c));
  }

  lemma NextRowMoved<T>(data: seq<T>, out: seq<T>, next: seq<T>, rows: nat, c: Heads, r: nat, done: nat, vStart: nat)
    requires c.numK > 0 && r < rows && done == r + 1 && FirstRowsMoved(data, out, rows, c, r)
    requires vStart == r * Channels(c) + QkChannels(c) && vStart + VChannels(c) <= |out|
    requires next == out[..vStart] + ReorderVector(out[vStart..vStart + VChannels(c)], c) + out[vStart + VChannels(c)..]
    ensures FirstRowsMoved(data, next, rows, c, done)
  {
    forall i, j | 0 <= i < rows && 0 <= j < Channels(c)
      ensures EntryFrom(data, next, i, j, ColumnSource(c, done, i, j), Channels(c))
    {
      assert EntryFrom(data, out, i, j, ColumnSource(c, r, i, j), Channels(c));
      if i == r {
        RowEntry(data, out, next, rows, c, r, vStart, j);
      } else {
        OtherRow(i, j, rows, c, r);
      }
    }
  }

  lemma OtherRow(i: nat, j: nat, rows: nat, c: Heads, r: nat)
    requires i < rows && j < Channels(c) && i != r
    ensures Cell(i, j, Channels(c)) < r * Channels(c) || Cell(i, j, Channels(c)) >= r * Channels(c) + Channels(c)
  {
    var n := Channels(c);
    if i < r {
      CellIn(i, j, r, n);
    } else {
      MulMonotone(r + 1, i, n);
      Distribute(r, 1, n);
    }
  }

  lemma RowEntry<T>(data: seq<T>, out: seq<T>, next: seq<T>, rows: nat, c: Heads, r: nat, vStart: nat, j: nat)
    requires c.numK > 0 && r < rows && FirstRowsMoved(data, out, rows, c, r) && j < Channels(c)
    requires vStart == r * Channels(c) + QkChannels(c) && vStart + VChannels(c) <= |out|
    requires next == out[..vStart] + ReorderVector(out[vStart..vStart + VChannels(c)], c) + out[vStart + VChannels(c)..]
    ensures EntryFrom(data, next, r, j, Moves(c)(j), Channels(c))
  {
    var qk, n := QkChannels(c), Channels(c);
    CellIn(r, j, rows, n);
    assert EntryFrom(data, out, r, j, ColumnSource(c, r, r, j), n);
    if j >= qk {
      ReorderedVector(out[vStart..vStart + VChannels(c)], c, j - qk);
      var m := Moves(c)(j);
      assert 0 <= m < n;
      assert EntryFrom(data, out, r, m, ColumnSource(c, r, r, m), n);
    }
  }

  // ---------------------------------------------------------------- the repackers

  /** What both repackers do to a matrix: rows are tried first, then columns. */
  ghost predicate IsRepacked<T>(data: seq<T>, r: seq<T>, rows: nat, cols: nat, c: Heads) {
    if rows == Channels(c) then Moved(data, r, rows, cols, Moves(c), Stay())
    else if cols == Channels(c) then Moved(data, r, rows, cols, Stay(), Moves(c))
    else r == data
  }

  /** The code divides by the number of key heads. */
  predicate Divides(rows: nat, cols: nat, c: Heads) {
    rows == Channels(c) || (cols == Channels(c) && rows > 0)
  }

  /** `repackAttnQKV`. */
  method RepackAttnQKV<T>(data: seq<T>, reorder: bool, shape: seq<nat>, c: Heads) returns (r: seq<T>)
    requires |shape| == 2 ==> |data| == shape[0] * shape[1]
    requires reorder && |shape| == 2 && Divides(shape[0], shape[1], c) ==> c.numK > 0
    ensures !reorder || |shape| != 2 ==> r == data
    ensures reorder && |shape| == 2 ==> IsRepacked(data, r, shape[0], shape[1], c)
  {
    if !reorder || |shape| != 2 {
      return data;
    }
    var rows, cols := shape[0], shape[1];
    if rows == Channels(c) {
      r := MoveRows(data, cols, c);
    } else if cols == Channels(c) {
      r := MoveColumns(data, rows, c);
    } else {
      r := data;
    }
  }

  /** The shape without a leading or middle dimension of one. */
  function Squeezed(shape: seq<nat>): seq<nat> {
    if |shape| == 3 && shape[0] == 1 then [shape[1], shape[2]]
    else if |shape| == 3 && shape[1] == 1 then [shape[0], shape[2]]
    else shape
  }

  /** A leading dimension of one goes, or else a middle one; all other shapes stay. */
  lemma SqueezedIs(shape: seq<nat>, a: nat, b: nat)
    ensures Squeezed([1, a, b]) == [a, b] && (a != 1 ==> Squeezed([a, 1, b]) == [a, b])
    ensures |shape| != 3 || (shape[0] != 1 && shape[1] != 1) ==> Squeezed(shape) == shape
  {
  }

  /** Squeezing keeps the number of elements. */
  lemma SqueezedProduct(shape: seq<nat>)
    ensures Product(Squeezed(shape)) == Product(shape)
  {
    if |shape| == 3 {
      assert shape == [shape[0]] + shape[1..];
      assert shape[1..] == [shape[1], shape[2]];
      Products(shape[1], shape[2]);
      Products(shape[0], shape[2]);
    }
  }

  lemma MatrixProduct(shape: seq<nat>)
    requires |shape| == 2
    ensures Product(shape) == shape[0] * shape[1]
  {
    assert shape == [shape[0], shape[1]];
    Products(shape[0], shape[1]);
  }

  /** `repackConv1D`. */
  method RepackConv1D<T>(data: seq<T>, reorder: bool, shape: seq<nat>, c: Heads) returns (r: seq<T>)
    requires |data| == Product(shape)
    ensures !reorder || |Squeezed(shape)| != 2 || QkChannels(c) == 0 ==> r == data
    ensures reorder && |Squeezed(shape)| == 2 && QkChannels(c) > 0 ==>
              IsRepacked(data, r, Squeezed(shape)[0], Squeezed(shape)[1], c)
  {
    if !reorder {
      return data;
    }
    var norm := Squeezed(shape);
    if |norm| != 2 || QkChannels(c) <= 0 {
      return data;
    }
    SqueezedProduct(shape);
    MatrixProduct(norm);
    assert c.numK > 0;
    var rows, cols := norm[0], norm[1];
    if rows == Channels(c) {
      r := MoveRows(data, cols, c);
    } else if cols == Channels(c) {
      r := MoveColumns(data, rows, c);
    } else {
      r := data;
    }
  }

  /** The repacking loses nothing: it is the same matrix with the channels moved by a permutation. */
  lemma RepackInvertible<T>(data: seq<T>, data': seq<T>, r: seq<T>, rows: nat, cols: nat, c: Heads)
    requires |data| == |data'| == rows * cols && IsRepacked(data, r, rows, cols, c)
    requires IsRepacked(data', r, rows, cols, c)
    ensures data == data'
  {
    MovesIsPermutation(c);
    if rows == Channels(c) {
      assert Inverse(Stay(), Stay(), cols);
      MovesWithin(c);
      MoveMoves(r, rows, cols, MovesBack(c), Stay());
      var back := Move(r, rows, cols, MovesBack(c), Stay());
      MovedBack(data, r, back, rows, cols, Moves(c), Stay(), MovesBack(c), Stay());
      MovedBack(data', r, back, rows, cols, Moves(c), Stay(), MovesBack(c), Stay());
    } else if cols == Channels(c) {
      assert Inverse(Stay(), Stay(), rows);
      MovesWithin(c);
      MoveMoves(r, rows, cols, Stay(), MovesBack(c));
      var back := Move(r, rows, cols, Stay(), MovesBack(c));
      MovedBack(data, r, back, rows, cols, Stay(), Moves(c), Stay(), MovesBack(c));
      MovedBack(data', r, back, rows, cols, Stay(), Moves(c), Stay(), MovesBack(c));
    }
  }

  lemma MovesWithin(c: Heads)
    ensures Within(Moves(c), Channels(c)) && Within(MovesBack(c), Channels(c)) && forall n :: Within(Stay(), n)
  {
    MovesIsPermutation(c);
  }

  // ---------------------------------------------------------------- element by element

  lemma ChannelsAre(c: Heads)
    ensures QkChannels(c) == 2 * c.headK * c.numK && Channels(c) == 2 * c.headK * c.numK + c.headV * c.numV
  {
    Distribute(c.headK, c.headK, c.numK);
  }

  /** The source of each channel: itself for queries and keys, and the grouped place for a value head. */
  lemma ChannelSources(c: Heads, n: nat, ch: nat, g: nat, v: nat, h: nat)
    ensures ch < 2 * c.headK * c.numK ==> Moves(c)(ch) == ch
    ensures n > 0 && c.numV == c.numK * n && g < c.numK && v < n && h < c.headV ==>
              Moves(c)(2 * c.headK * c.numK + ((v * c.numK + g) * c.headV + h))
              == 2 * c.headK * c.numK + ((g * n + v) * c.headV + h)
    ensures !(c.numK > 0 && c.numV > 0 && c.headV > 0 && c.numV % c.numK == 0) ==> Moves(c)(ch) == ch
  {
    ChannelsAre(c);
    if n > 0 && c.numV == c.numK * n && g < c.numK && v < n && h < c.headV {
      DivMod(n, 0, c.numK);
      MulMonotone(1, n, c.numK);
      MovesHeads(c, g, v, h);
    }
    if ch >= QkChannels(c) && !Even(c) {
      assert VSource(c, ch - QkChannels(c)) == ch - QkChannels(c);
    }
  }

  /** A matrix with a row for each channel. */
  lemma RepackedRow<T>(data: seq<T>, r: seq<T>, rows: nat, cols: nat, c: Heads, ch: nat, j: nat)
    requires IsRepacked(data, r, rows, cols, c) && rows == 2 * c.headK * c.numK + c.headV * c.numV && ch < rows
    requires j < cols
    ensures 0 <= ch * cols + j < |r| && 0 <= Moves(c)(ch) * cols + j < |data|
    ensures r[ch * cols + j] == data[Moves(c)(ch) * cols + j]
  {
    ChannelsAre(c);
    assert r[Cell(ch, j, cols)] == data[Cell(Moves(c)(ch), Stay()(j), cols)];
  }

  /** A matrix with a column for each channel, and not also a row. */
  lemma RepackedColumn<T>(data: seq<T>, r: seq<T>, rows: nat, cols: nat, c: Heads, i: nat, ch: nat)
    requires IsRepacked(data, r, rows, cols, c) && cols == 2 * c.headK * c.numK + c.headV * c.numV && rows != cols
    requires i < rows && ch < cols
    ensures 0 <= i * cols + ch < |r| && 0 <= i * cols + Moves(c)(ch) < |data|
    ensures r[i * cols + ch] == data[i * cols + Moves(c)(ch)]
  {
    ChannelsAre(c);
    assert r[Cell(i, ch, cols)] == data[Cell(Stay()(i), Moves(c)(ch), cols)];
  }

  /** Any other matrix is left as it is. */
  lemma OthersAreLeft<T>(data: seq<T>, r: seq<T>, rows: nat, cols: nat, c: Heads)
    requires IsRepacked(data, r, rows, cols, c)
    requires rows != 2 * c.headK * c.numK + c.headV * c.numV && cols != 2 * c.headK * c.numK + c.headV * c.numV
    ensures r == data
  {
    ChannelsAre(c);
  }
}

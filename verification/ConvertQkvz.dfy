/** The split of the fused query, key, value and gate projection into two tensors. */
module ConvertQkvz {
  import opened Arithmetic
  import opened Optional
  import opened ConvertIndex
  import opened ConvertMatrix
  import opened ConvertQkv

  /** `qkvzSplitSpec`, with the value width of a key head. */
  datatype Spec = Spec(hidden: nat, headK: nat, vPer: nat, numK: nat, qkvzDim: nat, qkvOut: nat, gateOut: nat)

  /** `qkvzSpec`: no split unless the heads are even and the rows are whole key heads. */
  function SpecOf(shape: seq<nat>, c: Heads): (r: Option<Spec>)
    ensures r.Some? <==>
            |shape| == 2 && Even(c) && c.headK > 0
                && shape[0] == (2 * c.headK + 2 * (c.headV * (c.numV / c.numK))) * c.numK
    ensures r.Some? ==> Sound(r.value) && r.value.hidden == shape[1] && r.value.qkvOut + r.value.gateOut == shape[0]
    ensures r.Some? ==> r.value.qkvOut == Channels(c) && r.value.gateOut == VChannels(c)
  {
    if |shape| != 2 then None
    else if c.numK == 0 || c.numV == 0 || c.headK == 0 || c.headV == 0 then None
    else if c.numV % c.numK != 0 then None
    else
      var vPer := c.headV * (c.numV / c.numK);
      var qkvzDim := 2 * c.headK + 2 * vPer;
      if shape[0] != qkvzDim * c.numK then None
      else
        SpecSizes(c);
        Some(Spec(shape[1], c.headK, vPer, c.numK, qkvzDim, 2 * c.headK * c.numK + c.headV * c.numV, c.headV * c.numV))
  }

  /** The widths that the tensor operations rely on: each reshape and the concatenation keep the number of columns. */
  ghost predicate Sound(s: Spec) {
    && s.headK > 0 && s.vPer > 0 && s.numK > 0 && s.qkvzDim == s.headK + s.headK + s.vPer + s.vPer
    && s.qkvOut == s.numK * s.headK + s.numK * s.headK + s.numK * s.vPer && s.gateOut == s.numK * s.vPer
    && s.qkvOut + s.gateOut == s.numK * s.qkvzDim
  }

  lemma SpecSizes(c: Heads)
    requires Even(c)
    ensures var vPer := c.headV * (c.numV / c.numK);
            && vPer > 0 && c.numK * vPer == c.headV * c.numV
            && 2 * c.headK * c.numK + c.headV * c.numV == c.numK * c.headK + c.numK * c.headK + c.numK * vPer
            && (2 * c.headK + 2 * vPer) * c.numK == c.numK * (c.headK + c.headK + vPer + vPer)
            && c.numK * (c.headK + c.headK + vPer + vPer)
                == c.numK * c.headK + c.numK * c.headK + c.numK * vPer + c.numK * vPer
  {
    var n := PerKey(c);
    var vPer := c.headV * n;
    MulAtLeast(n, c.headV);
    Associate(c.headV, n, c.numK);
    Distribute(c.headK, c.headK, c.numK);
    Distribute(c.headK + c.headK, vPer, c.numK);
    Distribute(c.headK + c.headK + vPer, vPer, c.numK);
  }

  // ---------------------------------------------------------------- the rows of the two tensors

  /** Row `m` of the slice of `width` rows from `start` in every key head, laid head after head. */
  function SliceRow(m: int, width: int, start: int, qkvzDim: int): int
    requires width > 0
  {
    (m / width) * qkvzDim + start + m % width
  }

  /** The source row of row `m` of an output: the gate slices, or all queries, then all keys, then all values. */
  function SourceRow(s: Spec, gate: bool, m: int): int
    requires s.headK > 0 && s.vPer > 0
  {
    var k := s.numK * s.headK;
    if gate then SliceRow(m, s.vPer, s.headK + s.headK + s.vPer, s.qkvzDim)
    else if m < k then SliceRow(m, s.headK, 0, s.qkvzDim)
    else if m < k + k then SliceRow(m - k, s.headK, s.headK, s.qkvzDim)
    else SliceRow(m - k - k, s.vPer, s.headK + s.headK, s.qkvzDim)
  }

  /** The output and the row to which row `at` of key head `head` goes. */
  function Place(s: Spec, head: int, at: int): (bool, int) {
    var k := s.numK * s.headK;
    if at < s.headK then (false, head * s.headK + at)
    else if at < s.headK + s.headK then (false, k + (head * s.headK + (at - s.headK)))
    else if at < s.headK + s.headK + s.vPer then (false, k + k + (head * s.vPer + (at - s.headK - s.headK)))
    else (true, head * s.vPer + (at - s.headK - s.headK - s.vPer))
  }

  /** The output and the row to which source row `i` goes. */
  function TargetRow(s: Spec, i: int): (bool, int)
    requires s.qkvzDim > 0
  {
    Place(s, i / s.qkvzDim, i % s.qkvzDim)
  }

  function OutRows(s: Spec, gate: bool): nat {
    if gate then s.gateOut else s.qkvOut
  }

  /** A row of a slice lies in its head, at its offset. */
  lemma SliceRowIs(m: int, width: int, start: int, qkvzDim: int, numK: nat)
    requires 0 <= m < numK * width && 0 < width && 0 <= start && start + width <= qkvzDim
    ensures 0 <= SliceRow(m, width, start, qkvzDim) < numK * qkvzDim
    ensures SliceRow(m, width, start, qkvzDim) / qkvzDim == m / width
    ensures SliceRow(m, width, start, qkvzDim) % qkvzDim == start + m % width
    ensures (m / width) * width + m % width == m && 0 <= m % width < width
  {
    CellOf(m, numK, width);
    CellIn(m / width, start + m % width, numK, qkvzDim);
  }

  /** Every output row comes from a source row that goes to it and nowhere else. */
  lemma SourceRowIs(s: Spec, gate: bool, m: int)
    requires Sound(s) && 0 <= m < OutRows(s, gate)
    ensures 0 <= SourceRow(s, gate, m) < s.qkvOut + s.gateOut && TargetRow(s, SourceRow(s, gate, m)) == (gate, m)
  {
    var k := s.numK * s.headK;
    if gate {
      SliceRowIs(m, s.vPer, s.headK + s.headK + s.vPer, s.qkvzDim, s.numK);
    } else if m < k {
      SliceRowIs(m, s.headK, 0, s.qkvzDim, s.numK);
    } else if m < k + k {
      SliceRowIs(m - k, s.headK, s.headK, s.qkvzDim, s.numK);
    } else {
      SliceRowIs(m - k - k, s.vPer, s.headK + s.headK, s.qkvzDim, s.numK);
    }
  }

  /** Place `at` of the slice of head `head`. */
  lemma SlicePlace(head: int, at: int, width: int, start: int, qkvzDim: int, numK: int)
    requires 0 <= head < numK && 0 <= at < width
    ensures 0 <= head * width + at < numK * width
    ensures SliceRow(head * width + at, width, start, qkvzDim) == head * qkvzDim + start + at
  {
    CellIn(head, at, numK, width);
  }

  lemma QueryKeyPlace(s: Spec, head: nat, at: nat)
    requires Sound(s) && head < s.numK && at < s.headK + s.headK
    ensures 0 <= Place(s, head, at).1 < OutRows(s, Place(s, head, at).0)
    ensures SourceRow(s, Place(s, head, at).0, Place(s, head, at).1) == head * s.qkvzDim + at
  {
    if at < s.headK {
      SlicePlace(head, at, s.headK, 0, s.qkvzDim, s.numK);
    } else {
      SlicePlace(head, at - s.headK, s.headK, s.headK, s.qkvzDim, s.numK);
    }
  }

  lemma ValueGatePlace(s: Spec, head: nat, at: nat)
    requires Sound(s) && head < s.numK && s.headK + s.headK <= at < s.qkvzDim
    ensures 0 <= Place(s, head, at).1 < OutRows(s, Place(s, head, at).0)
    ensures SourceRow(s, Place(s, head, at).0, Place(s, head, at).1) == head * s.qkvzDim + at
  {
    if at < s.headK + s.headK + s.vPer {
      SlicePlace(head, at - s.headK - s.headK, s.vPer, s.headK + s.headK, s.qkvzDim, s.numK);
    } else {
      SlicePlace(head, at - s.headK - s.headK - s.vPer, s.vPer, s.headK + s.headK + s.vPer, s.qkvzDim, s.numK);
    }
  }

  lemma PlaceIs(s: Spec, head: nat, at: nat)
    requires Sound(s) && head < s.numK && at < s.qkvzDim
    ensures 0 <= Place(s, head, at).1 < OutRows(s, Place(s, head, at).0)
    ensures SourceRow(s, Place(s, head, at).0, Place(s, head, at).1) == head * s.qkvzDim + at
  {
    if at < s.headK + s.headK {
      QueryKeyPlace(s, head, at);
    } else {
      ValueGatePlace(s, head, at);
    }
  }

  lemma TargetRowIs(s: Spec, i: int)
    requires Sound(s) && 0 <= i < s.qkvOut + s.gateOut
    ensures 0 <= TargetRow(s, i).1 < OutRows(s, TargetRow(s, i).0)
    ensures SourceRow(s, TargetRow(s, i).0, TargetRow(s, i).1) == i
  {
    CellOf(i, s.numK, s.qkvzDim);
    PlaceIs(s, i / s.qkvzDim, i % s.qkvzDim);
  }

  // ---------------------------------------------------------------- the two tensors

  /** The source index of element `k` of an output. */
  function SourceIndex(s: Spec, gate: bool, k: int): int
    requires s.headK > 0 && s.vPer > 0 && s.hidden > 0
  {
    Cell(SourceRow(s, gate, k / s.hidden), k % s.hidden, s.hidden)
  }

  /** One slice of every key head: from `hidden x numK x qkvzDim` to `hidden x (numK * width)`. */
  function Slice<T>(t: seq<T>, s: Spec, start: nat, width: nat): (r: seq<T>)
    requires |t| == s.hidden * (s.numK * s.qkvzDim) && start + width <= s.qkvzDim
    ensures |r| == s.hidden * (s.numK * width)
  {
    Associate(s.hidden, s.numK, s.qkvzDim);
    Associate(s.hidden, s.numK, width);
    SliceColumns(t, s.hidden * s.numK, s.qkvzDim, start, width)
  }

  /** The slices that an output is made of, side by side. */
  function Joined<T>(t: seq<T>, s: Spec, gate: bool): (out: seq<T>)
    requires Sound(s) && |t| == s.hidden * (s.numK * s.qkvzDim)
    ensures |out| == s.hidden * OutRows(s, gate)
  {
    var kRows, vRows := s.numK * s.headK, s.numK * s.vPer;
    if gate then Slice(t, s, s.headK + s.headK + s.vPer, s.vPer)
    else
      var q, k := Slice(t, s, 0, s.headK), Slice(t, s, s.headK, s.headK);
      var v := Slice(t, s, s.headK + s.headK, s.vPer);
      Beside(Beside(q, k, s.hidden, kRows, kRows), v, s.hidden, kRows + kRows, vRows)
  }

  /** `repackQKVZ`: transpose, cut every key head into its slices, put the wanted ones side by side, transpose back. */
  function RepackQKVZ<T>(data: seq<T>, s: Spec, gate: bool): (r: seq<T>)
    requires Sound(s) && |data| == (s.qkvOut + s.gateOut) * s.hidden
    ensures |r| == OutRows(s, gate) * s.hidden
  {
    var t := Transpose(data, s.qkvOut + s.gateOut, s.hidden);
    Transpose(Joined(t, s, gate), s.hidden, OutRows(s, gate))
  }

  /** The slice of a transposed matrix holds, for column `f`, its row `SliceRow`. */
  lemma SliceHolds<T>(data: seq<T>, t: seq<T>, s: Spec, start: nat, width: nat, f: nat, m: nat)
    requires |data| == s.numK * s.qkvzDim * s.hidden && Transposed(data, t, s.numK * s.qkvzDim, s.hidden)
    requires |t| == s.hidden * (s.numK * s.qkvzDim) && 0 < width && start + width <= s.qkvzDim && f < s.hidden
    requires m < s.numK * width
    ensures 0 <= Cell(f, m, s.numK * width) < |Slice(t, s, start, width)|
    ensures 0 <= Cell(SliceRow(m, width, start, s.qkvzDim), f, s.hidden) < |data|
    ensures Slice(t, s, start, width)[Cell(f, m, s.numK * width)]
              == data[Cell(SliceRow(m, width, start, s.qkvzDim), f, s.hidden)]
  {
    var head, at := m / width, m % width;
    SliceRowIs(m, width, start, s.qkvzDim, s.numK);
    CellOf(m, s.numK, width);
    CellIn(f, m, s.hidden, s.numK * width);
    CellIn(f, head, s.hidden, s.numK);
    Associate(s.hidden, s.numK, s.qkvzDim);
    SliceEntry(t, s.hidden * s.numK, s.qkvzDim, start, width, Cell(f, head, s.numK), at);
    BlockIs(f, head, at, s.numK, width);
    BlockIs(f, head, start + at, s.numK, s.qkvzDim);
    assert t[Cell(f, SliceRow(m, width, start, s.qkvzDim), s.numK * s.qkvzDim)]
        == data[Cell(SliceRow(m, width, start, s.qkvzDim), f, s.hidden)];
  }

  /** A column of the slices laid side by side is a column of one of them. */
  lemma ThreeBeside<T>(q: seq<T>, k: seq<T>, v: seq<T>, rows: nat, kRows: nat, vRows: nat, f: nat, m: nat)
    requires |q| == |k| == rows * kRows && |v| == rows * vRows && f < rows && m < kRows + kRows + vRows
    ensures var out := Beside(Beside(q, k, rows, kRows, kRows), v, rows, kRows + kRows, vRows);
            && 0 <= Cell(f, m, kRows + kRows + vRows) < |out|
            && (m < kRows ==>
                0 <= Cell(f, m, kRows) < |q| && out[Cell(f, m, kRows + kRows + vRows)] == q[Cell(f, m, kRows)])
            && (kRows <= m < kRows + kRows ==>
                  && 0 <= Cell(f, m - kRows, kRows) < |k|
                  && out[Cell(f, m, kRows + kRows + vRows)] == k[Cell(f, m - kRows, kRows)])
            && (kRows + kRows <= m ==>
                  && 0 <= Cell(f, m - kRows - kRows, vRows) < |v|
                  && out[Cell(f, m, kRows + kRows + vRows)] == v[Cell(f, m - kRows - kRows, vRows)])
  {
    BesideEntry(Beside(q, k, rows, kRows, kRows), v, rows, kRows + kRows, vRows, f, m);
    if m < kRows + kRows {
      BesideEntry(q, k, rows, kRows, kRows, f, m);
    }
  }

  /** The middle of the pipeline: column `m` of the joined slices is a row of the source. */
  lemma JoinedHolds<T>(data: seq<T>, t: seq<T>, s: Spec, gate: bool, f: nat, m: nat)
    requires Sound(s) && |data| == s.numK * s.qkvzDim * s.hidden && Transposed(data, t, s.numK * s.qkvzDim, s.hidden)
    requires |t| == s.hidden * (s.numK * s.qkvzDim) && f < s.hidden && m < OutRows(s, gate)
    ensures 0 <= Cell(f, m, OutRows(s, gate)) < |Joined(t, s, gate)|
    ensures 0 <= Cell(SourceRow(s, gate, m), f, s.hidden) < |data|
    ensures Joined(t, s, gate)[Cell(f, m, OutRows(s, gate))] == data[Cell(SourceRow(s, gate, m), f, s.hidden)]
  {
    var kRows, vRows := s.numK * s.headK, s.numK * s.vPer;
    if gate {
      SliceHolds(data, t, s, s.headK + s.headK + s.vPer, s.vPer, f, m);
    } else {
      ThreeBeside(Slice(t, s, 0, s.headK), Slice(t, s, s.headK, s.headK), Slice(t, s, s.headK + s.headK, s.vPer),
                  s.hidden, kRows, vRows, f, m);
      if m < kRows {
        SliceHolds(data, t, s, 0, s.headK, f, m);
      } else if m < kRows + kRows {
        SliceHolds(data, t, s, s.headK, s.headK, f, m - kRows);
      } else {
        SliceHolds(data, t, s, s.headK + s.headK, s.vPer, f, m - kRows - kRows);
      }
    }
  }

  /** Element `(m, f)` of an output is element `(SourceRow(m), f)` of the source. */
  lemma RepackedEntry<T>(data: seq<T>, s: Spec, gate: bool, m: nat, f: nat)
    requires Sound(s) && |data| == (s.qkvOut + s.gateOut) * s.hidden && m < OutRows(s, gate) && f < s.hidden
    ensures 0 <= Cell(m, f, s.hidden) < OutRows(s, gate) * s.hidden
    ensures 0 <= Cell(SourceRow(s, gate, m), f, s.hidden) < |data|
    ensures RepackQKVZ(data, s, gate)[Cell(m, f, s.hidden)] == data[Cell(SourceRow(s, gate, m), f, s.hidden)]
  {
    var t := Transpose(data, s.qkvOut + s.gateOut, s.hidden);
    TransposeTransposes(data, s.qkvOut + s.gateOut, s.hidden);
    CellIn(m, f, OutRows(s, gate), s.hidden);
    JoinedHolds(data, t, s, gate, f, m);
    var out := Joined(t, s, gate);
    TransposeTransposes(out, s.hidden, OutRows(s, gate));
    assert Transpose(out, s.hidden, OutRows(s, gate))[Cell(m, f, s.hidden)] == out[Cell(f, m, OutRows(s, gate))];
  }

  /** Element `k` of an output is the source element that `SourceIndex` names. */
  lemma RepackedIs<T>(data: seq<T>, s: Spec, gate: bool, k: nat)
    requires Sound(s) && |data| == (s.qkvOut + s.gateOut) * s.hidden && k < OutRows(s, gate) * s.hidden
    ensures s.hidden > 0 && 0 <= SourceIndex(s, gate, k) < |data|
    ensures RepackQKVZ(data, s, gate)[k] == data[SourceIndex(s, gate, k)]
  {
    CellOf(k, OutRows(s, gate), s.hidden);
    RepackedEntry(data, s, gate, k / s.hidden, k % s.hidden);
  }

  /** Source element `j` goes to element `k` of one of the outputs. */
  ghost predicate GoesTo(s: Spec, j: int, gate: bool, k: int) {
    Sound(s) && s.hidden > 0 && 0 <= k < OutRows(s, gate) * s.hidden && SourceIndex(s, gate, k) == j
  }

  /** Where source element `j` goes. */
  ghost function TargetIndex(s: Spec, j: int): int
    requires s.qkvzDim > 0 && s.hidden > 0
  {
    Cell(TargetRow(s, j / s.hidden).1, j % s.hidden, s.hidden)
  }

  lemma TargetIndexIs(s: Spec, j: nat)
    requires Sound(s) && j < (s.qkvOut + s.gateOut) * s.hidden
    ensures s.hidden > 0 && GoesTo(s, j, TargetRow(s, j / s.hidden).0, TargetIndex(s, j))
  {
    CellOf(j, s.qkvOut + s.gateOut, s.hidden);
    var i := j / s.hidden;
    TargetRowIs(s, i);
    var (gate, m) := TargetRow(s, i);
    CellIn(m, j % s.hidden, OutRows(s, gate), s.hidden);
  }

  lemma GoesToIsTarget(s: Spec, j: nat, gate: bool, k: nat)
    requires GoesTo(s, j, gate, k)
    ensures gate == TargetRow(s, j / s.hidden).0 && k == TargetIndex(s, j)
  {
    CellOf(k, OutRows(s, gate), s.hidden);
    var m := k / s.hidden;
    SourceRowIs(s, gate, m);
    CellIn(SourceRow(s, gate, m), k % s.hidden, s.qkvOut + s.gateOut, s.hidden);
  }

  /**
   * The split is a partition: each source element is at exactly one place of exactly one of the two tensors, and is
   * read from there.
   */
  lemma SplitPartitions<T>(data: seq<T>, s: Spec, j: nat)
    requires Sound(s) && |data| == (s.qkvOut + s.gateOut) * s.hidden && j < |data|
    ensures exists gate, k :: GoesTo(s, j, gate, k) && RepackQKVZ(data, s, gate)[k] == data[j]
    ensures forall gate, k, gate', k' :: GoesTo(s, j, gate, k) && GoesTo(s, j, gate', k') ==> gate == gate' && k == k'
  {
    TargetIndexIs(s, j);
    var gate, k := TargetRow(s, j / s.hidden).0, TargetIndex(s, j);
    RepackedIs(data, s, gate, k);
    assert GoesTo(s, j, gate, k) && RepackQKVZ(data, s, gate)[k] == data[j];
    forall gate', k' | GoesTo(s, j, gate', k')
      ensures gate' == gate && k' == k
    {
      GoesToIsTarget(s, j, gate', k');
    }
  }

  /** Nothing else is in the two tensors, so the pair determines the source and the source the pair. */
  lemma SplitIsLossless<T>(data: seq<T>, data': seq<T>, s: Spec)
    requires Sound(s) && |data| == |data'| == (s.qkvOut + s.gateOut) * s.hidden
    requires RepackQKVZ(data, s, false) == RepackQKVZ(data', s, false)
    requires RepackQKVZ(data, s, true) == RepackQKVZ(data', s, true)
    ensures data == data'
  {
    forall j | 0 <= j < |data|
      ensures data[j] == data'[j]
    {
      TargetIndexIs(s, j);
      var gate, k := TargetRow(s, j / s.hidden).0, TargetIndex(s, j);
      RepackedIs(data, s, gate, k);
      RepackedIs(data', s, gate, k);
      assert RepackQKVZ(data, s, gate)[k] == RepackQKVZ(data', s, gate)[k];
    }
  }

  // ---------------------------------------------------------------- element by element

  /**
   * Key head `g` of the fused tensor holds its queries and then its keys; the first output holds those of all heads.
   */
  lemma QueriesAndKeys(s: Spec, g: nat, i: nat)
    requires Sound(s) && g < s.numK && i < s.headK
    ensures SourceRow(s, false, g * s.headK + i) == g * (2 * s.headK + 2 * s.vPer) + i
    ensures SourceRow(s, false, s.numK * s.headK + (g * s.headK + i)) == g * (2 * s.headK + 2 * s.vPer) + s.headK + i
  {
    SlicePlace(g, i, s.headK, 0, s.qkvzDim, s.numK);
    SlicePlace(g, i, s.headK, s.headK, s.qkvzDim, s.numK);
    assert s.qkvzDim == 2 * s.headK + 2 * s.vPer;
  }

  /** Behind them it holds its values, which end the first output, and its gate, which is the second output. */
  lemma ValuesAndGate(s: Spec, g: nat, i: nat)
    requires Sound(s) && g < s.numK && i < s.vPer
    ensures SourceRow(s, false, s.numK * s.headK + s.numK * s.headK + (g * s.vPer + i))
            == g * (2 * s.headK + 2 * s.vPer) + 2 * s.headK + i
    ensures SourceRow(s, true, g * s.vPer + i) == g * (2 * s.headK + 2 * s.vPer) + 2 * s.headK + s.vPer + i
  {
    SlicePlace(g, i, s.vPer, s.headK + s.headK, s.qkvzDim, s.numK);
    SlicePlace(g, i, s.vPer, s.headK + s.headK + s.vPer, s.qkvzDim, s.numK);
    assert s.qkvzDim == 2 * s.headK + 2 * s.vPer;
  }

  /** The element in row `m`, column `f` of an output. */
  lemma SplitElement<T>(data: seq<T>, s: Spec, gate: bool, m: nat, f: nat)
    requires Sound(s) && |data| == (s.qkvOut + s.gateOut) * s.hidden && m < OutRows(s, gate) && f < s.hidden
    ensures 0 <= m * s.hidden + f < |RepackQKVZ(data, s, gate)| && 0 <= SourceRow(s, gate, m) * s.hidden + f < |data|
    ensures RepackQKVZ(data, s, gate)[m * s.hidden + f] == data[SourceRow(s, gate, m) * s.hidden + f]
  {
    RepackedEntry(data, s, gate, m, f);
  }
}

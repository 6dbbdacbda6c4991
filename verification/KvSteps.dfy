/** What each operation of the causal cache does, as a relation between the state before and after. */
module KvSteps {
  import opened KvCells

  // ---------------------------------------------------------------- sizing

  function Wrap32(x: int): int {
    (x + 0x8000_0000) % 0x1_0000_0000 - 0x8000_0000
  }

  function RoundDown(length: int, pad: int): int
    requires pad > 0
  {
    (length / pad) * pad
  }

  function RoundUp(length: int, pad: int): int
    requires pad > 0
  {
    ((length + pad - 1) / pad) * pad
  }

  datatype Sizing = Panic | Sized(window: int, memory: int, padding: int, size: int)

  /** `Init`: the effective window, memory and padding, and the number of cells; `Panic` where the source panics. */
  function Init(window0: int, memory0: int, padding0: nat, maxSequences: nat, capacity: nat, maxBatch: nat): Sizing
  {
    var padding := if padding0 == 0 then 1 else padding0;
    var window := if window0 == 0 then MAX_INT32 else window0;
    var memory1 := if memory0 == 0 then window else memory0;
    var memory2 := if memory1 != MAX_INT32 && maxSequences > 1 && Wrap32(window + 1) > memory1
                   then Wrap32(window + 1) else memory1;
    var memory := if memory2 >= capacity then MAX_INT32 else memory2;
    if memory < window then Panic else
    var size := if memory == MAX_INT32 then maxSequences * capacity else maxSequences * memory + maxBatch;
    Sized(window, memory, padding, RoundUp(size, padding))
  }

  /**
   * What `Init` settles, said without computing it. The window is the one asked for, or unlimited; so is the memory,
   * which is at least one position longer than the window when there are several sequences, and unlimited when that
   * is no less than the capacity; the padding is the one asked for, or none; and the cells are the needed ones,
   * rounded up.
   */
  ghost predicate Configured(window0: int, memory0: int, padding0: nat, maxSequences: nat, capacity: nat, maxBatch: nat,
                             window: int, memory: int, padding: int, size: int) {
    var asked := if memory0 != 0 then memory0 else window;
    var grown := maxSequences > 1 && window < 0x7fff_ffff && asked <= window;
    var needed := if memory == 0x7fff_ffff then maxSequences * capacity else maxSequences * memory + maxBatch;
    && (window0 != 0 ==> window == window0) && (window0 == 0 ==> window == 0x7fff_ffff)
    && (padding0 != 0 ==> padding == padding0) && (padding0 == 0 ==> padding == 1)
    && (memory == 0x7fff_ffff <==> asked == 0x7fff_ffff || (if grown then window + 1 else asked) >= capacity
                                    || (grown && window + 1 == 0x7fff_ffff))
    && (memory != 0x7fff_ffff ==> memory == if grown then window + 1 else asked)
    && needed <= size < needed + padding && size % padding == 0
  }

  // ---------------------------------------------------------------- batches

  predicate InBatch(batch: Batch, s: int) {
    exists k :: 0 <= k < |batch| && batch[k].sq == s
  }

  /** The lowest position of `s` in the batch. */
  function BatchLow(batch: Batch, s: int): int {
    if batch == [] then MAX_INT32
    else
      var low := BatchLow(batch[..|batch| - 1], s);
      var t := batch[|batch| - 1];
      if t.sq == s && t.pos < low then t.pos else low
  }

  /** The highest position of `s` among the first `n` cells, and 0 when there is none. */
  function MaxPos(cells: seq<Cell>, n: nat, s: int): int
    requires n <= |cells|
  {
    if n == 0 then 0
    else
      var m := MaxPos(cells, n - 1, s);
      if Has(cells, n - 1, s) && cells[n - 1].pos > m then cells[n - 1].pos else m
  }

  /** The oldest position that `s` is about to compute; eviction is relative to it. */
  function Lowest(cells: seq<Cell>, batch: Batch, s: int): int {
    if InBatch(batch, s) then BatchLow(batch, s) else MaxPos(cells, |cells|, s) + 1
  }

  predicate ValidBatch(p: Params, batch: Batch) {
    1 <= |batch| <= p.maxBatch && forall k :: 0 <= k < |batch| ==> 0 <= batch[k].pos < MAX_INT32
  }

  /**
   * The caller's contract: the batch continues what each of its sequences already stores, without
   * repetition and without a gap.
   */
  ghost predicate Continues(cells: seq<Cell>, batch: Batch) {
    && (forall j, k :: 0 <= j < k < |batch| ==> batch[j] != batch[k])
    && (forall j, k, q ::
          0 <= j < |batch| && 0 <= k < |batch| && batch[j].sq == batch[k].sq && batch[j].pos <= q <= batch[k].pos
          ==> Token(batch[j].sq, q) in batch)
    && (forall i, k :: 0 <= k < |batch| && Has(cells, i, batch[k].sq) ==> cells[i].pos < batch[k].pos)
    && (forall i, k, q :: 0 <= k < |batch| && Has(cells, i, batch[k].sq) && cells[i].pos < q < batch[k].pos
          ==> Token(batch[k].sq, q) in batch || Stores(cells, batch[k].sq, q))
  }

  // ---------------------------------------------------------------- forward

  /** Eviction keeps cell `i` for sequence `s`. */
  predicate Kept(p: Params, batch: Batch, cells: seq<Cell>, i: int, s: int) {
    0 <= i < |cells| && (p.memory == MAX_INT32 || cells[i].pos >= Lowest(cells, batch, s) - p.memory)
  }

  /** The window moved: references fall away from the memory window of their own sequence and nothing else changes. */
  ghost predicate Evicted(p: Params, batch: Batch, c: State, c': State) {
    && |c'.cells| == |c.cells| && c'.keys == c.keys
    && (forall i :: 0 <= i < |c.cells| ==> c'.cells[i].pos == c.cells[i].pos)
    && (forall i, s :: Has(c'.cells, i, s) <==> Has(c.cells, i, s) && Kept(p, batch, c.cells, i, s))
  }

  /**
   * Cell `i` is within the memory of `s`: no further back than the memory from some token of the batch or, for a
   * sequence that is not in the batch, from the position after its last one.
   */
  ghost predicate Recent(p: Params, batch: Batch, cells: seq<Cell>, i: int, s: int)
    requires 0 <= i < |cells|
  {
    if exists k :: 0 <= k < |batch| && batch[k].sq == s then
      exists k :: 0 <= k < |batch| && batch[k].sq == s && cells[i].pos >= batch[k].pos - p.memory
    else
      forall j :: Has(cells, j, s) ==> cells[i].pos >= cells[j].pos + 1 - p.memory
  }

  /** What eviction does, said without computing anything: exactly the references within memory stay. */
  ghost predicate WindowMoved(p: Params, batch: Batch, c: State, c': State) {
    && |c'.cells| == |c.cells| && c'.keys == c.keys
    && (forall i :: 0 <= i < |c.cells| ==> c'.cells[i].pos == c.cells[i].pos)
    && (forall i, s :: Has(c'.cells, i, s) <==>
          Has(c.cells, i, s) && (p.memory == 0x7fff_ffff || Recent(p, batch, c.cells, i, s)))
  }

  /** The `n` lowest free cells. */
  ghost predicate FirstFit(cells: seq<Cell>, locs: seq<int>) {
    && (forall k :: 0 <= k < |locs| ==> Free(cells, locs[k]))
    && (forall j, k :: 0 <= j < k < |locs| ==> locs[j] < locs[k])
    && (forall i, k :: 0 <= k < |locs| && i < locs[k] && Free(cells, i) ==> i in locs)
  }

  /** The tokens of the batch were stored at `locs`. */
  ghost predicate Placed(batch: Batch, locs: seq<int>, c: State, c': State) {
    && |c'.cells| == |c.cells| && c'.keys == c.keys && |locs| == |batch|
    && FirstFit(c.cells, locs)
    && (forall k :: 0 <= k < |batch| ==> c'.cells[locs[k]] == Cell(batch[k].pos, [batch[k].sq]))
    && (forall i :: 0 <= i < |c.cells| && i !in locs ==> c'.cells[i] == c.cells[i])
  }

  /** `Put` for one layer: the rows at `locs` now hold keys rotated to the batch's positions. */
  function PutRow(row: seq<int>, locs: seq<int>, batch: Batch): seq<int>
    requires |locs| == |batch|
    requires forall k :: 0 <= k < |locs| ==> 0 <= locs[k] < |row|
    ensures |PutRow(row, locs, batch)| == |row|
    decreases |locs|
  {
    if locs == [] then row
    else
      var n := |locs| - 1;
      PutRow(row, locs[..n], batch[..n])[locs[n] := batch[n].pos]
  }

  function PutLayer(c: State, layer: int, locs: seq<int>, batch: Batch): State
    requires |locs| == |batch|
    requires forall k :: 0 <= k < |locs| ==> 0 <= locs[k] < |c.cells|
    requires layer in c.keys ==> |c.keys[layer]| == |c.cells|
  {
    var row := if layer in c.keys then c.keys[layer] else seq(|c.cells|, _ => 0);
    c.(keys := c.keys[layer := PutRow(row, locs, batch)])
  }

  /** The same references at the same positions, over the same keys. */
  ghost predicate SameReferences(c: State, c': State) {
    && |c'.cells| == |c.cells| && c'.keys == c.keys
    && (forall i, s :: Has(c'.cells, i, s) <==> Has(c.cells, i, s))
    && (forall i, s :: Has(c.cells, i, s) ==> c'.cells[i].pos == c.cells[i].pos)
  }

  /** What is left of a forward pass that failed later on: the window has moved, the batch is gone. */
  ghost predicate Unwound(p: Params, batch: Batch, was: State, e: State, now: State) {
    WellFormed(e) && Evicted(p, batch, was, e) && SameReferences(e, now)
  }

  // ---------------------------------------------------------------- attention

  /** Batch token `t` attends to `cell`: the definition over the whole cache. */
  predicate Attends(p: Params, cell: Cell, t: Token, causal: bool) {
    && t.sq in cell.sequences
    && (causal ==> cell.pos <= t.pos)
    && (p.chunk > 0 ==> cell.pos >= t.pos - t.pos % p.chunk)
    && cell.pos >= t.pos - p.window
  }

  /** The mask over `r` is the whole-cache mask: exact inside the range, and nothing outside is attended to. */
  ghost predicate MaskExact(p: Params, cells: seq<Cell>, batch: Batch, except: seq<int>, r: Range,
                            mask: seq<seq<bool>>) {
    && Span(r, |cells|)
    && |mask| == |batch|
    && (forall k :: 0 <= k < |batch| ==> |mask[k]| == r.max - r.min + 1)
    && (forall k, j :: 0 <= k < |batch| && r.min <= j <= r.max ==>
          (mask[k][j - r.min] <==> !Attends(p, cells[j], batch[k], k !in except)))
    && (forall k, j :: 0 <= k < |batch| && 0 <= j < |cells| && !(r.min <= j <= r.max) ==>
          !Attends(p, cells[j], batch[k], k !in except))
  }

  /** Cell `i` is in the memory of some token of the batch or, without eviction, of its sequence. */
  ghost predicate Visible(p: Params, batch: Batch, cells: seq<Cell>, i: int) {
    exists k :: 0 <= k < |batch| && Has(cells, i, batch[k].sq)
                && (p.memory == 0x7fff_ffff || cells[i].pos >= batch[k].pos - p.window)
  }

  /** A range that reaches down to `lo` and up to `hi`, and no further than padding takes it. */
  predicate PaddedAround(r: Range, lo: int, hi: int, padding: int) {
    && 0 < padding && r.min % padding == 0 && (r.max + 1) % padding == 0
    && r.min <= lo < r.min + padding && r.max - padding < hi <= r.max
  }

  /** The sub-range of a pass is no larger than needed: padded around new cells and cells that the batch sees. */
  ghost predicate RangeIsNeeded(p: Params, batch: Batch, locs: seq<int>, e: State, r: Range) {
    exists lo, hi :: (lo in locs || Visible(p, batch, e.cells, lo)) && (hi in locs || Visible(p, batch, e.cells, hi))
                     && PaddedAround(r, lo, hi, p.padding)
  }

  /** The index is exact for every sequence of the batch. */
  ghost predicate AllExact(batch: Batch, c: State) {
    forall k :: 0 <= k < |batch| ==> ExactIndex(c, batch[k].sq)
  }

  /** The two lists of exempt tokens give the same mask over `r`. */
  ghost predicate SameMask(p: Params, cells: seq<Cell>, batch: Batch, r: Range, except: seq<int>, except': seq<int>)
    requires Span(r, |cells|)
  {
    forall k, j :: 0 <= k < |batch| && r.min <= j <= r.max ==>
      (Attends(p, cells[j], batch[k], k !in except) <==> Attends(p, cells[j], batch[k], k !in except'))
  }

  // ---------------------------------------------------------------- prefix copies, removal, resume

  /** `dst` became exactly the cells of `src` below `len`; nobody else changed. */
  ghost predicate Copied(src: int, dst: int, len: int, c: State, c': State) {
    && |c'.cells| == |c.cells| && c'.keys == c.keys
    && (forall i :: 0 <= i < |c.cells| ==> c'.cells[i].pos == c.cells[i].pos)
    && (forall i, s :: s != dst ==> (Has(c'.cells, i, s) <==> Has(c.cells, i, s)))
    && (forall i :: Has(c'.cells, i, dst) <==> src != dst && Has(c.cells, i, src) && c.cells[i].pos < len)
  }

  function Offset(begin: int, end: int): int {
    if end == MAX_INT32 then 0 else begin - end
  }

  function Renumbered(cells: seq<Cell>, i: int, sq: int, begin: int, end: int): int
    requires 0 <= i < |cells|
  {
    if Has(cells, i, sq) && cells[i].pos >= end then cells[i].pos + Offset(begin, end) else cells[i].pos
  }

  /** The cell scan of `Remove` ran to its end over the cells below `n`. */
  ghost predicate Scanned(sq: int, begin: int, end: int, cells: seq<Cell>, cells': seq<Cell>, n: int) {
    && |cells'| == |cells|
    && (forall i :: 0 <= i < |cells| && n <= i ==> cells'[i] == cells[i])
    && (forall i :: 0 <= i < |cells| && i < n ==> cells'[i].pos == Renumbered(cells, i, sq, begin, end))
    && (forall i, s :: i < n && s != sq ==> (Has(cells', i, s) <==> Has(cells, i, s)))
    && (forall i :: i < n ==>
          (Has(cells', i, sq) <==> Has(cells, i, sq) && !(begin <= cells[i].pos < end)))
  }

  /** Renumbering `sq` would move cell `i`, which other sequences reference too. */
  ghost predicate Blocked(cells: seq<Cell>, i: int, sq: int, end: int) {
    Has(cells, i, sq) && cells[i].pos >= end && exists s :: Has(cells, i, s) && s != sq
  }

  /** No cell of `sq` from position `end` on is referenced by another sequence. */
  ghost predicate NoneShared(cells: seq<Cell>, sq: int, end: int) {
    forall i, s :: Has(cells, i, sq) && Has(cells, i, s) && cells[i].pos >= end ==> s == sq
  }

  /** The rotation that row `i` needs when `sq` is shifted from `begin` on. */
  function ShiftOf(cells: seq<Cell>, i: int, sq: int, begin: int, offset: int): int {
    if Has(cells, i, sq) && cells[i].pos >= begin then offset else 0
  }

  /** The stored keys were rotated by `offset` in exactly the rows of `sq` from `begin` on, once. */
  ghost predicate Rotated(sq: int, begin: int, offset: int, cells: seq<Cell>, keys: map<int, seq<int>>,
                          keys': map<int, seq<int>>) {
    && keys'.Keys == keys.Keys
    && (forall l :: l in keys ==> |keys'[l]| == |keys[l]|)
    && (forall l, i {:trigger keys'[l][i]} {:trigger keys[l][i]} :: l in keys && 0 <= i < |keys[l]| ==>
          keys'[l][i] == keys[l][i] + ShiftOf(cells, i, sq, begin, offset))
  }

  /** `Remove` succeeded. */
  ghost predicate Removed(sq: int, begin: int, end: int, c: State, c': State) {
    && Scanned(sq, begin, end, c.cells, c'.cells, |c.cells|)
    && (forall i :: !Blocked(c.cells, i, sq, end))
    && Rotated(sq, begin, Offset(begin, end), c'.cells, c.keys, c'.keys)
  }

  /** Everything any other sequence can see is as it was. This is all that a failed `Remove` promises. */
  ghost predicate OthersUntouched(sq: int, c: State, c': State) {
    && |c'.cells| == |c.cells| && c'.keys.Keys == c.keys.Keys
    && (forall l :: l in c.keys ==> |c'.keys[l]| == |c.keys[l]|)
    && (forall i, s :: s != sq ==> (Has(c'.cells, i, s) <==> Has(c.cells, i, s)))
    && (forall i :: Has(c'.cells, i, sq) ==> Has(c.cells, i, sq))
    && (forall i, s :: s != sq && Has(c.cells, i, s) ==> c'.cells[i].pos == c.cells[i].pos)
    && (forall i, s, l :: s != sq && Has(c.cells, i, s) && l in c.keys && i < |c.keys[l]| ==>
          c'.keys[l][i] == c.keys[l][i])
  }

  /** What `CanResume` answers. */
  ghost predicate Resumable(p: Params, cells: seq<Cell>, s: int, pos: int) {
    || p.memory == MAX_INT32
    || ((exists i :: Has(cells, i, s) && (cells[i].pos <= pos - p.window || cells[i].pos <= 0))
        && (exists i :: Has(cells, i, s) && cells[i].pos + 1 >= pos))
  }
}

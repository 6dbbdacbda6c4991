/** Scans over ranges of cells: what each loop of the cache has established so far, on values. */
module KvScan {
  import opened KvCells
  import opened KvSteps
  import opened KvInvariants
  import opened KvCapacity
  import opened KvAttention

  /** `slices.DeleteFunc` for one sequence. */
  function Without(q: seq<int>, s: int): seq<int> {
    if q == [] then []
    else if q[0] == s then Without(q[1..], s)
    else [q[0]] + Without(q[1..], s)
  }

  lemma {:induction false} WithoutIs(q: seq<int>, s: int)
    ensures s !in Without(q, s) && forall x :: x != s ==> (x in Without(q, s) <==> x in q)
    ensures NoDuplicates(q) ==> NoDuplicates(Without(q, s))
  {
    if q != [] {
      WithoutIs(q[1..], s);
      assert NoDuplicates(q) ==> NoDuplicates(q[1..]) && q[0] !in q[1..];
    }
  }

  function Min(a: int, b: int): int {
    if a < b then a else b
  }

  function Max(a: int, b: int): int {
    if a > b then a else b
  }

  /** The range extended to location `i`. */
  function Extend(r: Range, i: int): Range {
    Range(Min(r.min, i), Max(r.max, i))
  }

  function Note(r: Range, i: int, hit: bool): Range {
    if hit then Extend(r, i) else r
  }

  predicate InBounds(r: Range, n: int) {
    r == NewRange() || 0 <= r.min <= r.max < n
  }

  /** `r` covers every cell below `i` that references `s`, except those evicted below `bound`. */
  ghost predicate Hull(cells: seq<Cell>, s: int, bound: int, i: int, r: Range) {
    && (r == NewRange() || 0 <= r.min <= r.max < i)
    && (forall k :: k < i && Has(cells, k, s) && cells[k].pos >= bound ==> r.min <= k <= r.max)
    && (r == NewRange() || (From(cells, s, bound, r.min) && From(cells, s, bound, r.max)))
  }

  /** Cell `i` references `s` at `bound` or later. */
  predicate From(cells: seq<Cell>, s: int, bound: int, i: int) {
    Has(cells, i, s) && cells[i].pos >= bound
  }

  /** `r` is `r0`, or widened to cells that reference `s` at `wanted` or later. */
  ghost predicate WidenedTo(cells: seq<Cell>, s: int, wanted: int, current: bool, r0: Range, r: Range) {
    || r == r0
    || (&& current
        && ((r.min == r0.min && r0 != NewRange()) || From(cells, s, wanted, r.min))
        && ((r.max == r0.max && r0 != NewRange()) || From(cells, s, wanted, r.max)))
  }

  /** The batch sees cell `i`, by the lowest position of some sequence. */
  ghost predicate Sees(p: Params, batch: Batch, cells: seq<Cell>, i: int) {
    exists s :: InBatch(batch, s) && From(cells, s, BatchLow(batch, s) - p.window, i)
  }

  ghost predicate SeenEnds(p: Params, batch: Batch, cells: seq<Cell>, r: Range) {
    r == NewRange() || (Sees(p, batch, cells, r.min) && Sees(p, batch, cells, r.max))
  }

  /** A range that is widened to what the batch sees in one more sequence still ends at cells that it sees. */
  lemma SeenFurther(p: Params, batch: Batch, s: int, low: int, current: bool, was: seq<Cell>, now: seq<Cell>, r0: Range,
                    r: Range)
    requires ValidParams(p) && (current ==> InBatch(batch, s)) && (InBatch(batch, s) ==> low == BatchLow(batch, s))
    requires Dropped(s, low - p.memory, was, now) && WidenedTo(was, s, low - p.window, current, r0, r)
    ensures SeenEnds(p, batch, was, r0) ==> SeenEnds(p, batch, now, r)
  {
    forall i | Sees(p, batch, was, i)
      ensures Sees(p, batch, now, i)
    {
      var t :| InBatch(batch, t) && From(was, t, BatchLow(batch, t) - p.window, i);
      assert From(now, t, BatchLow(batch, t) - p.window, i);
    }
    forall i | current && From(was, s, low - p.window, i)
      ensures Sees(p, batch, was, i)
    {
    }
  }

  /** What the batch sees by its lowest positions is visible to one of its tokens. */
  lemma SeenIsVisible(p: Params, batch: Batch, cells: seq<Cell>, i: int)
    requires ValidBatch(p, batch) && Sees(p, batch, cells, i)
    ensures Visible(p, batch, cells, i)
  {
    var s :| InBatch(batch, s) && From(cells, s, BatchLow(batch, s) - p.window, i);
    BatchLowIs(batch, s);
    var k :| 0 <= k < |batch| && batch[k] == Token(s, BatchLow(batch, s));
    assert batch[k].sq == s;
  }

  /** `r` covers every cell below `i` that references `s` at `wanted` or later. */
  ghost predicate CoversFrom(cells: seq<Cell>, s: int, wanted: int, i: int, r: Range) {
    forall k :: k < i && Has(cells, k, s) && cells[k].pos >= wanted ==> r.min <= k <= r.max
  }

  predicate Widens(r: Range, r': Range, n: int) {
    r'.min <= r.min && r.max <= r'.max && InBounds(r', n)
  }

  /** `s` was dropped from the cells below `bound`; nothing else changed. */
  ghost predicate Dropped(s: int, bound: int, was: seq<Cell>, now: seq<Cell>) {
    && |now| == |was|
    && (forall i :: 0 <= i < |now| ==> now[i].pos == was[i].pos)
    && (forall i, t :: Has(now, i, t) <==> Has(was, i, t) && (t == s ==> was[i].pos >= bound))
  }

  /** Every sequence outside `todo` was evicted; nothing else changed. */
  ghost predicate PartlyEvicted(p: Params, batch: Batch, todo: set<int>, was: seq<Cell>, now: seq<Cell>) {
    && |now| == |was|
    && (forall i :: 0 <= i < |now| ==> now[i].pos == was[i].pos)
    && (forall i, s :: Has(now, i, s) <==> Has(was, i, s) && (s in todo || Kept(p, batch, was, i, s)))
  }

  /** The range covers what the batch's window reaches in the cells of `done`. */
  ghost predicate CoversWindows(p: Params, batch: Batch, done: set<int>, cells: seq<Cell>, r: Range) {
    forall s :: s in done ==> CoversFrom(cells, s, BatchLow(batch, s) - p.window, |cells|, r)
  }

  function EvictCell(cell: Cell, s: int, bound: int): Cell {
    if s in cell.sequences && cell.pos < bound then Cell(cell.pos, Without(cell.sequences, s)) else cell
  }

  /** Everything that any token of the batch can attend to lies in `r`. */
  ghost predicate Complete(p: Params, cells: seq<Cell>, batch: Batch, r: Range) {
    forall k, j :: 0 <= k < |batch| && 0 <= j < |cells| && Attends(p, cells[j], batch[k], false) ==> r.min <= j <= r.max
  }

  lemma AllEvicted(p: Params, batch: Batch, current: set<int>, c: State, c': State, r: Range)
    requires PartlyEvicted(p, batch, {}, c.cells, c'.cells) && c'.keys == c.keys
    requires (forall s :: s in current <==> InBatch(batch, s)) && CoversWindows(p, batch, current, c'.cells, r)
    requires p.memory != MAX_INT32
    ensures Evicted(p, batch, c, c') && Collects(p, batch, c'.cells, r)
  {
    forall i, s | InBatch(batch, s) && Has(c'.cells, i, s) && c'.cells[i].pos >= BatchLow(batch, s) - p.window
      ensures r.min <= i <= r.max
    {
      assert CoversFrom(c'.cells, s, BatchLow(batch, s) - p.window, |c'.cells|, r);
    }
  }

  lemma EvictedOneMore(p: Params, batch: Batch, todo: set<int>, s: int, was: seq<Cell>, mid: seq<Cell>, now: seq<Cell>)
    requires p.memory != MAX_INT32 && s in todo && PartlyEvicted(p, batch, todo, was, mid)
    requires Dropped(s, Lowest(was, batch, s) - p.memory, mid, now)
    ensures PartlyEvicted(p, batch, todo - {s}, was, now)
  {
  }

  lemma CoveredOneMore(p: Params, batch: Batch, current: set<int>, todo: set<int>, s: int, bound: int,
                       mid: seq<Cell>, now: seq<Cell>, r: Range, r': Range)
    requires CoversWindows(p, batch, current - todo, mid, r) && Widens(r, r', |now|) && Dropped(s, bound, mid, now)
    requires s in current ==> CoversFrom(now, s, BatchLow(batch, s) - p.window, |now|, r')
    ensures CoversWindows(p, batch, current - (todo - {s}), now, r')
  {
    forall t | t in current - (todo - {s}) && t != s
      ensures CoversFrom(now, t, BatchLow(batch, t) - p.window, |now|, r')
    {
      assert CoversFrom(mid, t, BatchLow(batch, t) - p.window, |mid|, r);
    }
  }

  lemma UnknownIsEvicted(p: Params, batch: Batch, current: set<int>, todo: set<int>, s: int, c: State, was: seq<Cell>,
                         r: Range)
    requires WellFormed(c) && s !in c.ranges
    requires PartlyEvicted(p, batch, todo, was, c.cells) && CoversWindows(p, batch, current - todo, c.cells, r)
    ensures PartlyEvicted(p, batch, todo - {s}, was, c.cells)
    ensures CoversWindows(p, batch, current - (todo - {s}), c.cells, r)
  {
    assert forall i :: !Has(c.cells, i, s);
  }

  lemma HullStep(cells: seq<Cell>, s: int, bound: int, i: int, r: Range, hit: bool)
    requires 0 <= i < |cells| < MAX_INT && Hull(cells, s, bound, i, r)
    requires hit <==> s in cells[i].sequences && cells[i].pos >= bound
    ensures Hull(cells, s, bound, i + 1, Note(r, i, hit))
  {
  }

  lemma CoverStep(cells: seq<Cell>, s: int, wanted: int, i: int, r0: Range, r: Range, hit: bool)
    requires 0 <= i < |cells| < MAX_INT && Widens(r0, r, |cells|)
    ensures Widens(r0, Note(r, i, hit), |cells|)
    ensures CoversFrom(cells, s, wanted, i, r) && (s in cells[i].sequences && cells[i].pos >= wanted ==> hit) ==>
              CoversFrom(cells, s, wanted, i + 1, Note(r, i, hit))
  {
  }

  lemma WidenStep(cells: seq<Cell>, s: int, wanted: int, current: bool, i: int, r0: Range, r: Range, hit: bool)
    requires 0 <= i < |cells| < MAX_INT && InBounds(r0, |cells|) && Widens(r0, r, |cells|)
    requires WidenedTo(cells, s, wanted, current, r0, r) && (hit ==> current && From(cells, s, wanted, i))
    ensures WidenedTo(cells, s, wanted, current, r0, Note(r, i, hit))
  {
  }

  /** The cells below `i` are evicted, the others as they were. */
  predicate EvictedUpTo(was: seq<Cell>, now: seq<Cell>, s: int, bound: int, i: int) {
    && |now| == |was|
    && (forall k :: 0 <= k < |was| && k < i ==> now[k] == EvictCell(was[k], s, bound))
    && (forall k :: 0 <= k < |was| && i <= k ==> now[k] == was[k])
  }

  /** Both ranges cover what they should of the cells below `i`. */
  ghost predicate ScannedUpTo(was: seq<Cell>, s: int, bound: int, wanted: int, current: bool, cur0: Range, i: int,
                              seen: Range, cur: Range) {
    && Hull(was, s, bound, i, seen) && Widens(cur0, cur, |was|) && (current ==> CoversFrom(was, s, wanted, i, cur))
    && InBounds(cur0, |was|) && WidenedTo(was, s, wanted, current, cur0, cur)
  }

  lemma NothingScanned(was: seq<Cell>, s: int, bound: int, wanted: int, current: bool, r: Range, cur0: Range)
    requires InBounds(r, |was|) && InBounds(cur0, |was|)
    requires forall i :: Has(was, i, s) ==> r.min <= i <= r.max
    ensures EvictedUpTo(was, was, s, bound, r.min)
    ensures ScannedUpTo(was, s, bound, wanted, current, cur0, if r.min <= r.max then r.min else 0, NewRange(), cur0)
  {
    forall k | 0 <= k < |was| && k < r.min
      ensures was[k] == EvictCell(was[k], s, bound)
    {
      assert !Has(was, k, s);
    }
  }

  lemma ScannedOneMore(was: seq<Cell>, s: int, bound: int, wanted: int, current: bool, cur0: Range, i: int,
                       seen: Range, cur: Range, kept: bool, visible: bool)
    requires 0 <= i < |was| < MAX_INT && ScannedUpTo(was, s, bound, wanted, current, cur0, i, seen, cur)
    requires kept <==> s in was[i].sequences && was[i].pos >= bound
    requires visible <==> current && s in was[i].sequences && was[i].pos >= wanted
    ensures ScannedUpTo(was, s, bound, wanted, current, cur0, i + 1, Note(seen, i, kept), Note(cur, i, visible))
  {
    HullStep(was, s, bound, i, seen, kept);
    CoverStep(was, s, wanted, i, cur0, cur, visible);
    WidenStep(was, s, wanted, current, i, cur0, cur, visible);
  }

  lemma EvictedFurther(was: seq<Cell>, now: seq<Cell>, next: seq<Cell>, s: int, bound: int, i: int)
    requires 0 <= i < |was| && EvictedUpTo(was, now, s, bound, i)
    requires next == now[i := EvictCell(now[i], s, bound)]
    ensures EvictedUpTo(was, next, s, bound, i + 1)
  {
  }

  lemma ScannedAll(was: seq<Cell>, now: seq<Cell>, s: int, bound: int, wanted: int, current: bool, r: Range,
                   cur0: Range, i: int, seen: Range, cur: Range)
    requires InBounds(r, |was|) && (forall k :: Has(was, k, s) ==> r.min <= k <= r.max) && i > r.max
    requires r.min <= i && (r.min <= r.max ==> i <= r.max + 1) && |was| < MAX_INT
    requires EvictedUpTo(was, now, s, bound, i)
    requires ScannedUpTo(was, s, bound, wanted, current, cur0, if r.min <= r.max then i else 0, seen, cur)
    ensures forall k :: 0 <= k < |was| ==> now[k] == EvictCell(was[k], s, bound)
    ensures ScannedUpTo(was, s, bound, wanted, current, cur0, |was|, seen, cur)
  {
    forall k | 0 <= k < |was|
      ensures now[k] == EvictCell(was[k], s, bound)
    {
      if k >= i {
        assert !Has(was, k, s);
      }
    }
  }

  lemma EvictedStaysWellFormed(c: State, c': State, s: int, bound: int)
    requires WellFormed(c) && s in c.ranges && |c'.cells| == |c.cells| && c'.keys == c.keys
    requires forall i :: 0 <= i < |c.cells| ==> c'.cells[i] == EvictCell(c.cells[i], s, bound)
    requires s in c'.ranges && c'.ranges == c.ranges[s := c'.ranges[s]]
    requires Hull(c.cells, s, bound, |c.cells|, c'.ranges[s])
    ensures WellFormed(c')
    ensures forall i, t :: Has(c'.cells, i, t) <==> Has(c.cells, i, t) && (t == s ==> c.cells[i].pos >= bound)
    ensures forall t :: t == s || ExactIndex(c, t) ==> ExactIndex(c', t)
  {
    forall i | 0 <= i < |c.cells| {
      WithoutIs(c.cells[i].sequences, s);
    }
    forall i, t | Has(c'.cells, i, t)
      ensures t in c'.ranges && c'.ranges[t].min <= i <= c'.ranges[t].max && 0 <= c'.cells[i].pos < MAX_INT32
    {
      assert Has(c.cells, i, t);
    }
  }

  lemma {:induction false} DistinctCount(locs: seq<int>, free: set<int>)
    requires forall j, k :: 0 <= j < k < |locs| ==> locs[j] < locs[k]
    requires forall k :: 0 <= k < |locs| ==> locs[k] in free
    ensures |locs| <= |free|
    ensures (forall x :: x in free ==> x in locs) ==> |locs| == |free|
  {
    if locs == [] {
      assert (forall x :: x in free ==> x in locs) ==> free == {};
    } else {
      var n := |locs| - 1;
      assert locs == locs[..n] + [locs[n]];
      assert forall x :: x in locs ==> x in locs[..n] || x == locs[n];
      DistinctCount(locs[..n], free - {locs[n]});
    }
  }

  lemma {:induction false} MaxPosOutside(cells: seq<Cell>, n: nat, s: int, m: nat)
    requires m <= n <= |cells|
    requires forall i :: m <= i < n ==> !Has(cells, i, s)
    ensures MaxPos(cells, n, s) == MaxPos(cells, m, s)
    decreases n
  {
    if m < n {
      MaxPosOutside(cells, n - 1, s, m);
    }
  }

  // ---------------------------------------------------------------- storing a batch

  lemma StoredOneMore(c: State, c': State, loc: int, t: Token)
    requires WellFormed(c) && Free(c.cells, loc) && 0 <= t.pos < MAX_INT32 && c'.keys == c.keys
    requires c'.cells == c.cells[loc := Cell(t.pos, [t.sq])]
    requires c'.ranges == c.ranges[t.sq := Extend(if t.sq in c.ranges then c.ranges[t.sq] else NewRange(), loc)]
    ensures WellFormed(c')
    ensures forall s :: ExactIndex(c, s) ==> ExactIndex(c', s)
  {
    forall i, s | Has(c'.cells, i, s)
      ensures s in c'.ranges && c'.ranges[s].min <= i <= c'.ranges[s].max && 0 <= c'.cells[i].pos < MAX_INT32
    {
      if i != loc {
        assert Has(c.cells, i, s);
      }
    }
  }

  /** The first `k` tokens are stored, and nothing else changed. */
  ghost predicate StoredUpTo(batch: Batch, locs: seq<int>, k: int, was: seq<Cell>, now: seq<Cell>) {
    && |now| == |was| && |locs| == |batch| && FirstFit(was, locs) && 0 <= k <= |batch|
    && (forall j :: 0 <= j < k ==> now[locs[j]] == Cell(batch[j].pos, [batch[j].sq]))
    && (forall i :: 0 <= i < |was| && i !in locs[..k] ==> now[i] == was[i])
  }

  lemma NextIsFree(batch: Batch, locs: seq<int>, k: int, was: seq<Cell>, now: seq<Cell>)
    requires StoredUpTo(batch, locs, k, was, now) && k < |batch|
    ensures Free(now, locs[k]) && locs[k] !in locs[..k]
  {
    assert Free(was, locs[k]);
  }

  lemma StoredFurther(batch: Batch, locs: seq<int>, k: int, was: seq<Cell>, now: seq<Cell>, next: seq<Cell>)
    requires StoredUpTo(batch, locs, k, was, now) && k < |batch|
    requires 0 <= locs[k] < |now| && next == now[locs[k] := Cell(batch[k].pos, [batch[k].sq])]
    ensures StoredUpTo(batch, locs, k + 1, was, next)
  {
    assert locs[..k + 1] == locs[..k] + [locs[k]];
  }

  lemma StoredAll(batch: Batch, locs: seq<int>, was: seq<Cell>, now: seq<Cell>)
    requires StoredUpTo(batch, locs, |batch|, was, now)
    ensures forall k :: 0 <= k < |batch| ==> now[locs[k]] == Cell(batch[k].pos, [batch[k].sq])
    ensures forall i :: 0 <= i < |was| && i !in locs ==> now[i] == was[i]
  {
    assert locs[..|batch|] == locs;
  }

  /** After the batch is stored, the collected range holds everything it can attend to. */
  lemma WindowIsComplete(p: Params, batch: Batch, locs: seq<int>, e: State, c': State, r: Range)
    requires Placed(batch, locs, e, c') && Collects(p, batch, e.cells, r)
    requires forall i :: i in locs ==> r.min <= i <= r.max
    ensures Complete(p, c'.cells, batch, r)
  {
    forall k, j | 0 <= k < |batch| && 0 <= j < |c'.cells| && Attends(p, c'.cells[j], batch[k], false)
      ensures r.min <= j <= r.max
    {
      RangeIsComplete(p, batch, locs, e, c', r, k, j, false);
    }
  }

  // ---------------------------------------------------------------- prefix copies

  /** `r` covers every cell below `i` that references `src` before `len`. */
  ghost predicate CoversBelow(cells: seq<Cell>, src: int, len: int, i: int, r: Range) {
    forall k :: k < i && Has(cells, k, src) && cells[k].pos < len ==> r.min <= k <= r.max
  }

  /** The sequences of a cell once `dst` was taken out. */
  function Rest(cell: Cell, dst: int): seq<int> {
    if dst in cell.sequences then Without(cell.sequences, dst) else cell.sequences
  }

  predicate CopyHits(cell: Cell, src: int, dst: int, len: int) {
    src in Rest(cell, dst) && cell.pos < len
  }

  function CopyCell(cell: Cell, src: int, dst: int, len: int): Cell {
    Cell(cell.pos, if CopyHits(cell, src, dst, len) then Rest(cell, dst) + [dst] else Rest(cell, dst))
  }

  /** `r` starts and ends at copied cells. */
  ghost predicate CopyEnds(cells: seq<Cell>, src: int, dst: int, len: int, r: Range) {
    || r == NewRange()
    || (0 <= r.min <= r.max < |cells| && CopyHits(cells[r.min], src, dst, len) && CopyHits(cells[r.max], src, dst, len))
  }

  lemma CoversOneMore(cells: seq<Cell>, src: int, dst: int, len: int, i: int, r: Range)
    requires 0 <= i < |cells| < MAX_INT && InBounds(r, |cells|)
    ensures var r' := Note(r, i, CopyHits(cells[i], src, dst, len));
            InBounds(r', |cells|)
            && (src != dst && CoversBelow(cells, src, len, i, r) ==> CoversBelow(cells, src, len, i + 1, r'))
            && (CopyEnds(cells, src, dst, len, r) ==> CopyEnds(cells, src, dst, len, r'))
  {
    WithoutIs(cells[i].sequences, dst);
  }

  lemma CopyCellIs(cell: Cell, src: int, dst: int, len: int)
    ensures var cell' := CopyCell(cell, src, dst, len);
            && (forall s :: s != dst ==> (s in cell'.sequences <==> s in cell.sequences))
            && (dst in cell'.sequences <==> src != dst && src in cell.sequences && cell.pos < len)
            && (NoDuplicates(cell.sequences) ==> NoDuplicates(cell'.sequences))
  {
    WithoutIs(cell.sequences, dst);
  }

  lemma CopyCellsCopied(src: int, dst: int, len: int, c: State, c': State)
    requires WellFormed(c) && |c'.cells| == |c.cells| && c'.keys == c.keys
    requires forall i :: 0 <= i < |c.cells| ==> c'.cells[i] == CopyCell(c.cells[i], src, dst, len)
    requires dst in c'.ranges && c'.ranges == c.ranges[dst := c'.ranges[dst]]
    requires InBounds(c'.ranges[dst], |c.cells|)
    requires (src != dst ==> CoversBelow(c.cells, src, len, |c.cells|, c'.ranges[dst]))
    requires CopyEnds(c.cells, src, dst, len, c'.ranges[dst])
    ensures Copied(src, dst, len, c, c') && WellFormed(c')
    ensures forall t :: t == dst || ExactIndex(c, t) ==> ExactIndex(c', t)
  {
    forall i | 0 <= i < |c.cells| {
      CopyCellIs(c.cells[i], src, dst, len);
    }
    assert Copied(src, dst, len, c, c');
    forall i, s | Has(c'.cells, i, s)
      ensures 0 <= c'.cells[i].pos < MAX_INT32 && s in c'.ranges && c'.ranges[s].min <= i <= c'.ranges[s].max
    {
      assert Has(c.cells, i, if s == dst then src else s);
    }
  }

  // ---------------------------------------------------------------- removal

  function RemoveCell(cell: Cell, sq: int, begin: int, end: int): Cell {
    if sq !in cell.sequences then cell
    else if begin <= cell.pos < end then Cell(cell.pos, Without(cell.sequences, sq))
    else if cell.pos >= end then Cell(cell.pos + Offset(begin, end), cell.sequences)
    else cell
  }

  lemma RemoveCellIs(cell: Cell, sq: int, begin: int, end: int)
    ensures var cell' := RemoveCell(cell, sq, begin, end);
            && (forall s :: s != sq ==> (s in cell'.sequences <==> s in cell.sequences))
            && (sq in cell'.sequences <==> sq in cell.sequences && !(begin <= cell.pos < end))
            && (NoDuplicates(cell.sequences) ==> NoDuplicates(cell'.sequences))
  {
    WithoutIs(cell.sequences, sq);
  }

  lemma RemoveCellsScanned(sq: int, begin: int, end: int, cells: seq<Cell>, cells': seq<Cell>)
    requires |cells'| == |cells| && begin <= end
    requires forall i :: 0 <= i < |cells| ==> cells'[i] == RemoveCell(cells[i], sq, begin, end)
    ensures Scanned(sq, begin, end, cells, cells', |cells|)
  {
    forall i | 0 <= i < |cells| {
      RemoveCellIs(cells[i], sq, begin, end);
    }
  }

  /** The cells changed at most as `Remove` changes them, and nothing that others share was renumbered. */
  ghost predicate PartlyRemoved(sq: int, begin: int, end: int, cells: seq<Cell>, cells': seq<Cell>) {
    && |cells'| == |cells|
    && forall i :: 0 <= i < |cells| ==>
         cells'[i] == cells[i] || (cells'[i] == RemoveCell(cells[i], sq, begin, end) && !Blocked(cells, i, sq, end))
  }

  lemma PartlyRemovedIs(sq: int, begin: int, end: int, c: State, c': State)
    requires WellFormed(c) && 0 <= begin <= end && PartlyRemoved(sq, begin, end, c.cells, c'.cells)
    ensures forall i, s :: s != sq ==> (Has(c'.cells, i, s) <==> Has(c.cells, i, s))
    ensures forall i :: Has(c'.cells, i, sq) ==> Has(c.cells, i, sq)
    ensures forall i, s :: s != sq && Has(c.cells, i, s) ==> c'.cells[i].pos == c.cells[i].pos
    ensures forall i, s :: Has(c'.cells, i, s) ==> 0 <= c'.cells[i].pos < MAX_INT32
    ensures forall i :: 0 <= i < |c.cells| ==> NoDuplicates(c'.cells[i].sequences)
  {
    forall i | 0 <= i < |c.cells| {
      RemoveCellIs(c.cells[i], sq, begin, end);
    }
    forall i, s | s != sq && Has(c.cells, i, s)
      ensures c'.cells[i].pos == c.cells[i].pos
    {
      assert c'.cells[i] == c.cells[i] || !Blocked(c.cells, i, sq, end);
    }
    forall i, s | Has(c'.cells, i, s)
      ensures 0 <= c'.cells[i].pos < MAX_INT32
    {
      assert Has(c.cells, i, s);
    }
  }

  lemma PartlyRemovedWellFormed(sq: int, begin: int, end: int, c: State, c': State)
    requires WellFormed(c) && 0 <= begin <= end && PartlyRemoved(sq, begin, end, c.cells, c'.cells)
    requires forall l :: l in c'.keys ==> |c'.keys[l]| == |c.cells|
    requires forall s :: s != sq ==>
               (s in c.ranges <==> s in c'.ranges) && (s in c.ranges ==> c'.ranges[s] == c.ranges[s])
    requires if sq in c'.ranges then
               && InBounds(c'.ranges[sq], |c.cells|)
               && forall i :: Has(c'.cells, i, sq) ==> c'.ranges[sq].min <= i <= c'.ranges[sq].max
                                else forall i :: !Has(c'.cells, i, sq)
    ensures WellFormed(c')
  {
    PartlyRemovedIs(sq, begin, end, c, c');
    forall i, s | Has(c'.cells, i, s)
      ensures s in c'.ranges && c'.ranges[s].min <= i <= c'.ranges[s].max
    {
      assert s != sq ==> Has(c.cells, i, s);
    }
  }

  predicate Survives(cells: seq<Cell>, sq: int, begin: int, end: int, i: int) {
    Has(cells, i, sq) && !(begin <= cells[i].pos < end)
  }

  /** `r` covers every cell below `i` that still references `sq` after the removal, and ends at such cells. */
  ghost predicate Survivors(cells: seq<Cell>, sq: int, begin: int, end: int, i: int, r: Range) {
    && (forall k :: k < i && Has(cells, k, sq) && !(begin <= cells[k].pos < end) ==> r.min <= k <= r.max)
    && (r == NewRange() || (Survives(cells, sq, begin, end, r.min) && Survives(cells, sq, begin, end, r.max)))
  }

  /** The index after a removal: recomputed for its own sequence, the same for the others. */
  lemma RemovedIndex(sq: int, begin: int, end: int, c: State, c': State, seen: Range)
    requires WellFormed(c) && Scanned(sq, begin, end, c.cells, c'.cells, |c.cells|)
    requires Survivors(c.cells, sq, begin, end, |c.cells|, seen)
    requires c'.ranges == if seen == NewRange() then c.ranges - {sq} else c.ranges[sq := seen]
    ensures forall t :: t == sq || ExactIndex(c, t) ==> ExactIndex(c', t)
    ensures sq in c'.ranges <==> exists i :: Has(c'.cells, i, sq)
  {
    if i :| Has(c'.cells, i, sq) {
      assert Survives(c.cells, sq, begin, end, i);
    }
    if sq in c'.ranges {
      assert Has(c'.cells, seen.min, sq);
    }
  }

  lemma SurvivorsOneMore(cells: seq<Cell>, sq: int, begin: int, end: int, i: int, r: Range)
    requires 0 <= i < |cells| < MAX_INT && InBounds(r, |cells|) && Survivors(cells, sq, begin, end, i, r)
    ensures InBounds(Extend(r, i), |cells|)
    ensures var hit := sq in cells[i].sequences && !(begin <= cells[i].pos < end);
            Survivors(cells, sq, begin, end, i + 1, if hit then Extend(r, i) else r)
  {
    assert sq in cells[i].sequences ==> Has(cells, i, sq);
  }

  lemma NothingToRotate(sq: int, begin: int, end: int, c: State)
    requires WellFormed(c) && (sq !in c.ranges || end == MAX_INT32)
    ensures Rotated(sq, begin, Offset(begin, end), c.cells, c.keys, c.keys)
  {
    assert forall i :: ShiftOf(c.cells, i, sq, begin, Offset(begin, end)) == 0;
  }

  /** A rotation that stopped half way has touched rows of its own sequence only. */
  lemma FailedShift(sq: int, begin: int, end: int, c: State, mid: State, c': State, lo: int, hi: int)
    requires WellFormed(c) && 0 <= begin <= end && PartlyRemoved(sq, begin, end, c.cells, mid.cells)
    requires mid.keys == c.keys
    requires forall i :: !Blocked(c.cells, i, sq, end)
    requires Scanned(sq, begin, end, c.cells, mid.cells, |c.cells|)
    requires c'.cells == mid.cells
    requires RotatedIn(sq, begin, begin - end, mid.cells, lo, hi, mid.keys, c'.keys)
    ensures OthersUntouched(sq, c, c')
  {
    PartlyRemovedIs(sq, begin, end, c, mid);
    forall i, s, l | s != sq && Has(c.cells, i, s) && l in c.keys && i < |c.keys[l]|
      ensures c'.keys[l][i] == c.keys[l][i]
    {
      assert !Blocked(c.cells, i, sq, end);
    }
  }

  // ---------------------------------------------------------------- rotation

  /** Rows `lo..hi` of every layer were rotated where they hold `sq` from `begin` on; all other rows are as before. */
  ghost predicate RotatedIn(sq: int, begin: int, offset: int, cells: seq<Cell>, lo: int, hi: int,
                            keys: map<int, seq<int>>, keys': map<int, seq<int>>) {
    && keys'.Keys == keys.Keys
    && (forall l :: l in keys ==> |keys'[l]| == |keys[l]|)
    && (forall l, i {:trigger keys'[l][i]} {:trigger keys[l][i]} :: l in keys && 0 <= i < |keys[l]| ==>
          keys'[l][i] == keys[l][i] + if lo <= i < hi then ShiftOf(cells, i, sq, begin, offset) else 0)
  }

  lemma ChunkRotated(sq: int, begin: int, offset: int, cells: seq<Cell>, start: int, size: int, offsets: seq<int>,
                     first: int, last: int,
                     keys: map<int, seq<int>>, keys': map<int, seq<int>>)
    requires 0 <= start && |offsets| == size && start + size <= |cells| && 0 <= first <= last < size
    requires forall l :: l in keys ==> |keys[l]| == |cells|
    requires forall k :: 0 <= k < size ==> offsets[k] == ShiftOf(cells, start + k, sq, begin, offset)
    requires forall i :: start <= i < start + size && Has(cells, i, sq) && cells[i].pos >= begin ==>
               start + first <= i <= start + last
    requires keys'.Keys == keys.Keys
    requires forall l :: l in keys ==> keys'[l] == RotateRows(keys[l], start + first, offsets[first..last + 1])
    ensures RotatedIn(sq, begin, offset, cells, start, start + size, keys, keys')
  {
    forall l, i | l in keys && 0 <= i < |keys[l]|
      ensures keys'[l][i] == keys[l][i] + if start <= i < start + size then ShiftOf(cells, i, sq, begin, offset) else 0
    {
      if start + first <= i <= start + last {
        assert offsets[first..last + 1][i - start - first] == offsets[i - start];
      }
    }
  }

  lemma RotatedFurther(sq: int, begin: int, offset: int, cells: seq<Cell>, lo: int, mid: int, hi: int,
                       a: map<int, seq<int>>, b: map<int, seq<int>>, c: map<int, seq<int>>)
    requires lo <= mid <= hi
    requires RotatedIn(sq, begin, offset, cells, lo, mid, a, b) && RotatedIn(sq, begin, offset, cells, mid, hi, b, c)
    ensures RotatedIn(sq, begin, offset, cells, lo, hi, a, c)
  {
    forall l, i | l in a && 0 <= i < |a[l]|
      ensures c[l][i] == a[l][i] + if lo <= i < hi then ShiftOf(cells, i, sq, begin, offset) else 0
    {
      assert b[l][i] == a[l][i] + if lo <= i < mid then ShiftOf(cells, i, sq, begin, offset) else 0;
      assert c[l][i] == b[l][i] + if mid <= i < hi then ShiftOf(cells, i, sq, begin, offset) else 0;
    }
  }

  lemma RotatedAll(sq: int, begin: int, offset: int, cells: seq<Cell>, lo: int, hi: int, hi': int,
                   a: map<int, seq<int>>, b: map<int, seq<int>>)
    requires RotatedIn(sq, begin, offset, cells, lo, hi, a, b) && hi <= hi'
    requires forall i :: Has(cells, i, sq) ==> lo <= i < hi
    ensures RotatedIn(sq, begin, offset, cells, lo, hi', a, b) && Rotated(sq, begin, offset, cells, a, b)
  {
    forall l, i | l in a && 0 <= i < |a[l]|
      ensures b[l][i] == a[l][i] + ShiftOf(cells, i, sq, begin, offset)
      ensures b[l][i] == a[l][i] + if lo <= i < hi' then ShiftOf(cells, i, sq, begin, offset) else 0
    {
      assert b[l][i] == a[l][i] + if lo <= i < hi then ShiftOf(cells, i, sq, begin, offset) else 0;
    }
  }

  /** `shiftFn` on a view of the rows from `first` on. */
  function RotateRows(row: seq<int>, first: int, offsets: seq<int>): (r: seq<int>)
    ensures |r| == |row|
  {
    seq(|row|, i requires 0 <= i < |row| =>
      if first <= i < first + |offsets| then row[i] + offsets[i - first] else row[i])
  }

  // ---------------------------------------------------------------- exempt tokens

  /** A mask for one option is the mask for another if and only if the two ask for the same mask. */
  lemma StaleIff(p: Params, cells: seq<Cell>, batch: Batch, r: Range, except: seq<int>, except': seq<int>,
                 mask: seq<seq<bool>>)
    requires Span(r, |cells|) && Complete(p, cells, batch, r)
    ensures MaskExact(p, cells, batch, except, r, mask) ==>
              (MaskExact(p, cells, batch, except', r, mask) <==> SameMask(p, cells, batch, r, except, except'))
  {
  }

  /** Two tokens of one sequence. */
  const PAIR: Batch := [Token(0, 0), Token(0, 1)]

  /** Once they are stored, it makes a difference whether the first is exempt from causality. */
  lemma PairDiffers(p: Params, locs: seq<int>, e: State, c: State, r: Range)
    requires ValidParams(p) && p.chunk == 0 && Placed(PAIR, locs, e, c) && Span(r, |c.cells|)
    requires Complete(p, c.cells, PAIR, r)
    ensures !SameMask(p, c.cells, PAIR, r, [], [0])
  {
    var j := locs[1];
    assert Free(e.cells, locs[1]);
    assert c.cells[j] == Cell(1, [0]);
    assert Attends(p, c.cells[j], PAIR[0], false) && !Attends(p, c.cells[j], PAIR[0], true);
  }

  lemma EvictedStaysEmpty(p: Params, batch: Batch, c: State, e: State)
    requires Evicted(p, batch, c, e) && forall i :: 0 <= i < |c.cells| ==> c.cells[i].sequences == []
    ensures |FreeCells(e.cells)| == |c.cells|
  {
    forall i, s
      ensures !Has(e.cells, i, s)
    {
      assert !Has(c.cells, i, s);
    }
    FreeOrUsed(e.cells, {});
    assert Used(e.cells, {}) == {};
  }

  /** A removal is blocked somewhere if and only if a cell to be renumbered is shared. */
  lemma BlockedIsShared(cells: seq<Cell>, sq: int, end: int)
    ensures (forall i :: !Blocked(cells, i, sq, end)) <==> NoneShared(cells, sq, end)
  {
    if i :| Blocked(cells, i, sq, end) {
      var s :| Has(cells, i, s) && s != sq;
    }
    forall i, s | Has(cells, i, sq) && Has(cells, i, s) && cells[i].pos >= end && s != sq
      ensures Blocked(cells, i, sq, end)
    {
    }
  }

  // ---------------------------------------------------------------- ranges no larger than needed

  /** `i` is an end of the range of some sequence of the batch. */
  ghost predicate SomeEnd(batch: Batch, ranges: map<int, Range>, i: int) {
    exists k :: 0 <= k < |batch| && batch[k].sq in ranges && ranges[batch[k].sq] != NewRange()
                && (i == ranges[batch[k].sq].min || i == ranges[batch[k].sq].max)
  }

  ghost predicate EndsVisible(p: Params, batch: Batch, cells: seq<Cell>, r: Range) {
    r == NewRange() || (Visible(p, batch, cells, r.min) && Visible(p, batch, cells, r.max))
  }

  lemma RangeEndsVisible(p: Params, batch: Batch, c: State, r: Range)
    requires p.memory == MAX_INT32
    requires r == NewRange() || (SomeEnd(batch, c.ranges, r.min) && SomeEnd(batch, c.ranges, r.max))
    ensures AllExact(batch, c) ==> EndsVisible(p, batch, c.cells, r)
  {
    forall i | AllExact(batch, c) && SomeEnd(batch, c.ranges, i)
      ensures Visible(p, batch, c.cells, i)
    {
      var k :| 0 <= k < |batch| && batch[k].sq in c.ranges && c.ranges[batch[k].sq] != NewRange()
               && (i == c.ranges[batch[k].sq].min || i == c.ranges[batch[k].sq].max);
      assert ExactIndex(c, batch[k].sq);
    }
  }

  lemma SeenEndsVisible(p: Params, batch: Batch, cells: seq<Cell>, r: Range)
    requires ValidBatch(p, batch) && SeenEnds(p, batch, cells, r)
    ensures EndsVisible(p, batch, cells, r)
  {
    if r != NewRange() {
      SeenIsVisible(p, batch, cells, r.min);
      SeenIsVisible(p, batch, cells, r.max);
    }
  }

  /** `r` is `r0` widened to the first `n` new cells. */
  predicate WidenedBy(locs: seq<int>, n: int, r0: Range, r: Range, size: int)
    requires n <= |locs|
  {
    && Widens(r0, r, size) && (forall j :: 0 <= j < n ==> r.min <= locs[j] <= r.max)
    && (n <= 0 ==> r == r0)
    && (n > 0 ==> ((r.min == r0.min && r0 != NewRange()) || r.min in locs[..n])
                  && ((r.max == r0.max && r0 != NewRange()) || r.max in locs[..n]))
  }

  lemma WidenedFurther(locs: seq<int>, n: nat, r0: Range, r: Range, size: int)
    requires n < |locs| && InBounds(r0, size) && WidenedBy(locs, n, r0, r, size) && 0 <= locs[n] < size < MAX_INT
    ensures WidenedBy(locs, n + 1, r0, Extend(r, locs[n]), size)
  {
    assert locs[..n + 1] == locs[..n] + [locs[n]];
  }

  /** Both ends are new cells, or cells that the batch sees. */
  ghost predicate NeededEnds(p: Params, batch: Batch, locs: seq<int>, e: State, r: Range) {
    && (r.min in locs || Visible(p, batch, e.cells, r.min))
    && (r.max in locs || Visible(p, batch, e.cells, r.max))
  }

  lemma EndsAreNeeded(p: Params, batch: Batch, locs: seq<int>, e: State, r0: Range, r: Range)
    requires locs != [] && WidenedBy(locs, |locs|, r0, r, |e.cells|)
    ensures EndsVisible(p, batch, e.cells, r0) ==> NeededEnds(p, batch, locs, e, r)
  {
    assert locs[..|locs|] == locs;
  }

  lemma NeededIsPadded(p: Params, batch: Batch, locs: seq<int>, e: State, r: Range, size: int)
    requires p.padding > 0 && Span(r, size) && size % p.padding == 0 && NeededEnds(p, batch, locs, e, r)
    ensures RangeIsNeeded(p, batch, locs, e, Padded(r, p.padding))
  {
    PaddedIs(r, p.padding, size);
    assert PaddedAround(Padded(r, p.padding), r.min, r.max, p.padding);
  }

  // ---------------------------------------------------------------- one sequence

  /** `lowest` holds the lowest position of each sequence of the batch. */
  ghost predicate LowestOf(batch: Batch, lowest: map<int, int>) {
    && (forall s :: s in lowest <==> InBatch(batch, s))
    && (forall s :: if s in lowest then lowest[s] == BatchLow(batch, s) else BatchLow(batch, s) == MAX_INT32)
  }

  lemma LowestFurther(batch: Batch, t: Token, lowest: map<int, int>)
    requires LowestOf(batch, lowest) && t.pos < MAX_INT32
    ensures var low := if t.sq !in lowest then t.pos else if t.pos < lowest[t.sq] then t.pos else lowest[t.sq];
            LowestOf(batch + [t], lowest[t.sq := low])
  {
    var more := batch + [t];
    assert more[..|more| - 1] == batch && more[|more| - 1] == t;
    forall s
      ensures InBatch(more, s) <==> InBatch(batch, s) || s == t.sq
    {
      if k :| 0 <= k < |batch| && batch[k].sq == s {
        assert more[k].sq == s;
      }
    }
  }

  /** Everything that the eviction of one sequence keeps. */
  lemma SequenceEvicted(p: Params, batch: Batch, c: State, c': State, s: int, low: int, current: bool, r0: Range,
                        r: Range)
    requires ValidParams(p) && WellFormed(c) && s in c.ranges && |c'.cells| == |c.cells| && c'.keys == c.keys
    requires forall i :: 0 <= i < |c.cells| ==> c'.cells[i] == EvictCell(c.cells[i], s, low - p.memory)
    requires s in c'.ranges && c'.ranges == c.ranges[s := c'.ranges[s]]
    requires Hull(c.cells, s, low - p.memory, |c.cells|, c'.ranges[s])
    requires (current ==> InBatch(batch, s)) && (InBatch(batch, s) ==> low == BatchLow(batch, s))
    requires current ==> CoversFrom(c.cells, s, low - p.window, |c.cells|, r)
    requires WidenedTo(c.cells, s, low - p.window, current, r0, r)
    ensures WellFormed(c') && Dropped(s, low - p.memory, c.cells, c'.cells)
    ensures forall t :: t == s || ExactIndex(c, t) ==> ExactIndex(c', t)
    ensures SeenEnds(p, batch, c.cells, r0) ==> SeenEnds(p, batch, c'.cells, r)
    ensures current ==> CoversFrom(c'.cells, s, low - p.window, |c'.cells|, r)
  {
    EvictedStaysWellFormed(c, c', s, low - p.memory);
    SeenFurther(p, batch, s, low, current, c.cells, c'.cells, r0, r);
  }
}

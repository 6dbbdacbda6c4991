/** The causal cache itself: cells in an array, updated in place by loops over ranges. */
module KvCausal {
  import opened KvCells
  import opened KvSteps
  import opened KvInvariants
  import opened KvCapacity
  import opened KvAttention
  import opened KvScan

  class Causal {
    const p: Params
    const canShift: bool
    const cells: array<Cell>
    var ranges: map<int, Range>
    var keys: map<int, seq<int>>

    // the current forward pass
    var curBatch: Batch
    var curLoc: seq<int>
    var curRange: Range
    var curMask: seq<seq<bool>>
    var except: seq<int>

    ghost function View(): State
      reads this, cells
    {
      State(cells[..], ranges, keys)
    }

    /** What `Init` fixed. */
    predicate Sized() {
      ValidParams(p) && cells.Length % p.padding == 0
    }

    ghost predicate Valid()
      reads this, cells
    {
      Sized() && WellFormed(View())
    }

    /** A forward pass is under way: its range is padded, inside the array, and complete. */
    ghost predicate InForward()
      reads this, cells
    {
      && Span(curRange, cells.Length)
      && 0 < p.padding && Padded(curRange, p.padding) == curRange
      && Complete(p, cells[..], curBatch, curRange)
    }

    constructor (window0: nat, memory0: nat, chunk: nat, padding0: nat, maxSequences: nat, capacity: nat, maxBatch: nat,
                 canShift: bool)
      requires window0 <= MAX_INT32 && memory0 <= MAX_INT32 && 0 < maxBatch
      requires var r := Init(window0, memory0, padding0, maxSequences, capacity, maxBatch); r.Sized? && r.size < MAX_INT
      ensures Valid() && fresh(cells)
      ensures forall layers :: Inv(View(), {}, layers)
      ensures keys == map[] && ranges == map[] && forall i :: 0 <= i < cells.Length ==> cells[i].sequences == []
      ensures Configured(window0, memory0, padding0, maxSequences, capacity, maxBatch,
                         p.window, p.memory, p.padding, cells.Length)
      ensures p.chunk == chunk && p.maxBatch == maxBatch && this.canShift == canShift
    {
      var r := Init(window0, memory0, padding0, maxSequences, capacity, maxBatch);
      InitSizes(window0, memory0, padding0, maxSequences, capacity, maxBatch);
      p := Params(r.window, r.memory, chunk, r.padding, maxBatch);
      this.canShift := canShift;
      cells := new Cell[r.size](_ => Cell(0, []));
      ranges := map[];
      keys := map[];
      curBatch, curLoc, curRange, curMask, except := [], [], NewRange(), [], [];
    }

    /** The `n` lowest unreferenced cells; fails exactly when there are fewer. */
    method FindLocs(n: nat) returns (ok: bool, locs: seq<int>)
      requires n > 0
      ensures ok <==> n <= |FreeCells(cells[..])|
      ensures ok ==> |locs| == n && FirstFit(cells[..], locs)
    {
      ghost var now := cells[..];
      locs := [];
      for i := 0 to cells.Length
        invariant |locs| < n
        invariant forall x :: x in locs <==> 0 <= x < i && Free(now, x)
        invariant forall k :: 0 <= k < |locs| ==> locs[k] < i && Free(now, locs[k])
        invariant forall j, k :: 0 <= j < k < |locs| ==> locs[j] < locs[k]
      {
        if |cells[i].sequences| == 0 {
          locs := locs + [i];
          if |locs| >= n {
            DistinctCount(locs, FreeCells(now));
            return true, locs;
          }
        }
      }
      DistinctCount(locs, FreeCells(now));
      return false, [];
    }

    // ---------------------------------------------------------------- moving the window

    /** The lowest position of each sequence in the batch. */
    method LowestInBatch() returns (lowest: map<int, int>)
      requires forall k :: 0 <= k < |curBatch| ==> curBatch[k].pos < MAX_INT32
      ensures forall s :: s in lowest <==> InBatch(curBatch, s)
      ensures forall s :: s in lowest ==> lowest[s] == BatchLow(curBatch, s)
    {
      lowest := map[];
      for i := 0 to |curBatch|
        invariant LowestOf(curBatch[..i], lowest)
      {
        var t := curBatch[i];
        LowestFurther(curBatch[..i], t, lowest);
        assert curBatch[..i + 1] == curBatch[..i] + [t];
        var low := if t.sq !in lowest then t.pos else if t.pos < lowest[t.sq] then t.pos else lowest[t.sq];
        lowest := lowest[t.sq := low];
      }
      assert curBatch[..|curBatch|] == curBatch;
    }

    /** The highest stored position of `s`, found by scanning its range only. */
    method LastPosition(s: int) returns (last: int)
      requires Valid() && s in ranges
      ensures last == MaxPos(cells[..], cells.Length, s)
    {
      var r := ranges[s];
      last := 0;
      var i := r.min;
      MaxPosOutside(cells[..], if i <= cells.Length then i else 0, s, 0);
      while i <= r.max
        invariant i <= Max(r.min, r.max + 1)
        invariant r.min <= i && (i <= cells.Length ==> last == MaxPos(cells[..], i, s))
        invariant i > cells.Length ==> i == r.min == MAX_INT && last == 0
      {
        if s in cells[i].sequences {
          last := Max(last, cells[i].pos);
        }
        i := i + 1;
      }
      if i <= cells.Length {
        MaxPosOutside(cells[..], cells.Length, s, i);
      } else {
        MaxPosOutside(cells[..], cells.Length, s, 0);
      }
    }

    /**
     * The scan of one sequence's range: drops `s` below `bound`, returns the range of what is left, and for a
     * sequence of the batch widens the current range by the cells from `wanted` on.
     */
    method EvictScan(s: int, r: Range, bound: int, wanted: int, current: bool, cur0: Range)
      returns (seen: Range, cur: Range)
      requires InBounds(r, cells.Length) && InBounds(cur0, cells.Length) && cells.Length < MAX_INT
      requires forall i :: Has(cells[..], i, s) ==> r.min <= i <= r.max
      modifies cells
      ensures Hull(old(cells[..]), s, bound, cells.Length, seen)
      ensures forall i :: 0 <= i < cells.Length ==> cells[i] == EvictCell(old(cells[i]), s, bound)
      ensures Widens(cur0, cur, cells.Length) && (current ==> CoversFrom(old(cells[..]), s, wanted, cells.Length, cur))
      ensures WidenedTo(old(cells[..]), s, wanted, current, cur0, cur)
    {
      ghost var was := cells[..];
      seen, cur := NewRange(), cur0;
      var i := r.min;
      NothingScanned(was, s, bound, wanted, current, r, cur0);
      while i <= r.max
        invariant r.min <= i && (r.min <= r.max ==> i <= r.max + 1)
        invariant EvictedUpTo(was, cells[..], s, bound, i)
        invariant ScannedUpTo(was, s, bound, wanted, current, cur0, if r.min <= r.max then i else 0, seen, cur)
      {
        var cell := cells[i];
        ghost var now := cells[..];
        var kept := s in cell.sequences && cell.pos >= bound;
        var visible := current && s in cell.sequences && cell.pos >= wanted;
        ScannedOneMore(was, s, bound, wanted, current, cur0, i, seen, cur, kept, visible);
        if s in cell.sequences && cell.pos < bound {
          cells[i] := Cell(cell.pos, Without(cell.sequences, s));
        }
        EvictedFurther(was, now, cells[..], s, bound, i);
        seen, cur := Note(seen, i, kept), Note(cur, i, visible);
        i := i + 1;
      }
      ScannedAll(was, cells[..], s, bound, wanted, current, r, cur0, i, seen, cur);
    }

    /** Drops `s` from the cells below its memory and recomputes its range; collects what the current batch may see. */
    method EvictSequence(s: int, low: int, current: bool)
      requires Valid() && s in ranges && InBounds(curRange, cells.Length)
      requires (current ==> InBatch(curBatch, s)) && (InBatch(curBatch, s) ==> low == BatchLow(curBatch, s))
      modifies this`ranges, this`curRange, cells
      ensures Valid() && Widens(old(curRange), curRange, cells.Length)
      ensures ranges.Keys == old(ranges.Keys)
      ensures forall t :: t == s || ExactIndex(old(View()), t) ==> ExactIndex(View(), t)
      ensures SeenEnds(p, curBatch, old(cells[..]), old(curRange)) ==> SeenEnds(p, curBatch, cells[..], curRange)
      ensures Dropped(s, low - p.memory, old(cells[..]), cells[..])
      ensures current ==> CoversFrom(cells[..], s, low - p.window, cells.Length, curRange)
    {
      ghost var was, r := View(), curRange;
      var seen, cur := EvictScan(s, ranges[s], low - p.memory, low - p.window, current, curRange);
      ranges, curRange := ranges[s := seen], cur;
      SequenceEvicted(p, curBatch, was, View(), s, low, current, r, cur);
    }

    /** Without eviction, the batch sees the ranges of its sequences. */
    method CollectRanges()
      requires Valid() && ValidBatch(p, curBatch)
      modifies this`curRange
      ensures InBounds(curRange, cells.Length)
      ensures forall s :: InBatch(curBatch, s) && s in ranges ==>
                curRange.min <= ranges[s].min && ranges[s].max <= curRange.max
      ensures || curRange == NewRange()
              || (SomeEnd(curBatch, ranges, curRange.min) && SomeEnd(curBatch, ranges, curRange.max))
    {
      var cur := NewRange();
      for k := 0 to |curBatch|
        invariant InBounds(cur, cells.Length)
        invariant forall j :: 0 <= j < k && curBatch[j].sq in ranges ==>
                    cur.min <= ranges[curBatch[j].sq].min && ranges[curBatch[j].sq].max <= cur.max
        invariant cur == NewRange() || (SomeEnd(curBatch, ranges, cur.min) && SomeEnd(curBatch, ranges, cur.max))
      {
        var s := curBatch[k].sq;
        if s in ranges {
          cur := Range(Min(cur.min, ranges[s].min), Max(cur.max, ranges[s].max));
        }
      }
      curRange := cur;
    }

    /** The position after the last one stored, for every known sequence that is not in `current`. */
    method NextPositions(current: set<int>) returns (next: map<int, int>)
      requires Valid()
      ensures next.Keys == ranges.Keys - current
      ensures forall s :: s in next ==> next[s] == MaxPos(cells[..], cells.Length, s) + 1
    {
      next := map[];
      var todo := ranges.Keys - current;
      while todo != {}
        invariant todo !! next.Keys && todo + next.Keys == ranges.Keys - current
        invariant forall s :: s in next ==> next[s] == MaxPos(cells[..], cells.Length, s) + 1
        decreases |todo|
      {
        ghost var w := SomeElement(todo);
        var s :| s in todo;
        var last := LastPosition(s);
        next := next[s := last + 1];
        todo := todo - {s};
      }
    }

    /** The eviction of every known sequence, in any order. */
    method EvictAll(lowest: map<int, int>, current: set<int>)
      requires Valid() && p.memory != MAX_INT32 && InBounds(curRange, cells.Length)
      requires forall s :: s in lowest ==> lowest[s] == Lowest(cells[..], curBatch, s)
      requires ranges.Keys <= lowest.Keys && current <= lowest.Keys
      requires forall s :: s in current <==> InBatch(curBatch, s)
      requires SeenEnds(p, curBatch, cells[..], curRange)
      modifies this`ranges, this`curRange, cells
      ensures Valid() && InBounds(curRange, cells.Length)
      ensures PartlyEvicted(p, curBatch, {}, old(cells[..]), cells[..])
      ensures ranges.Keys == old(ranges.Keys)
      ensures CoversWindows(p, curBatch, current, cells[..], curRange)
      ensures SeenEnds(p, curBatch, cells[..], curRange)
      ensures forall t :: ExactIndex(old(View()), t) ==> ExactIndex(View(), t)
    {
      ghost var was := cells[..];
      var todo := lowest.Keys;
      while todo != {}
        invariant Valid() && InBounds(curRange, cells.Length) && todo <= lowest.Keys
        invariant ranges.Keys == old(ranges.Keys)
        invariant PartlyEvicted(p, curBatch, todo, was, cells[..])
        invariant CoversWindows(p, curBatch, current - todo, cells[..], curRange)
        invariant SeenEnds(p, curBatch, cells[..], curRange)
        invariant forall t :: ExactIndex(old(View()), t) ==> ExactIndex(View(), t)
        decreases |todo|
      {
        ghost var w := SomeElement(todo);
        var s :| s in todo;
        ghost var mid, r := cells[..], curRange;
        if s in ranges {
          EvictSequence(s, lowest[s], s in current);
          EvictedOneMore(p, curBatch, todo, s, was, mid, cells[..]);
          CoveredOneMore(p, curBatch, current, todo, s, lowest[s] - p.memory, mid, cells[..], r, curRange);
        } else {
          UnknownIsEvicted(p, curBatch, current, todo, s, View(), was, curRange);
        }
        todo := todo - {s};
      }
    }

    /** Moves the sliding window to the batch that is about to be stored. */
    method UpdateSlidingWindow()
      requires Valid() && ValidBatch(p, curBatch)
      modifies this`ranges, this`curRange, cells
      ensures Valid() && Evicted(p, curBatch, old(View()), View()) && WindowMoved(p, curBatch, old(View()), View())
      ensures InBounds(curRange, cells.Length) && Collects(p, curBatch, cells[..], curRange)
      ensures forall t :: ExactIndex(old(View()), t) ==> ExactIndex(View(), t)
      ensures AllExact(curBatch, old(View())) ==> EndsVisible(p, curBatch, cells[..], curRange)
    {
      curRange := NewRange();
      ghost var was := View();
      EvictedIsWindowMoved(p, curBatch, was);
      if p.memory == MAX_INT32 {
        CollectRanges();
        RangeEndsVisible(p, curBatch, was, curRange);
        return;
      }
      var lowest := LowestInBatch();
      var current := lowest.Keys;
      var next := NextPositions(current);
      EvictAll(lowest + next, current);
      AllEvicted(p, curBatch, current, was, View(), curRange);
      SeenEndsVisible(p, curBatch, cells[..], curRange);
    }

    // ---------------------------------------------------------------- forward

    /** The body of the storing loop. */
    method StoreToken(t: Token, loc: int)
      requires Valid() && Free(cells[..], loc) && 0 <= t.pos < MAX_INT32 && InBounds(curRange, cells.Length)
      modifies this`ranges, this`curRange, cells
      ensures Valid() && cells[..] == old(cells[..])[loc := Cell(t.pos, [t.sq])]
      ensures curRange == Extend(old(curRange), loc)
      ensures forall s :: ExactIndex(old(View()), s) ==> ExactIndex(View(), s)
    {
      ghost var c := View();
      cells[loc] := Cell(t.pos, [t.sq]);
      var r := if t.sq in ranges then ranges[t.sq] else NewRange();
      ranges := ranges[t.sq := Extend(r, loc)];
      curRange := Extend(curRange, loc);
      StoredOneMore(c, View(), loc, t);
    }

    method StoreBatch(locs: seq<int>)
      requires Valid() && ValidBatch(p, curBatch) && |locs| == |curBatch| && FirstFit(cells[..], locs)
      requires InBounds(curRange, cells.Length)
      modifies this`ranges, this`curRange, cells
      ensures Valid() && Placed(curBatch, locs, old(View()), View())
      ensures WidenedBy(locs, |locs|, old(curRange), curRange, cells.Length)
      ensures forall s :: ExactIndex(old(View()), s) ==> ExactIndex(View(), s)
    {
      ghost var was := cells[..];
      for k := 0 to |curBatch|
        invariant Valid() && StoredUpTo(curBatch, locs, k, was, cells[..])
        invariant WidenedBy(locs, k, old(curRange), curRange, cells.Length)
        invariant forall s :: ExactIndex(old(View()), s) ==> ExactIndex(View(), s)
      {
        ghost var now := cells[..];
        NextIsFree(curBatch, locs, k, was, now);
        WidenedFurther(locs, k, old(curRange), curRange, cells.Length);
        StoreToken(curBatch[k], locs[k]);
        StoredFurther(curBatch, locs, k, was, now, cells[..]);
      }
      StoredAll(curBatch, locs, was, cells[..]);
    }

    /** One row of the mask: true where the token must not attend. */
    method MaskRow(t: Token, causal: bool, r: Range) returns (row: seq<bool>)
      requires Span(r, cells.Length)
      ensures |row| == r.max - r.min + 1
      ensures forall j :: r.min <= j <= r.max ==> (row[j - r.min] <==> !Attends(p, cells[j], t, causal))
    {
      row := [];
      for j := r.min to r.max + 1
        invariant |row| == j - r.min
        invariant forall i :: r.min <= i < j ==> (row[i - r.min] <==> !Attends(p, cells[i], t, causal))
      {
        var cell := cells[j];
        var masked := t.sq !in cell.sequences
                      || (causal && cell.pos > t.pos)
                      || (p.chunk > 0 && cell.pos < t.pos - t.pos % p.chunk)
                      || cell.pos < t.pos - p.window;
        row := row + [masked];
      }
    }

    method MaskRows(r: Range) returns (mask: seq<seq<bool>>)
      requires Span(r, cells.Length)
      ensures |mask| == |curBatch|
      ensures forall k :: 0 <= k < |curBatch| ==> |mask[k]| == r.max - r.min + 1
      ensures forall k, j :: 0 <= k < |curBatch| && r.min <= j <= r.max ==>
                (mask[k][j - r.min] <==> !Attends(p, cells[j], curBatch[k], k !in except))
    {
      mask := [];
      for k := 0 to |curBatch|
        invariant |mask| == k
        invariant forall i :: 0 <= i < k ==> |mask[i]| == r.max - r.min + 1
        invariant forall i, j :: 0 <= i < k && r.min <= j <= r.max ==>
                    (mask[i][j - r.min] <==> !Attends(p, cells[j], curBatch[i], i !in except))
      {
        var row := MaskRow(curBatch[k], k !in except, r);
        mask := mask + [row];
      }
    }

    method BuildMask()
      requires Valid() && Span(curRange, cells.Length) && Complete(p, cells[..], curBatch, curRange)
      modifies this`curRange, this`curMask
      ensures curRange == Padded(old(curRange), p.padding) && InForward()
      ensures MaskExact(p, cells[..], curBatch, except, curRange, curMask)
    {
      PaddedIs(curRange, p.padding, cells.Length);
      curRange := Range(RoundDown(curRange.min, p.padding), RoundUp(curRange.max + 1, p.padding) - 1);
      assert Complete(p, cells[..], curBatch, curRange);
      curMask := MaskRows(curRange);
    }

    /** Evicts, finds room and stores the batch. */
    method Allocate() returns (ok: bool, locs: seq<int>, ghost e: State)
      requires Valid() && ValidBatch(p, curBatch)
      modifies this`ranges, this`curRange, cells
      ensures Valid() && WellFormed(e) && Evicted(p, curBatch, old(View()), e)
      ensures WindowMoved(p, curBatch, old(View()), e)
      ensures ok <==> |curBatch| <= |FreeCells(e.cells)|
      ensures if ok then Placed(curBatch, locs, e, View()) else View() == e
      ensures ok ==> Span(curRange, cells.Length) && Complete(p, cells[..], curBatch, curRange)
      ensures forall t :: ExactIndex(old(View()), t) ==> ExactIndex(View(), t)
      ensures ok && AllExact(curBatch, old(View())) ==> NeededEnds(p, curBatch, locs, e, curRange)
    {
      UpdateSlidingWindow();
      e := View();
      ghost var r := curRange;
      ok, locs := FindLocs(|curBatch|);
      if ok {
        StoreBatch(locs);
        EndsAreNeeded(p, curBatch, locs, e, r, curRange);
        WindowIsComplete(p, curBatch, locs, e, View(), curRange);
        assert locs[0] in locs;
      }
    }

    /**
     * Stores a batch and builds its mask. `e` is the state after eviction; on failure that is where the
     * cache stays. A reservation stores nothing and masks over the whole cache.
     */
    method StartForward(batch: Batch, reserve: bool) returns (ok: bool, ghost e: State)
      requires Valid() && ValidBatch(p, batch)
      modifies this`ranges, this`curRange, this`curBatch, this`curLoc, this`curMask, this`except, cells
      ensures Valid() && WellFormed(e)
      ensures reserve ==> ok && View() == old(View()) == e && curRange == Range(0, cells.Length - 1)
      ensures !reserve ==> Evicted(p, batch, old(View()), e) && WindowMoved(p, batch, old(View()), e)
      ensures !reserve ==> (ok <==> |batch| <= |FreeCells(e.cells)|)
      ensures !reserve ==> if ok then Placed(batch, curLoc, e, View()) else View() == e
      ensures reserve ==> |curLoc| == |batch| && forall i :: 0 <= i < |batch| ==> curLoc[i] == i
      ensures ok ==> curBatch == batch && except == [] && InForward()
      ensures ok ==> MaskExact(p, cells[..], batch, [], curRange, curMask)
      ensures forall t :: ExactIndex(old(View()), t) ==> ExactIndex(View(), t)
      ensures !reserve && ok && AllExact(batch, old(View())) ==> RangeIsNeeded(p, batch, curLoc, e, curRange)
    {
      curBatch, except := batch, [];
      var locs;
      if reserve {
        e := View();
        locs := seq(|batch|, i => i);
        curRange := Range(0, cells.Length - 1);
        WholeIsPadded(cells.Length, p.padding);
      } else {
        ok, locs, e := Allocate();
        if !ok {
          return;
        }
      }
      curLoc := locs;
      if !reserve && AllExact(batch, old(View())) {
        NeededIsPadded(p, batch, locs, e, curRange, cells.Length);
      }
      BuildMask();
      ok := true;
    }

    /** The mask is the one for the recorded option. */
    ghost predicate MaskCurrent()
      reads this, cells
    {
      MaskExact(p, cells[..], curBatch, except, curRange, curMask)
    }

    /**
     * Sets the tokens that attend to later positions too; the mask is rebuilt over the same range. A mask that was
     * current stays so if and only if there is a context or the new option asks for the same mask; a call that
     * repeats the recorded option mends nothing.
     */
    method SetCausal(except': seq<int>, hasContext: bool)
      requires Valid() && InForward()
      modifies this`except, this`curRange, this`curMask
      ensures InForward() && except == except' && curRange == old(curRange)
      ensures except' == old(except) || !hasContext ==> curMask == old(curMask)
      ensures except' != old(except) && hasContext ==> MaskCurrent()
      ensures old(MaskCurrent()) ==>
                (MaskCurrent() <==> hasContext || SameMask(p, cells[..], curBatch, curRange, old(except), except'))
      ensures except' == old(except) ==> (MaskCurrent() <==> old(MaskCurrent()))
    {
      ghost var option, mask := except, curMask;
      if except != except' {
        except := except';
        if hasContext {
          BuildMask();
        } else {
          StaleIff(p, cells[..], curBatch, curRange, option, except', mask);
        }
      }
    }

    /** Stores the batch's keys for one layer. */
    method Put(layer: int)
      requires Valid() && |curLoc| == |curBatch| && forall k :: 0 <= k < |curLoc| ==> 0 <= curLoc[k] < cells.Length
      modifies this`keys
      ensures Valid() && View() == PutLayer(old(View()), layer, curLoc, curBatch)
    {
      var row := if layer in keys then keys[layer] else seq(cells.Length, _ => 0);
      keys := keys[layer := PutRow(row, curLoc, curBatch)];
    }

    // ---------------------------------------------------------------- prefix copies and resuming

    /** Makes `dst` reference exactly the cells of `src` below `len`. */
    method CopyPrefix(src: int, dst: int, len: int)
      requires Valid()
      modifies this`ranges, cells
      ensures Valid() && Copied(src, dst, len, old(View()), View())
      ensures forall t :: t == dst || ExactIndex(old(View()), t) ==> ExactIndex(View(), t)
    {
      ghost var was := View();
      var seen := CopyScan(src, dst, len);
      ranges := ranges[dst := seen];
      CopyCellsCopied(src, dst, len, was, View());
    }

    method CopyScan(src: int, dst: int, len: int) returns (seen: Range)
      requires cells.Length < MAX_INT
      modifies cells
      ensures forall i :: 0 <= i < cells.Length ==> cells[i] == CopyCell(old(cells[i]), src, dst, len)
      ensures InBounds(seen, cells.Length)
      ensures src != dst ==> CoversBelow(old(cells[..]), src, len, cells.Length, seen)
      ensures CopyEnds(old(cells[..]), src, dst, len, seen)
    {
      ghost var was := cells[..];
      seen := NewRange();
      for i := 0 to cells.Length
        invariant forall k :: 0 <= k < i ==> cells[k] == CopyCell(was[k], src, dst, len)
        invariant forall k :: i <= k < cells.Length ==> cells[k] == was[k]
        invariant InBounds(seen, cells.Length)
        invariant src != dst ==> CoversBelow(was, src, len, i, seen)
        invariant CopyEnds(was, src, dst, len, seen)
      {
        CoversOneMore(was, src, dst, len, i, seen);
        var cell := cells[i];
        var q := Rest(cell, dst);
        var shared := CopyHits(cell, src, dst, len);
        cells[i] := Cell(cell.pos, if shared then q + [dst] else q);
        seen := Note(seen, i, shared);
      }
    }

    /** Whether the next token of `s` can be computed at `pos`. */
    method CanResume(s: int, pos: int) returns (yes: bool)
      requires Valid() && 0 <= pos <= MAX_INT32
      ensures yes <==> Resumable(p, cells[..], s, pos)
    {
      if p.memory == MAX_INT32 {
        return true;
      }
      if s !in ranges {
        assert forall i :: !Has(cells[..], i, s);
        return false;
      }
      var first, last := Extent(s);
      var start := Max(0, pos - p.window);
      return last != -1 && start >= first && pos <= last + 1;
    }

    /** The lowest and highest stored position of `s`. */
    method Extent(s: int) returns (first: int, last: int)
      requires Valid() && s in ranges
      ensures forall i :: Has(cells[..], i, s) ==> first <= cells[i].pos <= last
      ensures (first == MAX_INT32 && last == -1)
              || ((exists i :: Has(cells[..], i, s) && cells[i].pos == first)
                  && (exists i :: Has(cells[..], i, s) && cells[i].pos == last))
    {
      var r := ranges[s];
      first, last := MAX_INT32, -1;
      var i := r.min;
      while i <= r.max
        invariant r.min <= i && (r.min <= r.max ==> i <= r.max + 1)
        invariant forall k :: k < i && Has(cells[..], k, s) ==> first <= cells[k].pos <= last
        invariant (first == MAX_INT32 && last == -1)
                  || ((exists k :: Has(cells[..], k, s) && cells[k].pos == first)
                      && (exists k :: Has(cells[..], k, s) && cells[k].pos == last))
      {
        if s in cells[i].sequences {
          assert Has(cells[..], i, s);
          first := Min(first, cells[i].pos);
          last := Max(last, cells[i].pos);
        }
        i := i + 1;
      }
    }

    // ---------------------------------------------------------------- removal

    /** The offsets of one chunk of rows, and the first and last row of the chunk that moves (-1 if none does). */
    method ChunkOffsets(sq: int, begin: int, offset: int, start: int, size: int)
      returns (offsets: seq<int>, first: int, last: int)
      requires 0 <= start && 0 < size && start + size <= cells.Length
      ensures |offsets| == size
      ensures forall k :: 0 <= k < size ==> offsets[k] == ShiftOf(cells[..], start + k, sq, begin, offset)
      ensures first == -1 || 0 <= first <= last < size
      ensures forall i :: start <= i < start + size && Has(cells[..], i, sq) && cells[i].pos >= begin ==>
                first != -1 && start + first <= i <= start + last
    {
      offsets := [];
      first, last := -1, 0;
      for i := 0 to size
        invariant |offsets| == i
        invariant forall k :: 0 <= k < i ==> offsets[k] == ShiftOf(cells[..], start + k, sq, begin, offset)
        invariant first == -1 || 0 <= first <= last < i
        invariant forall k :: start <= k < start + i && Has(cells[..], k, sq) && cells[k].pos >= begin ==>
                    first != -1 && start + first <= k <= start + last
      {
        var cell := cells[start + i];
        if sq in cell.sequences && cell.pos >= begin {
          offsets := offsets + [offset];
          if first < 0 {
            first := i;
          }
          last := i;
        } else {
          offsets := offsets + [0];
        }
      }
    }

    /** Builds the rotated rows of every layer; nothing is committed when the backend fails on one of them. */
    method RotateLayers(start: int, first: int, offsets: seq<int>, faults: set<(int, int)>)
      returns (ok: bool, staged: map<int, seq<int>>)
      ensures ok ==> staged.Keys == keys.Keys
      ensures ok ==> forall l :: l in staged ==> staged[l] == RotateRows(keys[l], first, offsets)
      ensures faults == {} ==> ok
    {
      staged := map[];
      var todo := keys.Keys;
      while todo != {}
        invariant todo !! staged.Keys && todo + staged.Keys == keys.Keys
        invariant forall l :: l in staged ==> staged[l] == RotateRows(keys[l], first, offsets)
        decreases |todo|
      {
        ghost var w := SomeElement(todo);
        var l :| l in todo;
        if (start, l) in faults {
          return false, map[];
        }
        staged := staged[l := RotateRows(keys[l], first, offsets)];
        todo := todo - {l};
      }
      return true, staged;
    }

    /** Rotates the keys in one chunk of rows, for every layer or, if the backend fails, for none. */
    method ShiftChunk(sq: int, begin: int, offset: int, start: int, size: int, faults: set<(int, int)>)
      returns (ok: bool)
      requires 0 <= start && 0 < size && start + size <= cells.Length
      requires forall l :: l in keys ==> |keys[l]| == cells.Length
      modifies this`keys
      ensures ok ==> RotatedIn(sq, begin, offset, cells[..], start, start + size, old(keys), keys)
      ensures !ok ==> keys == old(keys)
      ensures faults == {} ==> ok
    {
      var offsets, first, last := ChunkOffsets(sq, begin, offset, start, size);
      if first < 0 {
        return true;
      }
      var staged;
      ok, staged := RotateLayers(start, start + first, offsets[first..last + 1], faults);
      if ok {
        ChunkRotated(sq, begin, offset, cells[..], start, size, offsets, first, last, keys, staged);
        keys := staged;
      }
    }

    /** The chunks of `Shift`. */
    method ShiftChunks(sq: int, begin: int, offset: int, r: Range, faults: set<(int, int)>) returns (ok: bool)
      requires InBounds(r, cells.Length) && r.min <= r.max && 0 < p.maxBatch
      requires forall i :: Has(cells[..], i, sq) ==> r.min <= i <= r.max
      requires forall l :: l in keys ==> |keys[l]| == cells.Length
      modifies this`keys
      ensures ok ==> Rotated(sq, begin, offset, cells[..], old(keys), keys)
      ensures exists hi :: RotatedIn(sq, begin, offset, cells[..], r.min, hi, old(keys), keys)
      ensures faults == {} ==> ok
    {
      var start := r.min;
      while start <= r.max
        invariant r.min <= start
        invariant RotatedIn(sq, begin, offset, cells[..], r.min, start, old(keys), keys)
        invariant start > r.max ==> Rotated(sq, begin, offset, cells[..], old(keys), keys)
        decreases r.max - start
      {
        var size := Min(r.max - start + 1, p.maxBatch);
        ghost var mid := keys;
        ok := ShiftChunk(sq, begin, offset, start, size, faults);
        if !ok {
          assert RotatedIn(sq, begin, offset, cells[..], r.min, start, old(keys), mid);
          return;
        }
        RotatedFurther(sq, begin, offset, cells[..], r.min, start, start + size, old(keys), mid, keys);
        if start + p.maxBatch > r.max {
          RotatedAll(sq, begin, offset, cells[..], r.min, start + size, start + p.maxBatch, old(keys), keys);
        }
        start := start + p.maxBatch;
      }
      return true;
    }

    /** Rotates the keys of `sq` from `begin` on, in chunks of `maxBatch` rows. */
    method Shift(sq: int, begin: int, offset: int, faults: set<(int, int)>) returns (ok: bool)
      requires Valid() && sq in ranges && ranges[sq] != NewRange()
      modifies this`keys
      ensures Valid()
      ensures ok ==> Rotated(sq, begin, offset, cells[..], old(keys), keys)
      ensures exists hi :: RotatedIn(sq, begin, offset, cells[..], ranges[sq].min, hi, old(keys), keys)
      ensures !canShift ==> !ok
      ensures canShift && faults == {} ==> ok
    {
      if canShift {
        ok := ShiftChunks(sq, begin, offset, ranges[sq], faults);
      } else {
        ok := false;
        assert RotatedIn(sq, begin, offset, cells[..], ranges[sq].min, ranges[sq].min, keys, keys);
      }
    }

    /** The cell scan of `Remove`; stops at the first cell it may not renumber. */
    method RemoveScan(sq: int, begin: int, end: int) returns (ok: bool, seen: Range)
      requires cells.Length < MAX_INT && begin <= end
      modifies cells
      ensures PartlyRemoved(sq, begin, end, old(cells[..]), cells[..])
      ensures ok <==> forall i :: !Blocked(old(cells[..]), i, sq, end)
      ensures ok ==> forall i :: 0 <= i < cells.Length ==> cells[i] == RemoveCell(old(cells[..])[i], sq, begin, end)
      ensures ok ==> InBounds(seen, cells.Length) && Survivors(old(cells[..]), sq, begin, end, cells.Length, seen)
    {
      ghost var was := cells[..];
      var offset := Offset(begin, end);
      seen := NewRange();
      for i := 0 to cells.Length
        invariant forall k :: 0 <= k < i ==> cells[k] == RemoveCell(was[k], sq, begin, end) && !Blocked(was, k, sq, end)
        invariant forall k :: i <= k < cells.Length ==> cells[k] == was[k]
        invariant InBounds(seen, cells.Length) && Survivors(was, sq, begin, end, i, seen)
      {
        var cell := cells[i];
        SurvivorsOneMore(was, sq, begin, end, i, seen);
        if sq in cell.sequences {
          if begin <= cell.pos < end {
            cells[i] := Cell(cell.pos, Without(cell.sequences, sq));
          } else {
            if cell.pos >= end {
              if s :| s in cell.sequences && s != sq {
                assert Has(was, i, s) && Blocked(was, i, sq, end);
                return false, seen;
              }
              cells[i] := Cell(cell.pos + offset, cell.sequences);
            }
            seen := Extend(seen, i);
          }
        }
      }
      ok := true;
    }

    /** The part of `Remove` that works on cells and ranges. */
    method RemoveCells(sq: int, begin: int, end: int) returns (ok: bool)
      requires Valid() && 0 <= begin <= end <= MAX_INT32
      modifies this`ranges, cells
      ensures Valid()
      ensures ok <==> NoneShared(old(cells[..]), sq, end)
      ensures PartlyRemoved(sq, begin, end, old(cells[..]), cells[..])
      ensures ok ==> Scanned(sq, begin, end, old(cells[..]), cells[..], cells.Length)
      ensures ok && sq in ranges ==> ranges[sq] != NewRange()
      ensures ok ==> (sq in ranges <==> exists i :: Has(cells[..], i, sq))
      ensures forall t :: (if t == sq then ok else ExactIndex(old(View()), t)) ==> ExactIndex(View(), t)
    {
      ghost var was := View();
      var seen;
      BlockedIsShared(was.cells, sq, end);
      ok, seen := RemoveScan(sq, begin, end);
      if !ok {
        PartlyRemovedIs(sq, begin, end, was, View());
        PartlyRemovedWellFormed(sq, begin, end, was, View());
        return;
      }
      RemoveCellsScanned(sq, begin, end, was.cells, cells[..]);
      ranges := if seen == NewRange() then ranges - {sq} else ranges[sq := seen];
      RemovedIndex(sq, begin, end, was, View(), seen);
      PartlyRemovedWellFormed(sq, begin, end, was, View());
    }

    /**
     * Deletes the positions of `sq` in `begin..end` and renumbers those from `end` on, with their keys.
     * `faults` are the chunks and layers on which the backend fails.
     */
    method Remove(sq: int, begin: int, end: int, faults: set<(int, int)>) returns (ok: bool)
      requires Valid() && 0 <= begin <= end <= MAX_INT32
      modifies this`ranges, this`keys, cells
      ensures Valid()
      ensures if ok then Removed(sq, begin, end, old(View()), View()) else OthersUntouched(sq, old(View()), View())
      ensures end == MAX_INT32 ==> ok
      ensures forall t :: (if t == sq then ok else ExactIndex(old(View()), t)) ==> ExactIndex(View(), t)
      ensures !NoneShared(old(cells[..]), sq, end) ==> !ok
      ensures NoneShared(old(cells[..]), sq, end) && canShift && faults == {} ==> ok
    {
      ghost var was := View();
      ok := RemoveCells(sq, begin, end);
      ghost var mid := View();
      if !ok {
        PartlyRemovedIs(sq, begin, end, was, mid);
        return;
      }
      if sq !in ranges || end == MAX_INT32 {
        NothingToRotate(sq, begin, end, mid);
        return;
      }
      ok := Shift(sq, begin, begin - end, faults);
      if !ok {
        ghost var hi :| RotatedIn(sq, begin, begin - end, cells[..], ranges[sq].min, hi, mid.keys, keys);
        FailedShift(sq, begin, end, was, mid, View(), ranges[sq].min, hi);
      }
    }
  }

  /** A call without a context and then the same option with one, when the option makes a difference. */
  method SetTwice(c: Causal, except: seq<int>)
    requires c.Valid() && c.InForward() && c.MaskCurrent()
    requires !SameMask(c.p, c.cells[..], c.curBatch, c.curRange, c.except, except)
    modifies c`except, c`curRange, c`curMask
    ensures c.InForward() && c.except == except && !c.MaskCurrent()
  {
    c.SetCausal(except, false);
    c.SetCausal(except, true);
  }

  /**
   * Without a context the old mask stays, and afterwards the same option with a context does not rebuild it: the first
   * token is exempt from causality and should see the second, and the mask still hides it.
   */
  method LeaveStale(c: Causal) returns (ok: bool, ghost e: State)
    requires c.Valid() && c.p.chunk == 0 && c.p.maxBatch >= 2
    modifies c, c.cells
    ensures Evicted(c.p, PAIR, old(c.View()), e) && (ok <==> 2 <= |FreeCells(e.cells)|)
    ensures ok ==> c.InForward() && c.except == [0] && !c.MaskCurrent()
  {
    ok, e := c.StartForward(PAIR, false);
    if ok {
      PairDiffers(c.p, c.curLoc, e, c.View(), c.curRange);
      SetTwice(c, [0]);
    }
  }

  /** A new cache of two cells that ends up with the wrong mask. */
  method StaleMaskExample() returns (c: Causal)
    ensures c.InForward() && c.except == [0] && !c.MaskCurrent()
  {
    c := new Causal(0, 0, 0, 0, 1, 2, 2, false);
    ghost var empty := c.View();
    var ok, e := LeaveStale(c);
    EvictedStaysEmpty(c.p, PAIR, empty, e);
  }
}

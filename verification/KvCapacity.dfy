/** Sizing: with a sliding window the cache can always take the next batch. */
module KvCapacity {
  import opened KvCells
  import opened KvSteps
  import opened KvInvariants
  import opened Arithmetic

  ghost function FreeCells(cells: seq<Cell>): set<int> {
    set i | 0 <= i < |cells| && Free(cells, i)
  }

  ghost predicate InUse(cells: seq<Cell>, i: int, live: set<int>) {
    exists s :: s in live && Has(cells, i, s)
  }

  predicate Below(i: int, n: nat) {
    i < n
  }

  ghost function Indices(n: nat): set<int> {
    set i | 0 <= i < n && Below(i, n)
  }

  /** The cells referenced by at least one sequence of `live`; a shared cell is one element. */
  ghost function Used(cells: seq<Cell>, live: set<int>): set<int> {
    set i | 0 <= i < |cells| && InUse(cells, i, live)
  }

  lemma RoundUpIs(length: int, pad: int)
    requires pad > 0
    ensures RoundUp(length, pad) % pad == 0 && length <= RoundUp(length, pad) < length + pad
  {
    var q := (length + pad - 1) / pad;
    assert length + pad - 1 == q * pad + (length + pad - 1) % pad;
    DivMod(q, 0, pad);
  }

  /**
   * What `Init` allocates. It panics exactly when an explicit memory is smaller than both the window
   * and the capacity and is not enlarged: with one sequence, or with an unlimited window.
   */
  lemma InitSizes(window0: nat, memory0: nat, padding0: nat, maxSequences: nat, capacity: nat, maxBatch: nat)
    requires window0 <= MAX_INT32 && memory0 <= MAX_INT32
    ensures var r := Init(window0, memory0, padding0, maxSequences, capacity, maxBatch);
            var window := if window0 == 0 then MAX_INT32 else window0;
            && (r.Panic? <==> 0 < memory0 < window && memory0 < capacity && (maxSequences <= 1 || window == MAX_INT32))
            && (r.Sized? ==>
                  && 0 < r.window <= r.memory <= MAX_INT32 && 0 < r.padding && 0 <= r.size && r.size % r.padding == 0
                  && Configured(window0, memory0, padding0, maxSequences, capacity, maxBatch,
                                r.window, r.memory, r.padding, r.size)
                  && (r.memory != MAX_INT32 && maxSequences > 1 ==> r.memory > r.window))
  {
    var r := Init(window0, memory0, padding0, maxSequences, capacity, maxBatch);
    if r.Sized? {
      var size := if r.memory == MAX_INT32 then maxSequences * capacity else maxSequences * r.memory + maxBatch;
      assert size >= 0;
      RoundUpIs(size, r.padding);
    }
  }

  /** Sizes with which `Init` panics: a window of two positions, a memory of one, one sequence. */
  lemma InitPanicExample()
    ensures Init(2, 1, 1, 1, 5, 1).Panic? && !Init(2, 1, 1, 2, 5, 1).Panic?
  {
  }

  lemma SomeElement<T>(t: set<T>) returns (x: T)
    requires t != {}
    ensures x in t
  {
    x :| x in t;
  }

  lemma AtMostOne(cells: seq<Cell>, s: int, top: set<int>, pos: int)
    requires UniquePositions(cells, s) && forall i :: i in top ==> Has(cells, i, s) && cells[i].pos == pos
    ensures |top| <= 1
  {
    if top != {} {
      var t := SomeElement(top);
      forall i | i in top
        ensures i == t
      {
        assert Has(cells, i, s) && Has(cells, t, s);
      }
      assert top == {t};
    }
  }

  /** Injectivity of positions turned into a count. */
  lemma {:induction false} BoundedByPositions(cells: seq<Cell>, s: int, held: set<int>, lo: int, hi: int)
    requires lo <= hi && UniquePositions(cells, s)
    requires forall i :: i in held ==> Has(cells, i, s) && lo <= cells[i].pos < hi
    ensures |held| <= hi - lo
    decreases hi - lo
  {
    if held != {} {
      var x := SomeElement(held);
      assert lo < hi;
      var top := set i | i in held && cells[i].pos == hi - 1;
      BoundedByPositions(cells, s, held - top, lo, hi - 1);
      AtMostOne(cells, s, top, hi - 1);
      assert held == (held - top) + top;
    }
  }

  /** After eviction a sequence references at most as many cells as its memory holds. */
  lemma EvictionBoundsSequence(p: Params, batch: Batch, c: State, e: State, s: int)
    requires ValidParams(p) && p.memory != MAX_INT32 && ValidBatch(p, batch)
    requires UniquePositions(c.cells, s) && Continues(c.cells, batch) && Evicted(p, batch, c, e)
    ensures |Used(e.cells, {s})| <= p.memory
  {
    var low := Lowest(c.cells, batch, s);
    forall i | i in Used(e.cells, {s})
      ensures Has(c.cells, i, s) && low - p.memory <= c.cells[i].pos < low
    {
      assert Has(e.cells, i, s);
      assert Kept(p, batch, c.cells, i, s);
      if InBatch(batch, s) {
        BatchLowIs(batch, s);
        var k :| 0 <= k < |batch| && batch[k] == Token(s, low);
        assert Has(c.cells, i, batch[k].sq);
      } else {
        MaxPosIs(c.cells, |c.cells|, s);
      }
    }
    BoundedByPositions(c.cells, s, Used(e.cells, {s}), low - p.memory, low);
  }

  lemma OneMoreShare(a: nat, b: nat, n: nat, m: nat)
    requires a <= m && b <= n * m
    ensures a + b <= (n + 1) * m
  {
    Distribute(n, 1, m);
  }

  lemma {:induction false} UnionBound(cells: seq<Cell>, live: set<int>, m: nat)
    requires forall s :: s in live ==> |Used(cells, {s})| <= m
    ensures |Used(cells, live)| <= |live| * m
    decreases |live|
  {
    if live != {} {
      var s := SomeElement(live);
      UnionBound(cells, live - {s}, m);
      var one, rest := Used(cells, {s}), Used(cells, live - {s});
      assert Used(cells, live) == one + rest by {
        forall i | i in Used(cells, live)
          ensures i in one + rest
        {
          var t :| t in live && Has(cells, i, t);
          assert t == s ==> InUse(cells, i, {s});
          assert t != s ==> InUse(cells, i, live - {s});
        }
      }
      assert |one + rest| == |one| + |rest| - |one * rest|;
      OneMoreShare(|one|, |rest|, |live| - 1, m);
    } else {
      assert Used(cells, live) == {};
    }
  }

  lemma {:induction false} IndexCount(n: nat)
    ensures |Indices(n)| == n
  {
    if n > 0 {
      IndexCount(n - 1);
      assert Indices(n) == Indices(n - 1) + {n - 1};
    }
  }

  lemma FreeOrUsed(cells: seq<Cell>, live: set<int>)
    requires forall i, s :: Has(cells, i, s) ==> s in live
    ensures |FreeCells(cells)| + |Used(cells, live)| == |cells|
  {
    var free, used := FreeCells(cells), Used(cells, live);
    forall i | 0 <= i < |cells|
      ensures i in free <==> i !in used
    {
      if !Free(cells, i) {
        assert Has(cells, i, cells[i].sequences[0]);
      }
    }
    assert free !! used;
    assert free + used == Indices(|cells|);
    IndexCount(|cells|);
  }

  /** First fit, counted: below the `k`-th location there are exactly `k` free cells, the locations before it. */
  lemma FirstFitCounts(cells: seq<Cell>, locs: seq<int>, k: nat)
    requires FirstFit(cells, locs) && k < |locs|
    ensures Free(cells, locs[k]) && |set i | 0 <= i < locs[k] && Free(cells, i)| == k
  {
    var below := set i | 0 <= i < locs[k] && Free(cells, i);
    assert Free(cells, locs[k]);
    LocationsBelow(locs, k);
    forall i
      ensures i in below <==> i in locs[..k]
    {
      if i in below {
        var j :| 0 <= j < |locs| && locs[j] == i;
        assert j < k;
      }
      if i in locs[..k] {
        var j :| 0 <= j < k && locs[j] == i;
        assert Free(cells, locs[j]);
      }
    }
    assert below == Elements(locs[..k]);
  }

  function Elements(s: seq<int>): set<int> {
    set i | i in s
  }

  lemma {:induction false} LocationsBelow(locs: seq<int>, k: nat)
    requires k <= |locs| && forall j, m :: 0 <= j < m < |locs| ==> locs[j] < locs[m]
    ensures |Elements(locs[..k])| == k
  {
    if k == 0 {
      assert Elements(locs[..0]) == {};
    } else {
      LocationsBelow(locs, k - 1);
      assert locs[..k] == locs[..k - 1] + [locs[k - 1]];
      assert Elements(locs[..k]) == Elements(locs[..k - 1]) + {locs[k - 1]};
    }
  }

  lemma SharedRoom(cells: seq<Cell>, live: set<int>, m: nat, n: nat, room: int)
    requires forall s :: s in live ==> |Used(cells, {s})| <= m
    requires (forall i, s :: Has(cells, i, s) ==> s in live) && |live| <= n && |cells| >= n * m + room
    ensures |FreeCells(cells)| >= room
  {
    UnionBound(cells, live, m);
    MulMonotone(|live|, n, m);
    FreeOrUsed(cells, live);
  }

  /**
   * The capacity theorem. `live` are the sequences that reference anything; with the size that
   * `Init` allocates for them there is room for the batch after eviction.
   */
  lemma NeverFull(p: Params, batch: Batch, c: State, e: State, live: set<int>, maxSequences: nat, layers: set<int>)
    requires ValidParams(p) && p.memory != MAX_INT32 && ValidBatch(p, batch)
    requires Inv(c, {}, layers) && Continues(c.cells, batch) && Evicted(p, batch, c, e)
    requires (forall i, s :: Has(c.cells, i, s) ==> s in live) && |live| <= maxSequences
    requires |c.cells| >= maxSequences * p.memory + p.maxBatch
    ensures |FreeCells(e.cells)| >= |batch|
  {
    forall s
      ensures |Used(e.cells, {s})| <= p.memory
    {
      assert UniquePositions(c.cells, s);
      EvictionBoundsSequence(p, batch, c, e, s);
    }
    SharedRoom(e.cells, live, p.memory, maxSequences, p.maxBatch);
  }
}

/**
 * A caller's session with one cache: everything the cache goes through is a run, so the theorems about runs hold of it.
 */
module KvSession {
  import opened KvCells
  import opened KvSteps
  import opened KvInvariants
  import opened KvCapacity
  import opened KvAttention
  import opened KvCausal
  import opened KvRuns

  /** The layers that are left to put come to the same as all of them from the start. */
  lemma PutOneMore(start: State, now: State, layers: seq<int>, i: nat, locs: seq<int>, batch: Batch)
    requires i < |layers| && |locs| == |batch|
    requires forall k :: 0 <= k < |locs| ==> 0 <= locs[k] < |now.cells|
    requires |start.cells| == |now.cells|
    requires forall l :: l in start.keys ==> |start.keys[l]| == |start.cells|
    requires forall l :: l in now.keys ==> |now.keys[l]| == |now.cells|
    requires PutLayers(now, layers[i..], locs, batch) == PutLayers(start, layers, locs, batch)
    ensures PutLayers(PutLayer(now, layers[i], locs, batch), layers[i + 1..], locs, batch)
              == PutLayers(start, layers, locs, batch)
  {
    assert layers[i..][1..] == layers[i + 1..];
  }

  lemma ExtendRun(p: Params, ls: seq<int>, run: seq<Snapshot>, ops: seq<Op>, op: Op, b: Snapshot)
    requires Run(p, ls, run, ops) && Step(p, ls, run[|run| - 1], op, b)
    ensures Run(p, ls, run + [b], ops + [op])
  {
    var run', ops' := run + [b], ops + [op];
    forall i | 0 <= i < |ops'|
      ensures Step(p, ls, run'[i], ops'[i], run'[i + 1])
    {
      if i < |ops| {
        assert run'[i] == run[i] && run'[i + 1] == run[i + 1];
      }
    }
  }

  ghost predicate AllStored(cells: seq<Cell>, batch: Batch) {
    forall t :: t in batch ==> Stores(cells, t.sq, t.pos)
  }

  lemma PlacedAll(batch: Batch, locs: seq<int>, e: State, placed: State)
    requires Placed(batch, locs, e, placed)
    ensures AllStored(placed.cells, batch) && forall k :: 0 <= k < |locs| ==> 0 <= locs[k] < |placed.cells|
  {
    forall t | t in batch
      ensures Stores(placed.cells, t.sq, t.pos)
    {
      assert Token(t.sq, t.pos) == t;
      PlacedStores(batch, locs, e, placed, t.sq, t.pos);
    }
    assert forall k :: 0 <= k < |locs| ==> Free(e.cells, locs[k]);
  }

  lemma ForwardIsStep(p: Params, ls: seq<int>, a: Snapshot, batch: Batch, locs: seq<int>, e: State, placed: State,
                      c: State)
    requires Continues(a.c.cells, batch) && WellFormed(e) && Evicted(p, batch, a.c, e)
    requires WellFormed(placed) && Placed(batch, locs, e, placed) && WellFormed(c)
    requires forall k :: 0 <= k < |locs| ==> 0 <= locs[k] < |placed.cells|
    requires c == PutLayers(placed, ls, locs, batch)
    ensures Step(p, ls, a, KvRuns.Forward(batch, locs, e, placed), Snapshot(c, a.dirty))
  {
  }

  class Session {
    const cache: Causal
    const layers: seq<int>
    ghost var run: seq<Snapshot>
    ghost var ops: seq<Op>

    /** The sequences whose last removal failed and that have not been cleared since. */
    ghost function Dirty(): set<int>
      reads this
      requires run != []
    {
      run[|run| - 1].dirty
    }

    /** The cache is where the run so far has brought it. */
    ghost predicate Valid()
      reads this, cache, cache.cells
    {
      && cache.Valid() && Run(cache.p, layers, run, ops) && run[|run| - 1].c == cache.View()
      && IndexReliable(Dirty())
    }

    /** The range index is exact for all other sequences. */
    ghost predicate IndexReliable(dirty: set<int>)
      reads cache, cache.cells
    {
      forall s :: s !in dirty ==> ExactIndex(cache.View(), s)
    }

    /** A session with a new cache. */
    constructor (cache: Causal, layers: seq<int>)
      requires cache.Valid() && cache.keys == map[] && cache.ranges == map[]
      requires forall i :: 0 <= i < cache.cells.Length ==> cache.cells[i].sequences == []
      ensures Valid() && this.cache == cache && this.layers == layers && Dirty() == {}
    {
      this.cache, this.layers := cache, layers;
      run, ops := [Snapshot(cache.View(), {})], [];
    }

    /** What the caller can rely on at any time. */
    lemma Reliable()
      requires Valid()
      ensures Inv(cache.View(), Dirty(), set l | l in layers)
      ensures forall s :: s !in Dirty() ==> ExactIndex(cache.View(), s)
    {
      RunKeepsInv(cache.p, layers, run, ops, |run| - 1);
    }

    ghost method Record(op: Op, dirty: set<int>)
      requires cache.Valid() && Run(cache.p, layers, run, ops) && IndexReliable(dirty)
      requires Step(cache.p, layers, run[|run| - 1], op, Snapshot(cache.View(), dirty))
      modifies this`run, this`ops
      ensures Valid() && Dirty() == dirty
    {
      ExtendRun(cache.p, layers, run, ops, op, Snapshot(cache.View(), dirty));
      run, ops := run + [Snapshot(cache.View(), dirty)], ops + [op];
    }

    /** Puts the batch's keys into every layer. */
    method PutAll()
      requires cache.Valid() && |cache.curLoc| == |cache.curBatch|
      requires forall k :: 0 <= k < |cache.curLoc| ==> 0 <= cache.curLoc[k] < cache.cells.Length
      modifies cache`keys
      ensures cache.Valid() && (forall s :: ExactIndex(old(cache.View()), s) ==> ExactIndex(cache.View(), s))
      ensures WellFormed(old(cache.View()))
      ensures cache.View() == PutLayers(old(cache.View()), layers, cache.curLoc, cache.curBatch)
    {
      ghost var start := cache.View();
      assert layers[0..] == layers;
      for i := 0 to |layers|
        invariant cache.Valid() && cache.cells[..] == start.cells && cache.ranges == start.ranges
        invariant PutLayers(cache.View(), layers[i..], cache.curLoc, cache.curBatch)
                    == PutLayers(start, layers, cache.curLoc, cache.curBatch)
      {
        PutOneMore(start, cache.View(), layers, i, cache.curLoc, cache.curBatch);
        cache.Put(layers[i]);
      }
    }

    /** The references are those of at most `maxSequences` sequences, and the cache was sized for them. */
    ghost predicate Roomy(live: set<int>, maxSequences: nat)
      reads cache, cache.cells
    {
      && (forall i, s :: Has(cache.cells[..], i, s) ==> s in live) && |live| <= maxSequences
      && cache.cells.Length >= maxSequences * cache.p.memory + cache.p.maxBatch
    }

    /** Starts a forward pass. A sliding-window cache with no more sequences than it was made for is not full. */
    method Start(batch: Batch, ghost live: set<int>, ghost maxSequences: nat) returns (ok: bool, ghost e: State)
      requires Valid() && ValidBatch(cache.p, batch) && Continues(cache.cells[..], batch)
      modifies cache, cache.cells
      ensures cache.Valid() && WellFormed(e) && Evicted(cache.p, batch, old(cache.View()), e)
      ensures IndexReliable(Dirty())
      ensures ok && (forall t :: t in batch ==> t.sq !in Dirty()) ==>
                RangeIsNeeded(cache.p, batch, cache.curLoc, e, cache.curRange)
      ensures if ok then cache.curBatch == batch && Placed(batch, cache.curLoc, e, cache.View()) else cache.View() == e
      ensures Dirty() == {} && cache.p.memory != MAX_INT32 && old(Roomy(live, maxSequences)) ==> ok
    {
      ghost var was, roomy := cache.View(), Roomy(live, maxSequences);
      ok, e := cache.StartForward(batch, false);
      if Dirty() == {} && cache.p.memory != MAX_INT32 && roomy {
        RunNeverFull(cache.p, layers, run, ops, |run| - 1, batch, e, live, maxSequences);
      }
    }

    /** The rest of a forward pass that has started: its keys are put into every layer. */
    ghost predicate Started(batch: Batch, e: State)
      reads this, cache, cache.cells
    {
      && cache.Valid() && Run(cache.p, layers, run, ops) && IndexReliable(Dirty())
      && WellFormed(e) && Evicted(cache.p, batch, run[|run| - 1].c, e) && Continues(run[|run| - 1].c.cells, batch)
      && cache.curBatch == batch && Placed(batch, cache.curLoc, e, cache.View())
    }

    ghost method RecordForward(batch: Batch, locs: seq<int>, e: State, placed: State)
      requires cache.Valid() && Run(cache.p, layers, run, ops) && IndexReliable(Dirty())
      requires Continues(run[|run| - 1].c.cells, batch) && WellFormed(e) && Evicted(cache.p, batch, run[|run| - 1].c, e)
      requires WellFormed(placed) && Placed(batch, locs, e, placed)
      requires forall k :: 0 <= k < |locs| ==> 0 <= locs[k] < |placed.cells|
      requires cache.View() == PutLayers(placed, layers, locs, batch)
      modifies this`run, this`ops
      ensures Valid() && Dirty() == old(Dirty())
    {
      ForwardIsStep(cache.p, layers, run[|run| - 1], batch, locs, e, placed, cache.View());
      Record(KvRuns.Forward(batch, locs, e, placed), Dirty());
    }

    method Complete(batch: Batch, ghost e: State)
      requires Started(batch, e)
      modifies this`run, this`ops, cache`keys
      ensures Valid() && Dirty() == old(Dirty()) && AllStored(cache.cells[..], batch)
    {
      ghost var placed, locs := cache.View(), cache.curLoc;
      PlacedAll(batch, locs, e, placed);
      PutAll();
      RecordForward(batch, locs, e, placed);
    }

    /**
     * A forward pass of the model: the batch is stored in every layer, or the cache was full and only its window
     * moved.
     */
    method Forward(batch: Batch, ghost live: set<int>, ghost maxSequences: nat) returns (ok: bool)
      requires Valid() && ValidBatch(cache.p, batch) && Continues(cache.cells[..], batch)
      modifies this`run, this`ops, cache, cache.cells
      ensures Valid() && Dirty() == old(Dirty())
      ensures ok ==> AllStored(cache.cells[..], batch)
      ensures old(Dirty()) == {} && cache.p.memory != MAX_INT32 && old(Roomy(live, maxSequences)) ==> ok
    {
      ghost var e;
      ok, e := Start(batch, live, maxSequences);
      if ok {
        Complete(batch, e);
      } else {
        Record(ForwardFull(batch), Dirty());
      }
    }

    method Copy(src: int, dst: int, len: int)
      requires Valid() && src !in Dirty()
      modifies this`run, this`ops, cache, cache.cells
      ensures Valid() && Dirty() == old(Dirty()) - {dst} && Copied(src, dst, len, old(cache.View()), cache.View())
    {
      cache.CopyPrefix(src, dst, len);
      Record(KvRuns.Copy(src, dst, len), Dirty() - {dst});
    }

    /** A removal, and after a failure the documented recovery. Either way no sequence becomes unreliable. */
    method Remove(sq: int, begin: int, end: int, faults: set<(int, int)>) returns (ok: bool)
      requires Valid() && 0 <= begin <= end <= MAX_INT32 && sq !in Dirty()
      modifies this`run, this`ops, cache, cache.cells
      ensures Valid() && Dirty() == old(Dirty())
      ensures if ok then Removed(sq, begin, end, old(cache.View()), cache.View())
              else forall i :: !Has(cache.cells[..], i, sq)
    {
      ok := cache.Remove(sq, begin, end, faults);
      if ok {
        Record(KvRuns.Remove(sq, begin, end), Dirty());
      } else {
        Record(RemoveFails(sq), Dirty() + {sq});
        var _ := cache.Remove(sq, 0, MAX_INT32, faults);
        assert forall i :: !Has(cache.cells[..], i, sq);
        Record(Clear(sq), Dirty() - {sq});
      }
    }
  }
}

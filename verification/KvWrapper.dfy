/** Several causal caches driven together; a forward pass happens in all of them or in none. */
module KvWrapper {
  import opened KvCells
  import opened KvSteps
  import opened KvInvariants
  import opened KvCapacity
  import opened KvCausal
  import KvRuns

  /** Truncated from token `j` of the batch on, for some `j < k`. */
  ghost predicate Undone(batch: Batch, k: int, s: int, pos: int) {
    exists j :: 0 <= j < k && j < |batch| && batch[j].sq == s && batch[j].pos <= pos
  }

  ghost predicate PartlyUnwound(batch: Batch, k: int, c: State, c': State) {
    && |c'.cells| == |c.cells| && c'.keys == c.keys
    && (forall i :: 0 <= i < |c.cells| ==> c'.cells[i].pos == c.cells[i].pos)
    && (forall i, s :: Has(c'.cells, i, s) <==> Has(c.cells, i, s) && !Undone(batch, k, s, c.cells[i].pos))
  }

  /** Truncation renumbers nothing and rotates nothing. */
  lemma TruncationIs(sq: int, begin: int, c: State, c': State)
    requires WellFormed(c) && Removed(sq, begin, MAX_INT32, c, c')
    ensures c'.keys == c.keys && |c'.cells| == |c.cells|
    ensures forall i :: 0 <= i < |c.cells| ==> c'.cells[i].pos == c.cells[i].pos
    ensures forall i, s :: Has(c'.cells, i, s) <==> Has(c.cells, i, s) && !(s == sq && begin <= c.cells[i].pos)
  {
    assert Rotated(sq, begin, 0, c'.cells, c.keys, c'.keys);
    forall l | l in c.keys
      ensures c'.keys[l] == c.keys[l]
    {
      RotationByZero(sq, begin, c'.cells, c.keys, c'.keys, l);
    }
  }

  lemma RotationByZero(sq: int, begin: int, cells: seq<Cell>, keys: map<int, seq<int>>, keys': map<int, seq<int>>,
                       l: int)
    requires Rotated(sq, begin, 0, cells, keys, keys') && l in keys
    ensures keys'[l] == keys[l]
  {
    forall i | 0 <= i < |keys[l]|
      ensures keys'[l][i] == keys[l][i]
    {
      assert keys'[l][i] == keys[l][i] + ShiftOf(cells, i, sq, begin, 0);
    }
  }

  lemma UnwoundOneMore(batch: Batch, k: int, c: State, mid: State, c': State)
    requires 0 <= k < |batch| && PartlyUnwound(batch, k, c, mid)
    requires WellFormed(mid) && Removed(batch[k].sq, batch[k].pos, MAX_INT32, mid, c')
    ensures PartlyUnwound(batch, k + 1, c, c')
  {
    TruncationIs(batch[k].sq, batch[k].pos, mid, c');
    forall s, pos
      ensures Undone(batch, k + 1, s, pos) <==> Undone(batch, k, s, pos) || (s == batch[k].sq && batch[k].pos <= pos)
    {
    }
  }

  /** Unwinding a batch that continued its sequences removes the batch and nothing else. */
  lemma UnwindingUndoesPlacing(batch: Batch, locs: seq<int>, e: State, placed: State, c': State)
    requires Continues(e.cells, batch) && Placed(batch, locs, e, placed) && PartlyUnwound(batch, |batch|, placed, c')
    ensures SameReferences(e, c')
  {
    PlacedReferences(batch, locs, e, placed);
    forall i, s
      ensures Has(c'.cells, i, s) <==> Has(e.cells, i, s)
    {
      if Has(e.cells, i, s) {
        assert !Undone(batch, |batch|, s, placed.cells[i].pos);
      } else if Has(placed.cells, i, s) {
        var k := PlacedOrigin(batch, locs, e, placed, i, s);
        assert Undone(batch, |batch|, s, placed.cells[i].pos);
      }
    }
  }

  /** Removes the batch from one cache, token by token. */
  method Unwind(c: Causal, batch: Batch, ghost locs: seq<int>, ghost e: State)
    requires c.Valid() && ValidBatch(c.p, batch)
    requires Continues(e.cells, batch) && Placed(batch, locs, e, c.View())
    modifies c`ranges, c`keys, c.cells
    ensures c.Valid() && SameReferences(e, c.View())
  {
    ghost var placed := c.View();
    assert forall s, pos :: !Undone(batch, 0, s, pos);
    for k := 0 to |batch|
      invariant c.Valid() && PartlyUnwound(batch, k, placed, c.View())
    {
      ghost var mid := c.View();
      var ok := c.Remove(batch[k].sq, batch[k].pos, MAX_INT32, {});
      UnwoundOneMore(batch, k, placed, mid, c.View());
    }
    UnwindingUndoesPlacing(batch, locs, e, placed, c.View());
  }

  /** What one cache goes through in a forward pass that happens, with `e` the state after eviction. */
  ghost predicate Forwarded(p: Params, batch: Batch, was: State, e: State, locs: seq<int>, now: State) {
    WellFormed(was) && WellFormed(e) && Evicted(p, batch, was, e) && Placed(batch, locs, e, now)
  }

  class WrapperCache {
    const caches: seq<Causal>
    var curType: int

    /** The caches are distinct objects over distinct arrays. */
    predicate Separate() {
      && (forall i :: 0 <= i < |caches| ==> caches[i].Sized())
      && (forall i, j :: 0 <= i < j < |caches| ==> caches[i] != caches[j] && caches[i].cells != caches[j].cells)
    }

    /** `views` are the states of the caches, all well formed. */
    ghost predicate Shows(views: seq<State>)
      reads set c | c in caches, set c | c in caches :: c.cells
    {
      && Separate() && |views| == |caches|
      && (forall i :: 0 <= i < |caches| ==> WellFormed(views[i]))
      && (forall i :: 0 <= i < |caches| ==> caches[i].View() == views[i])
    }

    constructor (caches: seq<Causal>)
      requires forall i :: 0 <= i < |caches| ==> caches[i].Sized()
      requires forall i, j :: 0 <= i < j < |caches| ==> caches[i] != caches[j] && caches[i].cells != caches[j].cells
      ensures Separate() && this.caches == caches
    {
      this.caches := caches;
      curType := 0;
    }

    /** One cache's part of the unwinding. */
    method UnwindOne(j: nat, batch: Batch, ghost was: State, ghost locs: seq<int>, ghost e: State,
                     ghost before: seq<State>)
      returns (ghost after: seq<State>)
      requires Shows(before) && j < |caches| && ValidBatch(caches[j].p, batch)
      requires Continues(was.cells, batch) && Forwarded(caches[j].p, batch, was, e, locs, before[j])
      modifies (set c | c in caches)`ranges, (set c | c in caches)`keys, set c | c in caches :: c.cells
      ensures Shows(after) && after == before[j := after[j]] && Unwound(caches[j].p, batch, was, e, after[j])
    {
      ContinuesAfterEviction(caches[j].p, batch, was, e);
      Unwind(caches[j], batch, locs, e);
      after := before[j := caches[j].View()];
    }

    /** Unwinds the caches below `n`, last first. */
    method UnwindBelow(n: nat, batch: Batch, ghost was: seq<State>, ghost locs: seq<seq<int>>, ghost es: seq<State>,
                       ghost before: seq<State>)
      returns (ghost after: seq<State>)
      requires n < |caches| == |was| && n < |es| && n <= |locs| && Shows(before)
      requires Unwound(caches[n].p, batch, was[n], es[n], before[n])
      requires forall j :: 0 <= j < n ==> ValidBatch(caches[j].p, batch) && Continues(was[j].cells, batch)
      requires forall j :: 0 <= j < n ==> Forwarded(caches[j].p, batch, was[j], es[j], locs[j], before[j])
      modifies (set c | c in caches)`ranges, (set c | c in caches)`keys, set c | c in caches :: c.cells
      ensures Shows(after)
      ensures forall j :: 0 <= j <= n ==> Unwound(caches[j].p, batch, was[j], es[j], after[j])
      ensures forall j :: n < j < |caches| ==> after[j] == before[j]
    {
      after := before;
      var j := n;
      while j > 0
        invariant 0 <= j <= n && Shows(after)
        invariant forall k :: 0 <= k < |caches| && !(j <= k < n) ==> after[k] == before[k]
        invariant forall k :: j <= k <= n ==> Unwound(caches[k].p, batch, was[k], es[k], after[k])
      {
        j := j - 1;
        after := UnwindOne(j, batch, was[j], locs[j], es[j], after);
      }
    }

    /** One cache's part of a forward pass. */
    method ForwardOne(i: nat, batch: Batch, ghost before: seq<State>)
      returns (ok: bool, ghost locs: seq<int>, ghost e: State, ghost after: seq<State>)
      requires Shows(before) && i < |caches| && ValidBatch(caches[i].p, batch)
      modifies set c | c in caches, set c | c in caches :: c.cells
      ensures Shows(after) && after == before[i := after[i]]
      ensures if ok then Forwarded(caches[i].p, batch, before[i], e, locs, after[i])
              else Unwound(caches[i].p, batch, before[i], e, after[i]) && |FreeCells(e.cells)| < |batch|
    {
      ok, e := caches[i].StartForward(batch, false);
      locs, after := caches[i].curLoc, before[i := caches[i].View()];
    }

    /** The caches' forward passes in order, up to the first that is full. */
    method ForwardAll(batch: Batch, ghost before: seq<State>)
      returns (ok: bool, n: nat, ghost locs: seq<seq<int>>, ghost es: seq<State>, ghost after: seq<State>)
      requires Shows(before)
      requires forall j :: 0 <= j < |caches| ==> ValidBatch(caches[j].p, batch)
      modifies set c | c in caches, set c | c in caches :: c.cells
      ensures Shows(after) && n <= |caches| && n <= |locs|
      ensures ok ==> n == |caches| == |es|
      ensures !ok ==> n < |caches| && |es| == n + 1 && Unwound(caches[n].p, batch, before[n], es[n], after[n])
      ensures !ok ==> |FreeCells(es[n].cells)| < |batch|
      ensures forall j :: 0 <= j < n ==> Forwarded(caches[j].p, batch, before[j], es[j], locs[j], after[j])
      ensures forall j :: n < j < |caches| ==> after[j] == before[j]
    {
      es, locs, after := [], [], before;
      n := 0;
      while n < |caches|
        invariant n <= |caches| && |es| == |locs| == n && Shows(after)
        invariant forall j :: 0 <= j < n ==> Forwarded(caches[j].p, batch, before[j], es[j], locs[j], after[j])
        invariant forall j :: n <= j < |caches| ==> after[j] == before[j]
      {
        ghost var e, l;
        ok, l, e, after := ForwardOne(n, batch, after);
        es, locs := es + [e], locs + [l];
        if !ok {
          return;
        }
        n := n + 1;
      }
      ok := true;
    }

    /** One cache's part of a reservation. */
    method ReserveOne(i: nat, batch: Batch, ghost views: seq<State>)
      requires Shows(views) && i < |caches| && ValidBatch(caches[i].p, batch)
      modifies set c | c in caches, set c | c in caches :: c.cells
      ensures Shows(views)
    {
      var ok, e := caches[i].StartForward(batch, true);
    }

    /** A reservation in every cache: none fails, and nothing is stored. */
    method ReserveAll(batch: Batch, ghost views: seq<State>)
      requires Shows(views)
      requires forall j :: 0 <= j < |caches| ==> ValidBatch(caches[j].p, batch)
      modifies set c | c in caches, set c | c in caches :: c.cells
      ensures Shows(views)
    {
      for i := 0 to |caches|
        invariant Shows(views)
      {
        ReserveOne(i, batch, views);
      }
    }

    /**
     * Starts a forward pass in every cache. If cache `n` is full, the ones before it are unwound: they
     * and cache `n` have moved their windows, and the caches after it are as they were. A reservation
     * changes no cache and succeeds.
     */
    method StartForward(batch: Batch, reserve: bool, ghost before: seq<State>)
      returns (ok: bool, n: nat, ghost locs: seq<seq<int>>, ghost es: seq<State>, ghost after: seq<State>)
      requires Shows(before)
      requires forall j :: 0 <= j < |caches| ==> ValidBatch(caches[j].p, batch)
      requires !reserve ==> forall j :: 0 <= j < |caches| ==> Continues(before[j].cells, batch)
      modifies this`curType, set c | c in caches, set c | c in caches :: c.cells
      ensures Shows(after)
      ensures curType == if ok then 0 else old(curType)
      ensures reserve ==> ok && after == before
      ensures !reserve && ok ==> n == |caches| == |es| && n <= |locs|
      ensures !reserve && ok ==> forall j :: 0 <= j < n ==>
                Forwarded(caches[j].p, batch, before[j], es[j], locs[j], after[j])
      ensures !ok ==> n < |caches| && |es| == n + 1 && |FreeCells(es[n].cells)| < |batch|
      ensures !ok ==> forall j :: 0 <= j <= n ==> Unwound(caches[j].p, batch, before[j], es[j], after[j])
      ensures !ok ==> forall j :: n < j < |caches| ==> after[j] == before[j]
    {
      if reserve {
        ReserveAll(batch, before);
        ok, n, locs, es, after := true, |caches|, [], [], before;
      } else {
        ok, n, locs, es, after := ForwardAll(batch, before);
      }
      if ok {
        curType := 0;
      } else {
        after := UnwindBelow(n, batch, before, locs, es, after);
      }
    }

    /** One cache's part of a removal. */
    method RemoveOne(i: nat, sq: int, begin: int, end: int, faults: set<(int, int)>, ghost before: seq<State>)
      returns (ok: bool, ghost after: seq<State>)
      requires Shows(before) && i < |caches| && 0 <= begin <= end <= MAX_INT32
      modifies (set c | c in caches)`ranges, (set c | c in caches)`keys, set c | c in caches :: c.cells
      ensures Shows(after) && after == before[i := after[i]] && OthersUntouched(sq, before[i], after[i])
      ensures ok ==> Removed(sq, begin, end, before[i], after[i])
      ensures end == MAX_INT32 ==> ok
    {
      ok := caches[i].Remove(sq, begin, end, faults);
      after := before[i := caches[i].View()];
      if ok {
        RemovalIsolated(sq, begin, end, before[i], after[i]);
      }
    }

    /** Removes from every cache, stopping at the first that fails. */
    method Remove(sq: int, begin: int, end: int, faults: seq<set<(int, int)>>, ghost before: seq<State>)
      returns (ok: bool, ghost after: seq<State>)
      requires Shows(before) && 0 <= begin <= end <= MAX_INT32 && |faults| == |caches|
      modifies (set c | c in caches)`ranges, (set c | c in caches)`keys, set c | c in caches :: c.cells
      ensures Shows(after)
      ensures ok ==> forall j :: 0 <= j < |caches| ==> Removed(sq, begin, end, before[j], after[j])
      ensures forall j :: 0 <= j < |caches| ==> OthersUntouched(sq, before[j], after[j])
      ensures end == MAX_INT32 ==> ok
    {
      after := before;
      for i := 0 to |caches|
        invariant Shows(after)
        invariant forall j :: 0 <= j < i ==> Removed(sq, begin, end, before[j], after[j])
        invariant forall j :: 0 <= j < i ==> OthersUntouched(sq, before[j], after[j])
        invariant forall j :: i <= j < |caches| ==> after[j] == before[j]
      {
        ok, after := RemoveOne(i, sq, begin, end, faults[i], after);
        if !ok {
          forall j | i < j < |caches|
            ensures OthersUntouched(sq, before[j], after[j])
          {
            Unchanged(sq, before[j]);
          }
          return;
        }
      }
      ok := true;
    }

    /** The documented retry: after a failed `Remove`, clearing the sequence works in every cache. */
    method RemoveOrClear(sq: int, begin: int, end: int, faults: seq<set<(int, int)>>, ghost before: seq<State>)
      returns (ok: bool, ghost after: seq<State>)
      requires Shows(before) && 0 <= begin <= end <= MAX_INT32 && |faults| == |caches|
      modifies (set c | c in caches)`ranges, (set c | c in caches)`keys, set c | c in caches :: c.cells
      ensures Shows(after)
      ensures forall j :: 0 <= j < |caches| ==>
                if ok then Removed(sq, begin, end, before[j], after[j])
                else forall i :: !Has(after[j].cells, i, sq)
      ensures forall j :: 0 <= j < |caches| ==> OthersUntouched(sq, before[j], after[j])
    {
      ok, after := Remove(sq, begin, end, faults, before);
      if !ok {
        var _, cleared := Remove(sq, 0, MAX_INT32, faults, after);
        forall j | 0 <= j < |caches|
          ensures (forall i :: !Has(cleared[j].cells, i, sq)) && OthersUntouched(sq, before[j], cleared[j])
        {
          TruncationIs(sq, 0, after[j], cleared[j]);
          UntouchedTwice(sq, before[j], after[j], cleared[j]);
        }
        after := cleared;
      }
    }

    method CanResume(s: int, pos: int, ghost views: seq<State>) returns (yes: bool)
      requires Shows(views) && 0 <= pos <= MAX_INT32
      ensures yes <==> forall j :: 0 <= j < |caches| ==> Resumable(caches[j].p, views[j].cells, s, pos)
    {
      for i := 0 to |caches|
        invariant forall j :: 0 <= j < i ==> Resumable(caches[j].p, views[j].cells, s, pos)
      {
        yes := caches[i].CanResume(s, pos);
        if !yes {
          return;
        }
      }
      yes := true;
    }
  }

  lemma Unchanged(sq: int, c: State)
    ensures OthersUntouched(sq, c, c)
  {
  }

  /**
   * After a failed forward pass no token of the batch is stored, and every earlier token within its memory window is.
   */
  lemma AtomicForward(p: Params, batch: Batch, was: State, e: State, c': State, s: int, q: int)
    requires ValidParams(p) && ValidBatch(p, batch) && WellFormed(was)
    requires Continues(was.cells, batch) && Evicted(p, batch, was, e) && SameReferences(e, c')
    ensures Token(s, q) in batch ==> !Stores(c'.cells, s, q)
    ensures Stores(c'.cells, s, q) <==>
              exists i :: Has(was.cells, i, s) && was.cells[i].pos == q
                          && (p.memory == 0x7fff_ffff || Recent(p, batch, was.cells, i, s))
  {
    EvictedIsWindowMoved(p, batch, was);
    if Stores(c'.cells, s, q) {
      var i :| Has(c'.cells, i, s) && c'.cells[i].pos == q;
      assert Has(e.cells, i, s);
      assert Has(was.cells, i, s);
    }
    if i :| Has(was.cells, i, s) && was.cells[i].pos == q
            && (p.memory == 0x7fff_ffff || Recent(p, batch, was.cells, i, s)) {
      assert Has(e.cells, i, s);
      assert Has(c'.cells, i, s);
    }
  }

  /** What a failed pass leaves in a wrapped cache is a state of a run, so what holds of runs holds of it. */
  lemma UnwoundIsStep(p: Params, ls: seq<int>, batch: Batch, was: State, e: State, now: State, dirty: set<int>)
    requires WellFormed(now) && Unwound(p, batch, was, e, now)
    ensures KvRuns.Step(p, ls, KvRuns.Snapshot(was, dirty), KvRuns.ForwardUnwound(batch, e),
              KvRuns.Snapshot(now, dirty))
    ensures Inv(was, dirty, set l | l in ls) ==> Inv(now, dirty, set l | l in ls)
  {
    if Inv(was, dirty, set l | l in ls) {
      KvRuns.StepKeepsInv(p, ls, KvRuns.Snapshot(was, dirty), KvRuns.ForwardUnwound(batch, e),
                          KvRuns.Snapshot(now, dirty), set l | l in ls);
    }
  }
}

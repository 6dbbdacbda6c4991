/** Every operation keeps the cache invariant, and a failed one confines the damage to its own sequence. */
module KvInvariants {
  import opened KvCells
  import opened KvSteps

  // ---------------------------------------------------------------- lowest and highest positions

  lemma {:induction false} BatchLowIs(batch: Batch, s: int)
    ensures forall k :: 0 <= k < |batch| && batch[k].sq == s ==> BatchLow(batch, s) <= batch[k].pos
    ensures BatchLow(batch, s) == MAX_INT32 || Token(s, BatchLow(batch, s)) in batch
    ensures InBatch(batch, s) && (forall k :: 0 <= k < |batch| ==> batch[k].pos < MAX_INT32) ==>
              Token(s, BatchLow(batch, s)) in batch
  {
    if batch != [] {
      var n := |batch| - 1;
      BatchLowIs(batch[..n], s);
      assert batch == batch[..n] + [batch[n]];
      assert batch[n].sq == s ==> BatchLow(batch, s) <= batch[n].pos;
    }
  }

  lemma {:induction false} MaxPosIs(cells: seq<Cell>, n: nat, s: int)
    requires n <= |cells|
    ensures forall i :: i < n && Has(cells, i, s) ==> cells[i].pos <= MaxPos(cells, n, s)
    ensures MaxPos(cells, n, s) >= 0
    ensures MaxPos(cells, n, s) == 0 || exists i :: i < n && Has(cells, i, s) && cells[i].pos == MaxPos(cells, n, s)
  {
    if n > 0 {
      MaxPosIs(cells, n - 1, s);
    }
  }

  /** The lowest position about to be computed decides exactly what is within memory. */
  lemma KeptIsRecent(p: Params, batch: Batch, cells: seq<Cell>, i: int, s: int)
    requires p.memory != MAX_INT32 && ValidBatch(p, batch) && Has(cells, i, s)
    requires forall j :: Has(cells, j, s) ==> cells[j].pos >= 0
    ensures Kept(p, batch, cells, i, s) <==> Recent(p, batch, cells, i, s)
  {
    BatchLowIs(batch, s);
    MaxPosIs(cells, |cells|, s);
    if k :| 0 <= k < |batch| && batch[k].sq == s {
      assert InBatch(batch, s);
      var low := BatchLow(batch, s);
      var j :| 0 <= j < |batch| && batch[j] == Token(s, low);
      assert batch[j].sq == s && batch[j].pos == low;
    } else if !Kept(p, batch, cells, i, s) {
      var j :| Has(cells, j, s) && cells[j].pos == MaxPos(cells, |cells|, s);
    }
  }

  /** Eviction by the lowest position is eviction of exactly what is outside memory. */
  lemma EvictedIsWindowMoved(p: Params, batch: Batch, c: State)
    requires WellFormed(c) && ValidBatch(p, batch)
    ensures forall e :: Evicted(p, batch, c, e) <==> WindowMoved(p, batch, c, e)
  {
    forall i, s | Has(c.cells, i, s) && p.memory != MAX_INT32
      ensures Kept(p, batch, c.cells, i, s) <==> Recent(p, batch, c.cells, i, s)
    {
      KeptIsRecent(p, batch, c.cells, i, s);
    }
  }

  lemma FreeStaysFree(cells: seq<Cell>, cells': seq<Cell>, o: int)
    requires |cells'| == |cells|
    requires forall i, s :: Has(cells', i, s) ==> Has(cells, i, s) || Has(cells, i, o)
    ensures forall i :: Free(cells, i) ==> Free(cells', i)
  {
    forall i | 0 <= i < |cells| && cells'[i].sequences != []
      ensures !Free(cells, i)
    {
      assert Has(cells', i, cells'[i].sequences[0]);
    }
  }

  // ---------------------------------------------------------------- forward

  lemma EvictionKeepsInv(p: Params, batch: Batch, c: State, c': State, dirty: set<int>, layers: set<int>)
    requires Inv(c, dirty, layers) && WellFormed(c') && Evicted(p, batch, c, c')
    ensures Inv(c', dirty, layers)
  {
    forall s, i, j, q |
        s !in dirty && Has(c'.cells, i, s) && Has(c'.cells, j, s) && c'.cells[i].pos <= q <= c'.cells[j].pos
      ensures Stores(c'.cells, s, q)
    {
      assert Has(c.cells, i, s) && Has(c.cells, j, s) && GapFree(c.cells, s);
      assert Stores(c.cells, s, q);
      var m :| Has(c.cells, m, s) && c.cells[m].pos == q;
      assert Kept(p, batch, c.cells, i, s);
      assert Kept(p, batch, c.cells, m, s);
      assert Has(c'.cells, m, s);
    }
    forall i | Referenced(c'.cells, i, dirty)
      ensures RowAgrees(c', i)
    {
      var s :| Has(c'.cells, i, s) && s !in dirty;
      assert Has(c.cells, i, s);
      assert RowAgrees(c, i);
    }
    FreeStaysFree(c.cells, c'.cells, 0);
  }

  lemma ContinuesAfterEviction(p: Params, batch: Batch, c: State, c': State)
    requires Evicted(p, batch, c, c') && Continues(c.cells, batch)
    ensures Continues(c'.cells, batch)
  {
    forall i, k, q | 0 <= k < |batch| && Has(c'.cells, i, batch[k].sq) && c'.cells[i].pos < q < batch[k].pos
      ensures Token(batch[k].sq, q) in batch || Stores(c'.cells, batch[k].sq, q)
    {
      var s := batch[k].sq;
      assert Has(c.cells, i, s) && Kept(p, batch, c.cells, i, s);
      if Token(s, q) !in batch {
        assert Stores(c.cells, s, q);
        var m :| Has(c.cells, m, s) && c.cells[m].pos == q;
        assert Kept(p, batch, c.cells, m, s);
        assert Has(c'.cells, m, s);
      }
    }
  }

  /** Storing the batch disturbs no reference, and the new cells reference the batch's tokens and nothing else. */
  lemma PlacedReferences(batch: Batch, locs: seq<int>, c: State, c': State)
    requires Placed(batch, locs, c, c')
    ensures forall i, s :: Has(c'.cells, i, s) && i !in locs ==> Has(c.cells, i, s) && c'.cells[i] == c.cells[i]
    ensures forall i, s :: Has(c.cells, i, s) ==> i !in locs && Has(c'.cells, i, s) && c'.cells[i] == c.cells[i]
    ensures forall k :: 0 <= k < |batch| ==>
              Has(c'.cells, locs[k], batch[k].sq) && c'.cells[locs[k]].pos == batch[k].pos
  {
    forall k | 0 <= k < |batch|
      ensures Has(c'.cells, locs[k], batch[k].sq) && c'.cells[locs[k]].pos == batch[k].pos
    {
      assert Free(c.cells, locs[k]);
      assert c'.cells[locs[k]] == Cell(batch[k].pos, [batch[k].sq]);
    }
  }

  lemma PlacedOrigin(batch: Batch, locs: seq<int>, c: State, c': State, i: int, s: int) returns (k: int)
    requires Placed(batch, locs, c, c') && Has(c'.cells, i, s) && i in locs
    ensures 0 <= k < |batch| && locs[k] == i && batch[k] == Token(s, c'.cells[i].pos)
  {
    k :| 0 <= k < |locs| && locs[k] == i;
    assert c'.cells[locs[k]] == Cell(batch[k].pos, [batch[k].sq]);
  }

  lemma PlacedStores(batch: Batch, locs: seq<int>, c: State, c': State, s: int, q: int)
    requires Placed(batch, locs, c, c')
    ensures Stores(c'.cells, s, q) <==> Stores(c.cells, s, q) || Token(s, q) in batch
  {
    PlacedReferences(batch, locs, c, c');
    if Token(s, q) in batch {
      var k :| 0 <= k < |batch| && batch[k] == Token(s, q);
      assert Has(c'.cells, locs[k], batch[k].sq);
    }
    if Stores(c'.cells, s, q) {
      var i :| Has(c'.cells, i, s) && c'.cells[i].pos == q;
      if i in locs {
        var k := PlacedOrigin(batch, locs, c, c', i, s);
      }
    }
  }

  lemma PlacingKeepsUnique(batch: Batch, locs: seq<int>, c: State, c': State, s: int)
    requires Placed(batch, locs, c, c') && Continues(c.cells, batch) && UniquePositions(c.cells, s)
    ensures UniquePositions(c'.cells, s)
  {
    PlacedReferences(batch, locs, c, c');
    forall i, j | Has(c'.cells, i, s) && Has(c'.cells, j, s) && c'.cells[i].pos == c'.cells[j].pos
      ensures i == j
    {
      if i in locs {
        var a := PlacedOrigin(batch, locs, c, c', i, s);
        if j in locs {
          var b := PlacedOrigin(batch, locs, c, c', j, s);
        }
      } else if j in locs {
        var b := PlacedOrigin(batch, locs, c, c', j, s);
      }
    }
  }

  /** What a sequence stored before comes before what it stores now. */
  lemma NewAfterOld(batch: Batch, locs: seq<int>, c: State, c': State, s: int, i: int, j: int)
    requires Placed(batch, locs, c, c') && Continues(c.cells, batch) && Has(c'.cells, i, s) && Has(c'.cells, j, s)
    ensures i in locs && j !in locs ==> c'.cells[j].pos < c'.cells[i].pos
  {
    PlacedReferences(batch, locs, c, c');
    if i in locs && j !in locs {
      var a := PlacedOrigin(batch, locs, c, c', i, s);
      assert Has(c.cells, j, batch[a].sq);
    }
  }

  lemma PlacingKeepsGapFree(batch: Batch, locs: seq<int>, c: State, c': State, s: int, i: int, j: int, q: int)
    requires Placed(batch, locs, c, c') && Continues(c.cells, batch) && GapFree(c.cells, s)
    requires Has(c'.cells, i, s) && Has(c'.cells, j, s) && c'.cells[i].pos <= q <= c'.cells[j].pos
    ensures Stores(c'.cells, s, q)
  {
    PlacedReferences(batch, locs, c, c');
    PlacedStores(batch, locs, c, c', s, q);
    if j in locs {
      var b := PlacedOrigin(batch, locs, c, c', j, s);
      if i in locs {
        var a := PlacedOrigin(batch, locs, c, c', i, s);
        assert Token(batch[a].sq, q) in batch;
      } else {
        assert Has(c.cells, i, batch[b].sq);
        assert q == c.cells[i].pos ==> Stores(c.cells, s, q);
        assert q == batch[b].pos ==> Token(s, q) in batch;
      }
    } else {
      NewAfterOld(batch, locs, c, c', s, i, j);
      assert Has(c.cells, i, s) && Has(c.cells, j, s);
    }
  }

  lemma {:induction false} PutRowAt(row: seq<int>, locs: seq<int>, batch: Batch)
    requires |locs| == |batch|
    requires forall k :: 0 <= k < |locs| ==> 0 <= locs[k] < |row|
    requires forall j, k :: 0 <= j < k < |locs| ==> locs[j] != locs[k]
    ensures forall k :: 0 <= k < |locs| ==> PutRow(row, locs, batch)[locs[k]] == batch[k].pos
    ensures forall i :: 0 <= i < |row| && i !in locs ==> PutRow(row, locs, batch)[i] == row[i]
    decreases |locs|
  {
    if locs != [] {
      var n := |locs| - 1;
      PutRowAt(row, locs[..n], batch[..n]);
      assert forall k :: 0 <= k < n ==> locs[..n][k] == locs[k] && batch[..n][k] == batch[k];
      assert forall i :: i !in locs ==> i !in locs[..n];
    }
  }

  /** The model runs through its layers and puts the batch's keys into each. */
  function PutLayers(c: State, layers: seq<int>, locs: seq<int>, batch: Batch): (r: State)
    requires |locs| == |batch|
    requires forall k :: 0 <= k < |locs| ==> 0 <= locs[k] < |c.cells|
    requires forall l :: l in c.keys ==> |c.keys[l]| == |c.cells|
    ensures r.cells == c.cells && r.ranges == c.ranges
    ensures forall l :: l in r.keys ==> |r.keys[l]| == |c.cells|
    decreases |layers|
  {
    if layers == [] then c else PutLayers(PutLayer(c, layers[0], locs, batch), layers[1..], locs, batch)
  }

  /** In `r` exactly the rows of the batch, in exactly `layers`, are new, and hold the batch's positions. */
  ghost predicate RowsPut(c: State, r: State, layers: seq<int>, locs: seq<int>, batch: Batch)
    requires |locs| == |batch| && forall k :: 0 <= k < |locs| ==> 0 <= locs[k] < |c.cells|
    requires forall l :: l in c.keys ==> |c.keys[l]| == |c.cells|
    requires |r.cells| == |c.cells| && forall l :: l in r.keys ==> |r.keys[l]| == |c.cells|
  {
    && r.keys.Keys == c.keys.Keys + (set l | l in layers)
    && (forall l, k :: l in layers && 0 <= k < |locs| ==> r.keys[l][locs[k]] == batch[k].pos)
    && (forall l, i :: l in c.keys && 0 <= i < |c.cells| && i !in locs ==> r.keys[l][i] == c.keys[l][i])
    && (forall l :: l in c.keys && l !in layers ==> r.keys[l] == c.keys[l])
  }

  lemma RowsPutOneMore(c: State, c1: State, r: State, layers: seq<int>, locs: seq<int>, batch: Batch)
    requires |locs| == |batch| && forall k :: 0 <= k < |locs| ==> 0 <= locs[k] < |c.cells|
    requires forall j, k :: 0 <= j < k < |locs| ==> locs[j] != locs[k]
    requires forall l :: l in c.keys ==> |c.keys[l]| == |c.cells|
    requires |r.cells| == |c.cells| && forall l :: l in r.keys ==> |r.keys[l]| == |c.cells|
    requires layers != [] && c1 == PutLayer(c, layers[0], locs, batch) && RowsPut(c1, r, layers[1..], locs, batch)
    ensures RowsPut(c, r, layers, locs, batch)
  {
    var row := if layers[0] in c.keys then c.keys[layers[0]] else seq(|c.cells|, _ => 0);
    PutRowAt(row, locs, batch);
    assert layers == [layers[0]] + layers[1..];
    forall l, k | l in layers && 0 <= k < |locs|
      ensures r.keys[l][locs[k]] == batch[k].pos
    {
      if l !in layers[1..] {
        assert l == layers[0] && l in c1.keys;
        assert r.keys[l] == c1.keys[l];
      }
    }
  }

  lemma {:induction false} PutLayersRows(c: State, layers: seq<int>, locs: seq<int>, batch: Batch)
    requires |locs| == |batch|
    requires forall k :: 0 <= k < |locs| ==> 0 <= locs[k] < |c.cells|
    requires forall j, k :: 0 <= j < k < |locs| ==> locs[j] != locs[k]
    requires forall l :: l in c.keys ==> |c.keys[l]| == |c.cells|
    ensures RowsPut(c, PutLayers(c, layers, locs, batch), layers, locs, batch)
    decreases |layers|
  {
    if layers != [] {
      var c1 := PutLayer(c, layers[0], locs, batch);
      PutLayersRows(c1, layers[1..], locs, batch);
      RowsPutOneMore(c, c1, PutLayers(c1, layers[1..], locs, batch), layers, locs, batch);
    }
  }

  lemma ForwardKeepsPositions(batch: Batch, locs: seq<int>, e: State, c': State, s: int)
    requires Placed(batch, locs, e, c') && Continues(e.cells, batch)
    requires UniquePositions(e.cells, s) && GapFree(e.cells, s)
    ensures UniquePositions(c'.cells, s) && GapFree(c'.cells, s)
  {
    PlacingKeepsUnique(batch, locs, e, c', s);
    forall i, j, q | Has(c'.cells, i, s) && Has(c'.cells, j, s) && c'.cells[i].pos <= q <= c'.cells[j].pos
      ensures Stores(c'.cells, s, q)
    {
      PlacingKeepsGapFree(batch, locs, e, c', s, i, j, q);
    }
  }

  /** Once every layer was put, old rows and new rows alike are rotated to their cell's position. */
  lemma ForwardKeepsRow(batch: Batch, locs: seq<int>, ls: seq<int>, e: State, c': State, dirty: set<int>,
                        layers: set<int>, i: int, s: int)
    requires Inv(e, dirty, layers) && Placed(batch, locs, e, c') && layers == set l | l in ls
    requires Has(c'.cells, i, s) && s !in dirty
    ensures RowAgrees(PutLayers(c', ls, locs, batch), i)
  {
    PutLayersRows(c', ls, locs, batch);
    if i in locs {
      var k := PlacedOrigin(batch, locs, e, c', i, s);
    } else {
      PlacedReferences(batch, locs, e, c');
      assert Referenced(e.cells, i, dirty) && RowAgrees(e, i);
      assert !Free(e.cells, i);
      assert e.keys.Keys == layers;
    }
  }

  /** A whole forward pass: evict, place the batch, put its keys in every layer. */
  lemma ForwardKeepsInv(p: Params, batch: Batch, locs: seq<int>, ls: seq<int>, c: State, e: State, c': State,
                        dirty: set<int>, layers: set<int>)
    requires Inv(c, dirty, layers) && Continues(c.cells, batch)
    requires WellFormed(e) && Evicted(p, batch, c, e)
    requires WellFormed(c') && Placed(batch, locs, e, c')
    requires layers == set l | l in ls
    ensures Inv(PutLayers(c', ls, locs, batch), dirty, layers)
  {
    EvictionKeepsInv(p, batch, c, e, dirty, layers);
    ContinuesAfterEviction(p, batch, c, e);
    var r := PutLayers(c', ls, locs, batch);
    forall s | s !in dirty
      ensures UniquePositions(r.cells, s) && GapFree(r.cells, s)
    {
      ForwardKeepsPositions(batch, locs, e, c', s);
    }
    forall i | Referenced(r.cells, i, dirty)
      ensures RowAgrees(r, i)
    {
      var s :| Has(r.cells, i, s) && s !in dirty;
      ForwardKeepsRow(batch, locs, ls, e, c', dirty, layers, i, s);
    }
    assert r.keys.Keys == layers by { PutLayersRows(c', ls, locs, batch); }
  }

  /** Only references, their positions and the keys matter. */
  lemma SameReferencesKeepInv(c: State, c': State, dirty: set<int>, layers: set<int>)
    requires Inv(c, dirty, layers) && WellFormed(c') && SameReferences(c, c')
    ensures Inv(c', dirty, layers)
  {
    forall s, i, j, q |
        s !in dirty && Has(c'.cells, i, s) && Has(c'.cells, j, s) && c'.cells[i].pos <= q <= c'.cells[j].pos
      ensures Stores(c'.cells, s, q)
    {
      assert Has(c.cells, i, s) && Has(c.cells, j, s) && GapFree(c.cells, s);
      assert Stores(c.cells, s, q);
      var m :| Has(c.cells, m, s) && c.cells[m].pos == q;
      assert Has(c'.cells, m, s);
    }
    forall i | Referenced(c'.cells, i, dirty)
      ensures RowAgrees(c', i)
    {
      var s :| Has(c'.cells, i, s) && s !in dirty;
      assert Has(c.cells, i, s);
      assert RowAgrees(c, i);
    }
    FreeStaysFree(c.cells, c'.cells, 0);
  }

  // ---------------------------------------------------------------- prefix copies

  /** `dst` references exactly the cells of `src` below `len`, which is what a copy of a prefix is. */
  ghost predicate HoldsPrefix(src: int, dst: int, len: int, c: State, c': State) {
    forall i :: Has(c'.cells, i, dst) <==> Has(c.cells, i, src) && c.cells[i].pos < len
  }

  /** The destination holds the prefix if and only if it is another sequence, or the prefix is empty. */
  lemma CopyHoldsPrefixIff(src: int, dst: int, len: int, c: State, c': State)
    requires Copied(src, dst, len, c, c')
    ensures HoldsPrefix(src, dst, len, c, c') <==>
              src != dst || forall i :: Has(c.cells, i, src) ==> c.cells[i].pos >= len
  {
    if i :| Has(c.cells, i, src) && c.cells[i].pos < len && src == dst {
      assert !Has(c'.cells, i, dst);
    }
  }

  /** One cell of sequence 7, copied onto sequence 7: the sequence is gone. */
  lemma SelfCopyExample(c: State, c': State)
    requires c.cells == [Cell(0, [7])] && Copied(7, 7, 1, c, c')
    ensures !HoldsPrefix(7, 7, 1, c, c') && forall i :: !Has(c'.cells, i, 7)
  {
    assert Has(c.cells, 0, 7) && c.cells[0].pos < 1;
    CopyHoldsPrefixIff(7, 7, 1, c, c');
  }

  lemma CopyKeepsPositions(src: int, dst: int, len: int, c: State, c': State, s: int)
    requires Copied(src, dst, len, c, c')
    requires var o := if s == dst then src else s; UniquePositions(c.cells, o) && GapFree(c.cells, o)
    ensures UniquePositions(c'.cells, s) && GapFree(c'.cells, s)
  {
    var o := if s == dst then src else s;
    assert forall i :: Has(c'.cells, i, s) ==> Has(c.cells, i, o);
    forall i, j, q | Has(c'.cells, i, s) && Has(c'.cells, j, s) && c'.cells[i].pos <= q <= c'.cells[j].pos
      ensures Stores(c'.cells, s, q)
    {
      assert Stores(c.cells, o, q);
      var m :| Has(c.cells, m, o) && c.cells[m].pos == q;
      assert Has(c'.cells, m, s);
    }
  }

  lemma CopyKeepsInv(src: int, dst: int, len: int, c: State, c': State, dirty: set<int>, layers: set<int>)
    requires Inv(c, dirty, layers) && WellFormed(c') && Copied(src, dst, len, c, c')
    requires src !in dirty
    ensures Inv(c', dirty - {dst}, layers)
  {
    forall s | s !in dirty - {dst}
      ensures UniquePositions(c'.cells, s) && GapFree(c'.cells, s)
    {
      CopyKeepsPositions(src, dst, len, c, c', s);
    }
    forall i | Referenced(c'.cells, i, dirty - {dst})
      ensures RowAgrees(c', i)
    {
      var s :| Has(c'.cells, i, s) && s !in dirty - {dst};
      assert Has(c.cells, i, if s == dst then src else s);
      assert RowAgrees(c, i);
    }
    FreeStaysFree(c.cells, c'.cells, src);
  }

  // ---------------------------------------------------------------- removal

  /** A successful `Remove` keeps the positions of its sequence an interval without repetition. */
  lemma RemovalKeepsPositions(sq: int, begin: int, end: int, c: State, c': State)
    requires begin <= end && Removed(sq, begin, end, c, c')
    requires UniquePositions(c.cells, sq) && GapFree(c.cells, sq)
    requires forall i, s :: Has(c.cells, i, s) ==> c.cells[i].pos < MAX_INT32
    ensures UniquePositions(c'.cells, sq) && GapFree(c'.cells, sq)
  {
    forall i, j, q | Has(c'.cells, i, sq) && Has(c'.cells, j, sq) && c'.cells[i].pos <= q <= c'.cells[j].pos
      ensures Stores(c'.cells, sq, q)
    {
      assert Has(c.cells, i, sq) && Has(c.cells, j, sq);
      // the position that `q` had before
      var q0 := if q < begin || end == MAX_INT32 then q else q - Offset(begin, end);
      assert c.cells[i].pos <= q0 <= c.cells[j].pos;
      assert Stores(c.cells, sq, q0);
      var m :| Has(c.cells, m, sq) && c.cells[m].pos == q0;
      assert Has(c'.cells, m, sq) && c'.cells[m].pos == q;
    }
    forall i, j | Has(c'.cells, i, sq) && Has(c'.cells, j, sq) && c'.cells[i].pos == c'.cells[j].pos
      ensures i == j
    {
      assert Has(c.cells, i, sq) && Has(c.cells, j, sq);
    }
  }

  /**
   * What a successful `Remove` leaves, said of positions: below `begin` everything stays, `begin..end` is gone, and
   * what was from `end` on is from `begin` on. Each cell that is left has its keys rotated by as much as its position
   * changed, and the cells of the other sequences keep both.
   */
  lemma RemovalSplices(sq: int, begin: int, end: int, c: State, c': State)
    requires 0 <= begin <= end <= MAX_INT32 && WellFormed(c) && Removed(sq, begin, end, c, c')
    ensures forall i :: Has(c'.cells, i, sq) <==> Has(c.cells, i, sq) && !(begin <= c.cells[i].pos < end)
    ensures forall i :: Has(c'.cells, i, sq) ==>
              c'.cells[i].pos == if c.cells[i].pos < begin then c.cells[i].pos else c.cells[i].pos - (end - begin)
    ensures forall i, l :: Has(c'.cells, i, sq) && l in c.keys && i < |c.keys[l]| ==>
              l in c'.keys && i < |c'.keys[l]| && c'.keys[l][i] - c.keys[l][i] == c'.cells[i].pos - c.cells[i].pos
    ensures forall q :: Stores(c'.cells, sq, q) <==> Stores(c.cells, sq, if q < begin then q else q + (end - begin))
    ensures OthersUntouched(sq, c, c')
  {
    RemovalIsolated(sq, begin, end, c, c');
    forall q
      ensures Stores(c'.cells, sq, q) <==> Stores(c.cells, sq, if q < begin then q else q + (end - begin))
    {
      SplicedPosition(sq, begin, end, c, c', q);
    }
  }

  lemma SplicedPosition(sq: int, begin: int, end: int, c: State, c': State, q: int)
    requires 0 <= begin <= end <= MAX_INT32 && WellFormed(c) && Removed(sq, begin, end, c, c')
    ensures Stores(c'.cells, sq, q) <==> Stores(c.cells, sq, if q < begin then q else q + (end - begin))
  {
    var q0 := if q < begin then q else q + (end - begin);
    if i :| Has(c.cells, i, sq) && c.cells[i].pos == q0 {
      assert Has(c'.cells, i, sq) && c'.cells[i].pos == q;
    }
    if i :| Has(c'.cells, i, sq) && c'.cells[i].pos == q {
      assert Has(c.cells, i, sq) && c.cells[i].pos == q0;
    }
  }

  /** A successful `Remove` is invisible to every other sequence. */
  lemma RemovalIsolated(sq: int, begin: int, end: int, c: State, c': State)
    requires WellFormed(c) && Removed(sq, begin, end, c, c')
    ensures OthersUntouched(sq, c, c')
  {
    forall i, s | s != sq && Has(c.cells, i, s)
      ensures c'.cells[i].pos == c.cells[i].pos
    {
      assert !Blocked(c.cells, i, sq, end);
    }
    forall i, s, l | s != sq && Has(c.cells, i, s) && l in c.keys && i < |c.keys[l]|
      ensures c'.keys[l][i] == c.keys[l][i]
    {
      assert !Blocked(c.cells, i, sq, end);
    }
  }

  lemma RemovalKeepsInv(sq: int, begin: int, end: int, c: State, c': State, dirty: set<int>, layers: set<int>)
    requires Inv(c, dirty, layers) && WellFormed(c') && begin <= end && Removed(sq, begin, end, c, c')
    requires sq !in dirty
    ensures Inv(c', dirty, layers)
  {
    RemovalIsolated(sq, begin, end, c, c');
    RemovalKeepsPositions(sq, begin, end, c, c');
    OthersKeepPositions(sq, c, c', dirty);
    OthersKeepRows(sq, c, c', dirty);
    forall i | Referenced(c'.cells, i, dirty)
      ensures RowAgrees(c', i)
    {
      if !Referenced(c'.cells, i, dirty + {sq}) {
        assert Has(c'.cells, i, sq);
        assert Has(c.cells, i, sq);
        assert Referenced(c.cells, i, dirty) && RowAgrees(c, i);
      }
    }
    FreeStaysFree(c.cells, c'.cells, sq);
  }

  lemma OthersKeepPositions(sq: int, c: State, c': State, dirty: set<int>)
    requires OthersUntouched(sq, c, c')
    requires forall s :: s !in dirty ==> UniquePositions(c.cells, s) && GapFree(c.cells, s)
    ensures forall s :: s !in dirty && s != sq ==> UniquePositions(c'.cells, s) && GapFree(c'.cells, s)
  {
    forall s | s !in dirty && s != sq
      ensures UniquePositions(c'.cells, s) && GapFree(c'.cells, s)
    {
      forall i, j, q | Has(c'.cells, i, s) && Has(c'.cells, j, s) && c'.cells[i].pos <= q <= c'.cells[j].pos
        ensures Stores(c'.cells, s, q)
      {
        assert Has(c.cells, i, s) && Has(c.cells, j, s);
        assert Stores(c.cells, s, q);
        var m :| Has(c.cells, m, s) && c.cells[m].pos == q;
        assert Has(c'.cells, m, s);
      }
      assert forall i :: Has(c'.cells, i, s) ==> Has(c.cells, i, s);
    }
  }

  lemma OthersKeepRows(sq: int, c: State, c': State, dirty: set<int>)
    requires OthersUntouched(sq, c, c')
    requires forall i :: Referenced(c.cells, i, dirty) ==> RowAgrees(c, i)
    ensures forall i :: Referenced(c'.cells, i, dirty + {sq}) ==> RowAgrees(c', i)
  {
    forall i | Referenced(c'.cells, i, dirty + {sq})
      ensures RowAgrees(c', i)
    {
      var s :| Has(c'.cells, i, s) && s !in dirty + {sq};
      assert Has(c.cells, i, s);
      assert Referenced(c.cells, i, dirty);
      assert RowAgrees(c, i);
    }
  }

  /** What two operations in turn leave untouched. */
  lemma UntouchedTwice(sq: int, c: State, mid: State, c': State)
    requires OthersUntouched(sq, c, mid) && OthersUntouched(sq, mid, c')
    ensures OthersUntouched(sq, c, c')
  {
  }

  /** Whatever way `Remove` fails, only its own sequence becomes unreliable. */
  lemma FailedRemovalKeepsInv(sq: int, c: State, c': State, dirty: set<int>, layers: set<int>)
    requires Inv(c, dirty, layers) && WellFormed(c') && OthersUntouched(sq, c, c')
    ensures Inv(c', dirty + {sq}, layers)
  {
    OthersKeepPositions(sq, c, c', dirty);
    OthersKeepRows(sq, c, c', dirty);
    FreeStaysFree(c.cells, c'.cells, sq);
  }

  /** The documented recovery: removing all of a sequence makes it reliable again, from any state. */
  lemma RecoveryKeepsInv(sq: int, c: State, c': State, dirty: set<int>, layers: set<int>)
    requires Inv(c, dirty, layers) && WellFormed(c') && Removed(sq, 0, MAX_INT32, c, c')
    ensures Inv(c', dirty - {sq}, layers)
    ensures forall i :: !Has(c'.cells, i, sq)
  {
    RemovalIsolated(sq, 0, MAX_INT32, c, c');
    OthersKeepPositions(sq, c, c', dirty);
    OthersKeepRows(sq, c, c', dirty);
    FreeStaysFree(c.cells, c'.cells, sq);
    assert forall i :: !Has(c'.cells, i, sq);
    forall i | Referenced(c'.cells, i, dirty - {sq})
      ensures Referenced(c'.cells, i, dirty + {sq})
    {
      var s :| Has(c'.cells, i, s) && s !in dirty - {sq};
      assert s !in dirty + {sq};
    }
  }
}

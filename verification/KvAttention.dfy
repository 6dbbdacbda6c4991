/** The mask over a sub-range of the cache is the whole-cache mask; resuming finds its whole window. */
module KvAttention {
  import opened KvCells
  import opened KvSteps
  import opened KvInvariants
  import opened KvCapacity
  import opened Arithmetic

  /** The sub-range collected while the window moves: everything of the batch's sequences that its window can reach. */
  ghost predicate Collects(p: Params, batch: Batch, cells: seq<Cell>, r: Range) {
    forall i, s | InBatch(batch, s) && Has(cells, i, s) ::
      p.memory == MAX_INT32 || cells[i].pos >= BatchLow(batch, s) - p.window ==> r.min <= i <= r.max
  }

  /** Nothing that any token of the batch attends to lies outside the collected range and the new cells. */
  lemma RangeIsComplete(p: Params, batch: Batch, locs: seq<int>, e: State, c': State, r: Range, k: int, j: int,
                        causal: bool)
    requires Placed(batch, locs, e, c') && Collects(p, batch, e.cells, r)
    requires forall i :: i in locs ==> r.min <= i <= r.max
    requires 0 <= k < |batch| && 0 <= j < |c'.cells| && Attends(p, c'.cells[j], batch[k], causal)
    ensures r.min <= j <= r.max
  {
    var s := batch[k].sq;
    assert Has(c'.cells, j, s);
    if j !in locs {
      PlacedReferences(batch, locs, e, c');
      BatchLowIs(batch, s);
      assert InBatch(batch, s) && Has(e.cells, j, s);
    }
  }

  /**
   * Which cells a token sees: those of its own sequence, not later than itself unless it is exempt, no further back
   * than the window, and with chunked attention only those of its own chunk or, if exempt, of later ones.
   */
  lemma AttendsIs(p: Params, cell: Cell, t: Token, causal: bool)
    requires 0 <= p.chunk && 0 <= t.pos && 0 <= cell.pos
    ensures Attends(p, cell, t, causal) <==>
              && t.sq in cell.sequences
              && (causal ==> cell.pos <= t.pos)
              && t.pos - cell.pos <= p.window
              && (p.chunk > 0 ==> cell.pos / p.chunk >= t.pos / p.chunk)
    ensures causal && p.chunk > 0 && Attends(p, cell, t, causal) ==> cell.pos / p.chunk == t.pos / p.chunk
    ensures p.window == 0x7fff_ffff && t.pos < 0x7fff_ffff ==> t.pos - cell.pos <= p.window
  {
    if p.chunk > 0 {
      ChunkStart(cell.pos, t.pos, p.chunk);
      if cell.pos <= t.pos {
        ChunkOrder(cell.pos, t.pos, p.chunk);
      }
    }
  }

  /** A position is at or after the start of another's chunk if and only if it is in that chunk or a later one. */
  lemma ChunkStart(q: int, pos: int, chunk: int)
    requires chunk > 0
    ensures q >= pos - pos % chunk <==> q / chunk >= pos / chunk
  {
    var a, b := q / chunk, pos / chunk;
    assert q == a * chunk + q % chunk && pos == b * chunk + pos % chunk;
    if a >= b {
      MulMonotone(b, a, chunk);
    } else {
      MulMonotone(a + 1, b, chunk);
      Distribute(a, 1, chunk);
    }
  }

  lemma ChunkOrder(q: int, pos: int, chunk: int)
    requires chunk > 0 && q <= pos
    ensures q / chunk <= pos / chunk
  {
    var a, b := q / chunk, pos / chunk;
    assert q == a * chunk + q % chunk && pos == b * chunk + pos % chunk;
    if a > b {
      MulMonotone(b + 1, a, chunk);
      Distribute(b, 1, chunk);
    }
  }

  function Padded(r: Range, padding: int): Range
    requires padding > 0
  {
    Range(RoundDown(r.min, padding), RoundUp(r.max + 1, padding) - 1)
  }

  /**
   * Padding widens the range, keeps it in an array whose size is a multiple of the padding, and is done once and for
   * all.
   */
  lemma PaddedIs(r: Range, padding: int, size: int)
    requires padding > 0 && Span(r, size) && size % padding == 0
    ensures var w := Padded(r, padding);
            && 0 <= w.min <= r.min < w.min + padding && r.max <= w.max < r.max + padding
            && w.max < size && Span(w, size)
            && w.min % padding == 0 && (w.max + 1) % padding == 0
            && Padded(w, padding) == w
  {
    RoundDownIs(r.min, padding);
    RoundUpIs(r.max + 1, padding);
    RoundUpBelow(r.max + 1, size, padding);
    RoundTwice(r.min, padding);
    RoundTwice(r.max + 1, padding);
  }

  lemma RoundDownIs(x: int, pad: int)
    requires pad > 0
    ensures RoundDown(x, pad) % pad == 0 && RoundDown(x, pad) <= x < RoundDown(x, pad) + pad
    ensures x >= 0 ==> RoundDown(x, pad) >= 0
  {
    var q := x / pad;
    assert x == q * pad + x % pad;
    DivMod(q, 0, pad);
    if x >= 0 {
      MulMonotone(0, q, pad);
    }
  }

  /** Rounding up does not pass a multiple. */
  lemma RoundUpBelow(x: int, size: int, pad: int)
    requires pad > 0 && x <= size && size % pad == 0
    ensures RoundUp(x, pad) <= size
  {
    var b, n := (x + pad - 1) / pad, size / pad;
    RoundUpIs(x, pad);
    assert size == n * pad;
    BelowMultiple(b, n, pad);
  }

  lemma RoundTwice(x: int, pad: int)
    requires pad > 0
    ensures RoundDown(RoundDown(x, pad), pad) == RoundDown(x, pad) && RoundUp(RoundUp(x, pad), pad) == RoundUp(x, pad)
  {
    RoundMultiple(x / pad, pad);
    RoundMultiple((x + pad - 1) / pad, pad);
  }

  lemma BelowMultiple(b: int, n: int, pad: int)
    requires pad > 0 && b * pad < n * pad + pad
    ensures b * pad <= n * pad
  {
    if b > n {
      MulAtLeast(b - n, pad);
    }
  }

  lemma RoundMultiple(q: int, pad: int)
    requires pad > 0
    ensures RoundDown(q * pad, pad) == q * pad && RoundUp(q * pad, pad) == q * pad
  {
    DivMod(q, 0, pad);
    DivMod(q, pad - 1, pad);
  }

  /** The whole array is a padded range. */
  lemma WholeIsPadded(size: int, padding: int)
    requires padding > 0 && 0 <= size && size % padding == 0
    ensures Padded(Range(0, size - 1), padding) == Range(0, size - 1)
  {
    assert size == (size / padding) * padding;
    RoundMultiple(0, padding);
    RoundMultiple(size / padding, padding);
  }

  /** Position `q` is needed to resume at `pos`: it is in the window before `pos`, or it is the first position. */
  predicate Needed(p: Params, pos: int, q: int) {
    0 <= q && pos - p.window <= q && (q < pos || q == 0)
  }

  /**
   * `CanResume` is exact: it holds if and only if memory is unlimited or the whole window before `pos` is stored,
   * where resuming at the very start asks for position 0.
   */
  lemma ResumableIsWindowStored(p: Params, c: State, s: int, pos: int)
    requires ValidParams(p) && WellFormed(c) && GapFree(c.cells, s) && pos >= 0
    ensures Resumable(p, c.cells, s, pos) <==>
              p.memory == 0x7fff_ffff || forall q :: Needed(p, pos, q) ==> Stores(c.cells, s, q)
  {
    if p.memory == MAX_INT32 {
      return;
    }
    var start := if pos - p.window > 0 then pos - p.window else 0;
    if Resumable(p, c.cells, s, pos) {
      var i :| Has(c.cells, i, s) && (c.cells[i].pos <= pos - p.window || c.cells[i].pos <= 0);
      var j :| Has(c.cells, j, s) && c.cells[j].pos + 1 >= pos;
      forall q | Needed(p, pos, q)
        ensures Stores(c.cells, s, q)
      {
        assert c.cells[i].pos <= q <= c.cells[j].pos;
      }
    }
    if forall q :: Needed(p, pos, q) ==> Stores(c.cells, s, q) {
      assert Needed(p, pos, start) && Needed(p, pos, if pos == 0 then 0 else pos - 1);
    }
  }

  /** Truncation at `pos` and eviction for a batch that starts at `pos` spare the window before `pos`. */
  lemma WindowSurvives(p: Params, c: State, c1: State, e: State, batch: Batch, s: int, pos: int, q: int)
    requires ValidParams(p) && Stores(c.cells, s, q) && q < pos && pos - p.window <= q
    requires Removed(s, pos, MAX_INT32, c, c1) && pos < MAX_INT32
    requires InBatch(batch, s) && BatchLow(batch, s) == pos && Evicted(p, batch, c1, e)
    ensures Stores(e.cells, s, q)
  {
    var m :| Has(c.cells, m, s) && c.cells[m].pos == q;
    assert Has(c1.cells, m, s) && c1.cells[m].pos == q;
    assert Kept(p, batch, c1.cells, m, s);
    assert Has(e.cells, m, s);
  }

  /**
   * Resume soundness: if `CanResume` says yes, then after truncating at `pos` and running a batch that
   * starts the sequence at `pos`, the token at `pos` has its whole window in the cache and attends to it.
   */
  lemma ResumeFindsWindow(p: Params, c: State, c1: State, e: State, c2: State, batch: Batch, locs: seq<int>,
                          s: int, pos: int, q: int)
    requires ValidParams(p) && p.memory != MAX_INT32 && WellFormed(c) && GapFree(c.cells, s)
    requires 0 <= pos < MAX_INT32 && Resumable(p, c.cells, s, pos)
    requires Removed(s, pos, MAX_INT32, c, c1)
    requires ValidBatch(p, batch) && Token(s, pos) in batch && BatchLow(batch, s) == pos
    requires Evicted(p, batch, c1, e) && Placed(batch, locs, e, c2)
    requires 0 <= q <= pos && pos - p.window <= q
    ensures exists i :: Has(c2.cells, i, s) && c2.cells[i].pos == q
                        && (Attends(p, c2.cells[i], Token(s, pos), true) <==>
                            p.chunk == 0 || q / p.chunk == pos / p.chunk)
  {
    assert InBatch(batch, s) by {
      var k :| 0 <= k < |batch| && batch[k] == Token(s, pos);
    }
    if q < pos {
      assert Stores(c.cells, s, q) by {
        ResumableIsWindowStored(p, c, s, pos);
        assert Needed(p, pos, q);
      }
      WindowSurvives(p, c, c1, e, batch, s, pos, q);
    }
    assert Stores(c2.cells, s, q) by { PlacedStores(batch, locs, e, c2, s, q); }
    var i :| Has(c2.cells, i, s) && c2.cells[i].pos == q;
    AttendsIs(p, c2.cells[i], Token(s, pos), true);
  }
}

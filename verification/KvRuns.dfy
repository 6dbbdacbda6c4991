/** Whole runs of the cache: any operations in any order, with failures and recoveries in between. */
module KvRuns {
  import opened KvCells
  import opened KvSteps
  import opened KvInvariants
  import opened KvCapacity
  import opened KvAttention

  /** The cache together with the sequences whose last `Remove` failed and was not made up for yet. */
  datatype Snapshot = Snapshot(c: State, dirty: set<int>)

  datatype Op =
    | Forward(batch: Batch, locs: seq<int>, evicted: State, placed: State)
    | ForwardFull(fullBatch: Batch)
    | ForwardUnwound(unwoundBatch: Batch, kept: State)
    | Copy(src: int, dst: int, len: int)
    | Remove(sq: int, begin: int, end: int)
    | RemoveFails(failedSq: int)
    | Clear(clearedSq: int)

  /** One operation of a caller that keeps its side of the contract. `ls` are the layers the model visits. */
  ghost predicate Step(p: Params, ls: seq<int>, a: Snapshot, op: Op, b: Snapshot) {
    && WellFormed(b.c)
    && match op
       case Forward(batch, locs, e, mid) =>
         && Continues(a.c.cells, batch)
         && WellFormed(e) && Evicted(p, batch, a.c, e)
         && WellFormed(mid) && Placed(batch, locs, e, mid)
         && b == Snapshot(PutLayers(mid, ls, locs, batch), a.dirty)
       case ForwardFull(batch) => Evicted(p, batch, a.c, b.c) && b.dirty == a.dirty
       case ForwardUnwound(batch, e) => Unwound(p, batch, a.c, e, b.c) && b.dirty == a.dirty
       case Copy(src, dst, len) => src !in a.dirty && Copied(src, dst, len, a.c, b.c) && b.dirty == a.dirty - {dst}
       case Remove(sq, begin, end) =>
         sq !in a.dirty && begin <= end && Removed(sq, begin, end, a.c, b.c) && b.dirty == a.dirty
       case RemoveFails(sq) => OthersUntouched(sq, a.c, b.c) && b.dirty == a.dirty + {sq}
       case Clear(sq) => Removed(sq, 0, MAX_INT32, a.c, b.c) && b.dirty == a.dirty - {sq}
  }

  /** What `Init` leaves behind. */
  ghost predicate Initial(a: Snapshot) {
    && WellFormed(a.c) && a.dirty == {} && a.c.keys == map[]
    && forall i :: 0 <= i < |a.c.cells| ==> Free(a.c.cells, i)
  }

  ghost predicate Run(p: Params, ls: seq<int>, run: seq<Snapshot>, ops: seq<Op>) {
    && |run| == |ops| + 1
    && Initial(run[0])
    && forall i :: 0 <= i < |ops| ==> Step(p, ls, run[i], ops[i], run[i + 1])
  }

  lemma StepKeepsInv(p: Params, ls: seq<int>, a: Snapshot, op: Op, b: Snapshot, layers: set<int>)
    requires layers == (set l | l in ls) && Step(p, ls, a, op, b) && Inv(a.c, a.dirty, layers)
    ensures Inv(b.c, b.dirty, layers)
  {
    match op
    case Forward(batch, locs, e, mid) => ForwardKeepsInv(p, batch, locs, ls, a.c, e, mid, a.dirty, layers);
    case ForwardFull(batch) => EvictionKeepsInv(p, batch, a.c, b.c, a.dirty, layers);
    case ForwardUnwound(batch, e) =>
      EvictionKeepsInv(p, batch, a.c, e, a.dirty, layers);
      SameReferencesKeepInv(e, b.c, a.dirty, layers);
    case Copy(src, dst, len) => CopyKeepsInv(src, dst, len, a.c, b.c, a.dirty, layers);
    case Remove(sq, begin, end) => RemovalKeepsInv(sq, begin, end, a.c, b.c, a.dirty, layers);
    case RemoveFails(sq) => FailedRemovalKeepsInv(sq, a.c, b.c, a.dirty, layers);
    case Clear(sq) => RecoveryKeepsInv(sq, a.c, b.c, a.dirty, layers);
  }

  /**
   * In every state of every run, each sequence that has no unrepaired failure stores an interval of
   * positions without repetition, and every cell it references holds keys rotated to that cell's
   * position in every layer.
   */
  lemma {:induction false} RunKeepsInv(p: Params, ls: seq<int>, run: seq<Snapshot>, ops: seq<Op>, n: nat)
    requires Run(p, ls, run, ops) && n < |run|
    ensures Inv(run[n].c, run[n].dirty, set l | l in ls)
  {
    if n == 0 {
      forall i, s
        ensures !Has(run[0].c.cells, i, s)
      {
        assert 0 <= i < |run[0].c.cells| ==> Free(run[0].c.cells, i);
      }
    } else {
      RunKeepsInv(p, ls, run, ops, n - 1);
      StepKeepsInv(p, ls, run[n - 1], ops[n - 1], run[n], set l | l in ls);
    }
  }

  /** No repaired run ever finds a sliding-window cache full. */
  lemma RunNeverFull(p: Params, ls: seq<int>, run: seq<Snapshot>, ops: seq<Op>, n: nat,
                     batch: Batch, e: State, live: set<int>, maxSequences: nat)
    requires Run(p, ls, run, ops) && n < |run| && run[n].dirty == {}
    requires ValidParams(p) && p.memory != MAX_INT32 && ValidBatch(p, batch)
    requires Continues(run[n].c.cells, batch) && Evicted(p, batch, run[n].c, e)
    requires (forall i, s :: Has(run[n].c.cells, i, s) ==> s in live) && |live| <= maxSequences
    requires |run[n].c.cells| >= maxSequences * p.memory + p.maxBatch
    ensures |batch| <= |FreeCells(e.cells)|
  {
    RunKeepsInv(p, ls, run, ops, n);
    NeverFull(p, batch, run[n].c, e, live, maxSequences, set l | l in ls);
  }

  /** In any state of any run, also after middle removals, a positive `CanResume` is sound. */
  lemma RunResumes(p: Params, ls: seq<int>, run: seq<Snapshot>, ops: seq<Op>, n: nat, s: int, pos: int,
                   c1: State, batch: Batch, e: State, locs: seq<int>, c2: State, q: int)
    requires Run(p, ls, run, ops) && n < |run| && s !in run[n].dirty
    requires ValidParams(p) && p.memory != MAX_INT32
    requires 0 <= pos < MAX_INT32 && Resumable(p, run[n].c.cells, s, pos)
    requires Removed(s, pos, MAX_INT32, run[n].c, c1)
    requires ValidBatch(p, batch) && Token(s, pos) in batch && BatchLow(batch, s) == pos
    requires Evicted(p, batch, c1, e) && Placed(batch, locs, e, c2)
    requires 0 <= q <= pos && pos - p.window <= q
    ensures exists i :: Has(c2.cells, i, s) && c2.cells[i].pos == q
                        && (Attends(p, c2.cells[i], Token(s, pos), true) <==>
                            p.chunk == 0 || q / p.chunk == pos / p.chunk)
  {
    RunKeepsInv(p, ls, run, ops, n);
    ResumeFindsWindow(p, run[n].c, c1, e, c2, batch, locs, s, pos, q);
  }
}

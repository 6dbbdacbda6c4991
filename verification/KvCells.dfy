/** The data of a causal key/value cache and the properties every reachable cache has. */
module KvCells {

  const MAX_INT32 := 0x7fff_ffff
  const MAX_INT := 0x7fff_ffff_ffff_ffff

  /** One location of the cache: a position and the sequences that reference the data stored there. */
  datatype Cell = Cell(pos: int, sequences: seq<int>)

  /** An inclusive interval of locations. */
  datatype Range = Range(min: int, max: int)

  /** One entry of a batch: `Sequences[i]` and `Positions[i]` side by side. */
  datatype Token = Token(sq: int, pos: int)

  type Batch = seq<Token>

  /** What `Init` settles for the life of the cache. */
  datatype Params = Params(window: int, memory: int, chunk: int, padding: int, maxBatch: int)

  /**
   * The cache between two operations. `keys[l][i]` is the position that the key in row `i` of
   * layer `l` is currently rotated to.
   */
  datatype State = State(cells: seq<Cell>, ranges: map<int, Range>, keys: map<int, seq<int>>)

  /** `r` is an interval of an array of `n` cells; it may be empty. */
  predicate Span(r: Range, n: int) {
    0 <= r.min <= r.max + 1 <= n
  }

  function NewRange(): Range {
    Range(MAX_INT, 0)
  }

  predicate Has(cells: seq<Cell>, i: int, s: int) {
    0 <= i < |cells| && s in cells[i].sequences
  }

  predicate Free(cells: seq<Cell>, i: int) {
    0 <= i < |cells| && cells[i].sequences == []
  }

  ghost predicate Stores(cells: seq<Cell>, s: int, p: int) {
    exists i :: Has(cells, i, s) && cells[i].pos == p
  }

  predicate NoDuplicates(q: seq<int>) {
    forall i, j :: 0 <= i < j < |q| ==> q[i] != q[j]
  }

  /** Cell `i` is referenced by a sequence outside `dirty`. */
  ghost predicate Referenced(cells: seq<Cell>, i: int, dirty: set<int>) {
    exists s :: Has(cells, i, s) && s !in dirty
  }

  predicate ValidParams(p: Params) {
    0 < p.window <= p.memory <= MAX_INT32 && 0 <= p.chunk && 0 < p.padding && 0 < p.maxBatch
  }

  /** The range index: every reference lies in its sequence's interval, and intervals stay in the array. */
  ghost predicate Indexed(cells: seq<Cell>, ranges: map<int, Range>) {
    && (forall s :: s in ranges ==>
          ranges[s] == NewRange() || 0 <= ranges[s].min <= ranges[s].max < |cells|)
    && (forall s, i :: Has(cells, i, s) ==> s in ranges && ranges[s].min <= i <= ranges[s].max)
  }

  /** Holds in every state whatsoever, on error paths too. */
  ghost predicate WellFormed(c: State) {
    && |c.cells| < MAX_INT
    && (forall i :: 0 <= i < |c.cells| ==> NoDuplicates(c.cells[i].sequences))
    && (forall i, s :: Has(c.cells, i, s) ==> 0 <= c.cells[i].pos < MAX_INT32)
    && Indexed(c.cells, c.ranges)
    && (forall l :: l in c.keys ==> |c.keys[l]| == |c.cells|)
  }

  /** The interval of `s` is as small as it can be: it starts and ends at cells that reference `s`. */
  ghost predicate ExactIndex(c: State, s: int) {
    s in c.ranges && c.ranges[s] != NewRange() ==> Has(c.cells, c.ranges[s].min, s) && Has(c.cells, c.ranges[s].max, s)
  }

  /** No two cells hold the same position of `s`. */
  ghost predicate UniquePositions(cells: seq<Cell>, s: int) {
    forall i, j :: Has(cells, i, s) && Has(cells, j, s) && cells[i].pos == cells[j].pos ==> i == j
  }

  /** The positions of `s` are an interval. */
  ghost predicate GapFree(cells: seq<Cell>, s: int) {
    forall i, j, q :: Has(cells, i, s) && Has(cells, j, s) && cells[i].pos <= q <= cells[j].pos
      ==> Stores(cells, s, q)
  }

  /** Row `i` of every layer is rotated to the position recorded in cell `i`. */
  predicate RowAgrees(c: State, i: int)
  {
    0 <= i < |c.cells| && forall l :: l in c.keys ==> i < |c.keys[l]| && c.keys[l][i] == c.cells[i].pos
  }

  /**
   * The cache invariant. `dirty` are the sequences whose last `Remove` failed and that have not
   * been cleared since; the invariant speaks about all the others. `layers` are the model's layers.
   */
  ghost predicate Inv(c: State, dirty: set<int>, layers: set<int>) {
    && WellFormed(c)
    && (forall s :: s !in dirty ==> UniquePositions(c.cells, s) && GapFree(c.cells, s))
    && (forall i :: Referenced(c.cells, i, dirty) ==> RowAgrees(c, i))
    && (c.keys.Keys == layers || (c.keys == map[] && forall i :: 0 <= i < |c.cells| ==> Free(c.cells, i)))
  }
}

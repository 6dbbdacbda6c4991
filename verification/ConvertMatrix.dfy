/** Matrices stored row after row: moved rows, moved columns and transposition. */
module ConvertMatrix {
  import opened Arithmetic
  import opened ConvertIndex

  function Cell(i: int, j: int, cols: int): int {
    i * cols + j
  }

  lemma CellIn(i: int, j: int, rows: int, cols: int)
    requires 0 <= i < rows && 0 <= j < cols
    ensures 0 <= Cell(i, j, cols) < rows * cols && Cell(i, j, cols) / cols == i && Cell(i, j, cols) % cols == j
  {
    DivMod(i, j, cols);
    MulMonotone(0, i, cols);
    MulMonotone(i + 1, rows, cols);
    Distribute(i, 1, cols);
  }

  lemma CellOf(k: int, rows: int, cols: int)
    requires 0 <= k < rows * cols && 0 <= rows && 0 <= cols
    ensures cols > 0 && 0 <= k / cols < rows && 0 <= k % cols < cols && Cell(k / cols, k % cols, cols) == k
  {
    assert cols > 0;
    QuotientIs(k, cols);
    if k / cols >= rows {
      MulMonotone(rows, k / cols, cols);
    }
  }

  /** `f` stays inside `0..n`. */
  ghost predicate Within(f: int -> int, n: int) {
    forall i :: 0 <= i < n ==> 0 <= f(i) < n
  }

  /** Entry `(i, j)` of `r` is entry `(p(i), q(j))` of `s`. */
  ghost predicate Moved<T>(s: seq<T>, r: seq<T>, rows: int, cols: int, p: int -> int, q: int -> int) {
    && |s| == |r| == rows * cols
    && forall i, j :: 0 <= i < rows && 0 <= j < cols ==>
         && 0 <= Cell(i, j, cols) < |r| && 0 <= Cell(p(i), q(j), cols) < |s|
         && r[Cell(i, j, cols)] == s[Cell(p(i), q(j), cols)]
  }

  /** `t` is the transposition of the `rows x cols` matrix `s`. */
  ghost predicate Transposed<T>(s: seq<T>, t: seq<T>, rows: int, cols: int) {
    && |s| == |t| == rows * cols
    && forall i, j :: 0 <= i < rows && 0 <= j < cols ==>
         && 0 <= Cell(i, j, cols) < |s| && 0 <= Cell(j, i, rows) < |t|
         && t[Cell(j, i, rows)] == s[Cell(i, j, cols)]
  }

  /** Matrices with the same entries are the same. */
  lemma SameEntries<T>(s: seq<T>, t: seq<T>, rows: nat, cols: nat)
    requires |s| == |t| == rows * cols
    requires forall i, j :: 0 <= i < rows && 0 <= j < cols ==>
               0 <= Cell(i, j, cols) < |s| && s[Cell(i, j, cols)] == t[Cell(i, j, cols)]
    ensures s == t
  {
    forall k | 0 <= k < |s|
      ensures s[k] == t[k]
    {
      CellOf(k, rows, cols);
    }
  }

  /** Moving back by inverse permutations gives the matrix back. */
  lemma MovedBack<T>(s: seq<T>, r: seq<T>, t: seq<T>, rows: nat, cols: nat, p: int -> int, q: int -> int,
                     p': int -> int, q': int -> int)
    requires Moved(s, r, rows, cols, p, q) && Moved(r, t, rows, cols, p', q')
    requires Inverse(p, p', rows) && Inverse(q, q', cols)
    ensures t == s
  {
    forall i, j | 0 <= i < rows && 0 <= j < cols
      ensures 0 <= Cell(i, j, cols) < |s| && s[Cell(i, j, cols)] == t[Cell(i, j, cols)]
    {
      assert t[Cell(i, j, cols)] == r[Cell(p'(i), q'(j), cols)];
      assert r[Cell(p'(i), q'(j), cols)] == s[Cell(p(p'(i)), q(q'(j)), cols)];
    }
    SameEntries(s, t, rows, cols);
  }

  /** Moving the entries of a transposed matrix by the exchanged permutations transposes the moved matrix. */
  lemma MovedTransposed<T>(s: seq<T>, r: seq<T>, t: seq<T>, u: seq<T>, rows: nat, cols: nat, p: int -> int,
                           q: int -> int)
    requires Within(p, rows) && Within(q, cols)
    requires Moved(s, r, rows, cols, p, q) && Transposed(s, t, rows, cols) && Moved(t, u, cols, rows, q, p)
    ensures Transposed(r, u, rows, cols)
  {
    forall i, j | 0 <= i < rows && 0 <= j < cols
      ensures 0 <= Cell(i, j, cols) < |r| && 0 <= Cell(j, i, rows) < |u|
      ensures u[Cell(j, i, rows)] == r[Cell(i, j, cols)]
    {
      assert u[Cell(j, i, rows)] == t[Cell(q(j), p(i), rows)];
      assert r[Cell(i, j, cols)] == s[Cell(p(i), q(j), cols)];
    }
  }

  /** The matrix whose entry `(i, j)` is entry `(p(i), q(j))` of `s`. */
  ghost function Move<T>(s: seq<T>, rows: nat, cols: nat, p: int -> int, q: int -> int): (r: seq<T>)
    requires |s| == rows * cols && Within(p, rows) && Within(q, cols)
  {
    seq(|s|, k requires 0 <= k < |s| =>
      CellOf(k, rows, cols);
      CellIn(p(k / cols), q(k % cols), rows, cols);
      s[Cell(p(k / cols), q(k % cols), cols)])
  }

  lemma MoveMoves<T>(s: seq<T>, rows: nat, cols: nat, p: int -> int, q: int -> int)
    requires |s| == rows * cols && Within(p, rows) && Within(q, cols)
    ensures Moved(s, Move(s, rows, cols, p, q), rows, cols, p, q)
  {
    forall i, j | 0 <= i < rows && 0 <= j < cols
      ensures 0 <= Cell(i, j, cols) < |s| && 0 <= Cell(p(i), q(j), cols) < |s|
      ensures Move(s, rows, cols, p, q)[Cell(i, j, cols)] == s[Cell(p(i), q(j), cols)]
    {
      CellIn(i, j, rows, cols);
      CellIn(p(i), q(j), rows, cols);
    }
  }

  function Transpose<T>(s: seq<T>, rows: nat, cols: nat): (t: seq<T>)
    requires |s| == rows * cols
    ensures |t| == |s|
  {
    seq(|s|, k requires 0 <= k < |s| =>
      CellOf(k, cols, rows);
      CellIn(k % rows, k / rows, rows, cols);
      s[Cell(k % rows, k / rows, cols)])
  }

  lemma TransposeTransposes<T>(s: seq<T>, rows: nat, cols: nat)
    requires |s| == rows * cols
    ensures Transposed(s, Transpose(s, rows, cols), rows, cols)
  {
    forall i, j | 0 <= i < rows && 0 <= j < cols
      ensures 0 <= Cell(i, j, cols) < |s| && 0 <= Cell(j, i, rows) < |s|
      ensures Transpose(s, rows, cols)[Cell(j, i, rows)] == s[Cell(i, j, cols)]
    {
      CellIn(i, j, rows, cols);
      CellIn(j, i, cols, rows);
    }
  }

  /** A row of a block of a matrix whose rows are taken in blocks. */
  lemma BlockIs(q: int, h: int, j: int, headDim: int, cols: int)
    ensures Cell(q * headDim + h, j, cols) == q * (headDim * cols) + Cell(h, j, cols)
  {
    Distribute(q * headDim, h, cols);
    Associate(q, headDim, cols);
  }

  /** Columns `start .. start + width`. */
  function SliceColumns<T>(s: seq<T>, rows: nat, cols: nat, start: nat, width: nat): (r: seq<T>)
    requires |s| == rows * cols && start + width <= cols
    ensures |r| == rows * width
  {
    seq(rows * width, k requires 0 <= k < rows * width =>
      CellOf(k, rows, width);
      CellIn(k / width, start + k % width, rows, cols);
      s[Cell(k / width, start + k % width, cols)])
  }

  lemma SliceEntry<T>(s: seq<T>, rows: nat, cols: nat, start: nat, width: nat, i: nat, j: nat)
    requires |s| == rows * cols && start + width <= cols && i < rows && j < width
    ensures 0 <= Cell(i, j, width) < rows * width && 0 <= Cell(i, start + j, cols) < |s|
    ensures SliceColumns(s, rows, cols, start, width)[Cell(i, j, width)] == s[Cell(i, start + j, cols)]
  {
    CellIn(i, j, rows, width);
    CellIn(i, start + j, rows, cols);
  }

  /** Two matrices side by side. */
  function Beside<T>(a: seq<T>, b: seq<T>, rows: nat, left: nat, right: nat): (r: seq<T>)
    requires |a| == rows * left && |b| == rows * right
    ensures |r| == rows * (left + right)
  {
    seq(rows * (left + right), k requires 0 <= k < rows * (left + right) =>
      CellOf(k, rows, left + right);
      var i, j := k / (left + right), k % (left + right);
      if j < left then CellIn(i, j, rows, left); a[Cell(i, j, left)]
      else CellIn(i, j - left, rows, right); b[Cell(i, j - left, right)])
  }

  lemma BesideEntry<T>(a: seq<T>, b: seq<T>, rows: nat, left: nat, right: nat, i: nat, j: nat)
    requires |a| == rows * left && |b| == rows * right && i < rows && j < left + right
    ensures 0 <= Cell(i, j, left + right) < rows * (left + right)
    ensures j < left ==>
              0 <= Cell(i, j, left) < |a|
                  && Beside(a, b, rows, left, right)[Cell(i, j, left + right)] == a[Cell(i, j, left)]
    ensures j >= left ==>
              0 <= Cell(i, j - left, right) < |b|
                  && Beside(a, b, rows, left, right)[Cell(i, j, left + right)] == b[Cell(i, j - left, right)]
  {
    CellIn(i, j, rows, left + right);
    if j < left {
      CellIn(i, j, rows, left);
    } else {
      CellIn(i, j - left, rows, right);
    }
  }
}

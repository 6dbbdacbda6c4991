/** Repacking a transposed projection: when it gives the transposed result, and when it does not. */
module ConvertTranspose {
  import opened Arithmetic
  import opened ConvertIndex
  import opened ConvertMatrix
  import opened ConvertHeads
  import opened ConvertQkv

  /** Transposing before the repacking and after it agree on `data`. */
  ghost predicate Commutes<T(!new)>(data: seq<T>, rows: nat, cols: nat, c: Heads) {
    forall r, t, u ::
      IsRepacked(data, r, rows, cols, c) && Transposed(data, t, rows, cols) && IsRepacked(t, u, cols, rows, c) ==>
          Transposed(r, u, rows, cols)
  }

  /** No value head moves. */
  predicate Trivial(c: Heads) {
    !Even(c) || c.numK == 1 || PerKey(c) == 1
  }

  /** Both orientations of the matrix have a row for each channel. */
  predicate Square(rows: nat, cols: nat, c: Heads) {
    rows == Channels(c) && cols == Channels(c)
  }

  lemma SingleHeadsStay(i: nat, ng: nat, nv: nat, nc: nat)
    requires ng > 0 && nv > 0 && nc > 0 && i < ng * nv * nc && (ng == 1 || nv == 1)
    ensures HeadSource(i, ng, nv, nc) == i
  {
    QuotientIs(i, nc);
    var q := i / nc;
    if q >= ng * nv {
      MulMonotone(ng * nv, q, nc);
    }
    if ng == 1 {
      Coordinates(0, q, 0, nv, ng);
    } else {
      Coordinates(0, 0, q, nv, ng);
    }
  }

  lemma TrivialStays(c: Heads, ch: nat)
    requires Trivial(c) && ch < Channels(c)
    ensures Moves(c)(ch) == ch
  {
    var qk := QkChannels(c);
    if ch >= qk {
      if Even(c) {
        SingleHeadsStay(ch - qk, c.numK, PerKey(c), c.headV);
      }
      assert Moves(c)(ch) == qk + VSource(c, ch - qk);
    }
  }

  lemma TrivialRepack<T>(data: seq<T>, r: seq<T>, n: nat, c: Heads)
    requires Trivial(c) && n == Channels(c) && Moved(data, r, n, n, Moves(c), Stay())
    ensures r == data
  {
    forall i, j | 0 <= i < n && 0 <= j < n
      ensures 0 <= Cell(i, j, n) < |r| && r[Cell(i, j, n)] == data[Cell(i, j, n)]
    {
      TrivialStays(c, i);
      assert r[Cell(i, j, n)] == data[Cell(Moves(c)(i), Stay()(j), n)];
    }
    SameEntries(r, data, n, n);
  }

  /** Outside the square case the two branches are each other's transposition. */
  lemma RepackCommutes<T>(data: seq<T>, r: seq<T>, t: seq<T>, u: seq<T>, rows: nat, cols: nat, c: Heads)
    requires !Square(rows, cols, c) || Trivial(c)
    requires IsRepacked(data, r, rows, cols, c) && Transposed(data, t, rows, cols) && IsRepacked(t, u, cols, rows, c)
    ensures Transposed(r, u, rows, cols)
  {
    MovesWithin(c);
    if Square(rows, cols, c) {
      TrivialRepack(data, r, rows, c);
      TrivialRepack(t, u, rows, c);
    } else if rows == Channels(c) {
      MovedTransposed(data, r, t, u, rows, cols, Moves(c), Stay());
    } else if cols == Channels(c) {
      MovedTransposed(data, r, t, u, rows, cols, Stay(), Moves(c));
    }
  }

  /** Channel 0 stays and some channel moves. */
  lemma SomeChannelMoves(c: Heads) returns (ch: nat)
    requires !Trivial(c)
    ensures 0 < Channels(c) && Moves(c)(0) == 0
    ensures ch < Channels(c) && 0 <= Moves(c)(ch) < Channels(c) && Moves(c)(ch) != ch
  {
    var ng, nv, qk := c.numK, PerKey(c), QkChannels(c);
    MovesHeads(c, 0, 0, 0);
    MovesHeads(c, 1, 0, 0);
    ch := qk + c.headV;
    MulMonotone(2, ng * nv, c.headV);
    MulMonotone(2, nv, c.headV);
    assert 2 <= ng * nv by { MulMonotone(2, ng, nv); }
    assert Moves(c)(ch) == qk + nv * c.headV;
    MovesWithin(c);
  }

  /** In the square case the row branch is taken twice, and a matrix with one odd entry shows it. */
  lemma SquareBreaks<T(!new)>(x: T, y: T, c: Heads)
    requires x != y && !Trivial(c)
    ensures exists data: seq<T> :: |data| == Channels(c) * Channels(c) && !Commutes(data, Channels(c), Channels(c), c)
  {
    var n := Channels(c);
    var ch := SomeChannelMoves(c);
    var to := Moves(c)(ch);
    MovesWithin(c);
    CellIn(0, to, n, n);
    CellIn(0, ch, n, n);
    var data := seq(n * n, _ => x)[Cell(0, to, n) := y];
    OddEntryBreaks(data, x, y, n, c, ch, to);
  }

  lemma OddEntryBreaks<T(!new)>(data: seq<T>, x: T, y: T, n: nat, c: Heads, ch: nat, to: nat)
    requires x != y && n == Channels(c) && ch < n && to < n && ch != to && to == Moves(c)(ch) && Moves(c)(0) == 0
    requires 0 < n
    requires |data| == n * n && 0 <= Cell(0, to, n) < n * n && 0 <= Cell(0, ch, n) < n * n && data[Cell(0, to, n)] == y
    requires data[Cell(0, ch, n)] == x
    ensures !Commutes(data, n, n, c)
  {
    MovesWithin(c);
    var t := Transpose(data, n, n);
    TransposeTransposes(data, n, n);
    MoveMoves(data, n, n, Moves(c), Stay());
    MoveMoves(t, n, n, Moves(c), Stay());
    var r, u := Move(data, n, n, Moves(c), Stay()), Move(t, n, n, Moves(c), Stay());
    OddEntry(data, r, t, u, x, y, n, c, ch, to);
    assert IsRepacked(data, r, n, n, c) && IsRepacked(t, u, n, n, c);
  }

  lemma OddEntry<T>(data: seq<T>, r: seq<T>, t: seq<T>, u: seq<T>, x: T, y: T, n: nat, c: Heads, ch: nat, to: nat)
    requires x != y && n == Channels(c) && ch < n && to < n && ch != to && to == Moves(c)(ch) && Moves(c)(0) == 0
    requires 0 < n
    requires |data| == n * n && 0 <= Cell(0, to, n) < n * n && 0 <= Cell(0, ch, n) < n * n && data[Cell(0, to, n)] == y
    requires data[Cell(0, ch, n)] == x
    requires Moved(data, r, n, n, Moves(c), Stay()) && Transposed(data, t, n, n) && Moved(t, u, n, n, Moves(c), Stay())
    ensures !Transposed(r, u, n, n)
  {
    assert u[Cell(ch, 0, n)] == t[Cell(Moves(c)(ch), Stay()(0), n)];
    assert t[Cell(to, 0, n)] == data[Cell(0, to, n)];
    assert r[Cell(0, ch, n)] == data[Cell(Moves(c)(0), Stay()(ch), n)];
  }

  /**
   * Repacking commutes with transposition for every matrix if and only if the matrix is not square over the channels,
   * or no value head moves.
   */
  lemma TransposeCommutesIff<T(!new)>(x: T, y: T, rows: nat, cols: nat, c: Heads)
    requires x != y
    ensures (forall data: seq<T> :: |data| == rows * cols ==> Commutes(data, rows, cols, c)) <==>
              !Square(rows, cols, c) || Trivial(c)
  {
    if !Square(rows, cols, c) || Trivial(c) {
      forall data: seq<T>, r, t, u |
          IsRepacked(data, r, rows, cols, c) && Transposed(data, t, rows, cols) && IsRepacked(t, u, cols, rows, c)
        ensures Transposed(r, u, rows, cols)
      {
        RepackCommutes(data, r, t, u, rows, cols, c);
      }
    } else {
      SquareBreaks(x, y, c);
    }
  }
}

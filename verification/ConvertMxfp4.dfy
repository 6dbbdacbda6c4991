/** The nibble order of MXFP4 blocks. */
module ConvertMxfp4 {

  type Block = b: seq<bv8> | |b| == 16 witness seq(16, _ => 0)

  /** The `k`-th of the 32 nibbles of a block, low nibble first. */
  function Nibble(b: Block, k: nat): bv8
    requires k < 32
  {
    if k % 2 == 0 then b[k / 2] & 0x0F else b[k / 2] >> 4
  }

  /** Byte `m` of the rewritten block. */
  function Reordered(b: Block, m: nat): bv8
    requires m < 16
  {
    var lo, hi := b[m / 2], b[m / 2 + 8];
    if m % 2 == 0 then (lo & 0x0F) | (hi << 4) else (lo >> 4) | (hi & 0xF0)
  }

  function Reorder(b: Block): (r: Block)
    ensures forall m :: 0 <= m < 16 ==> r[m] == Reordered(b, m)
  {
    seq(16, m requires 0 <= m < 16 => Reordered(b, m))
  }

  /** The low nibble of output byte `m` is nibble `m` of the input, and the high one is nibble `m + 16`. */
  lemma ReorderedNibbles(b: Block, m: nat)
    requires m < 16
    ensures Reorder(b)[m] & 0x0F == Nibble(b, m) && Reorder(b)[m] >> 4 == Nibble(b, m + 16)
  {
    var lo, hi := b[m / 2], b[m / 2 + 8];
    assert (m + 16) / 2 == m / 2 + 8 && (m + 16) % 2 == m % 2;
    EvenByte(lo, hi);
    OddByte(lo, hi);
  }

  /** The same, byte by byte: each pair of output bytes takes apart the two input bytes that stand eight apart. */
  lemma ReorderedBytes(b: Block, j: nat)
    requires j < 8
    ensures Reorder(b)[2 * j] & 0x0F == b[j] & 0x0F && Reorder(b)[2 * j] >> 4 == b[j + 8] & 0x0F
    ensures Reorder(b)[2 * j + 1] & 0x0F == b[j] >> 4 && Reorder(b)[2 * j + 1] >> 4 == b[j + 8] >> 4
  {
    EvenByte(b[j], b[j + 8]);
    OddByte(b[j], b[j + 8]);
    assert (2 * j) / 2 == j && (2 * j + 1) / 2 == j;
    assert Reorder(b)[2 * j] == Reordered(b, 2 * j) && Reorder(b)[2 * j + 1] == Reordered(b, 2 * j + 1);
  }

  lemma EvenByte(lo: bv8, hi: bv8)
    ensures ((lo & 0x0F) | (hi << 4)) & 0x0F == lo & 0x0F
    ensures ((lo & 0x0F) | (hi << 4)) >> 4 == hi & 0x0F
  {
  }

  lemma OddByte(lo: bv8, hi: bv8)
    ensures ((lo >> 4) | (hi & 0xF0)) & 0x0F == lo >> 4
    ensures ((lo >> 4) | (hi & 0xF0)) >> 4 == hi >> 4
  {
  }

  /** Byte `j` of the block from which `r` was made. */
  function Restored(r: Block, j: nat): bv8
    requires j < 16
  {
    if j < 8 then (r[2 * j] & 0x0F) | (r[2 * j + 1] << 4)
    else (r[2 * (j - 8)] >> 4) | (r[2 * (j - 8) + 1] & 0xF0)
  }

  function Restore(r: Block): (b: Block)
    ensures forall j :: 0 <= j < 16 ==> b[j] == Restored(r, j)
  {
    seq(16, j requires 0 <= j < 16 => Restored(r, j))
  }

  lemma SplitBytes(lo: bv8, hi: bv8)
    ensures (((lo & 0x0F) | (hi << 4)) & 0x0F) | (((lo >> 4) | (hi & 0xF0)) << 4) == lo
    ensures (((lo & 0x0F) | (hi << 4)) >> 4) | (((lo >> 4) | (hi & 0xF0)) & 0xF0) == hi
  {
  }

  lemma RestoredReordered(b: Block, j: nat)
    requires j < 16
    ensures Restored(Reorder(b), j) == b[j]
  {
    var i := if j < 8 then j else j - 8;
    assert (2 * i) / 2 == i && (2 * i) % 2 == 0 && (2 * i + 1) / 2 == i && (2 * i + 1) % 2 == 1;
    SplitBytes(b[i], b[i + 8]);
  }

  lemma ReorderedRestored(b: Block, m: nat)
    requires m < 16
    ensures Reordered(Restore(b), m) == b[m]
  {
    var i := m / 2;
    assert Restore(b)[i] == Restored(b, i) && Restore(b)[i + 8] == Restored(b, i + 8);
    assert m == 2 * i + m % 2;
    SplitBytes(b[2 * i], b[2 * i + 1]);
  }

  /** Nothing is lost: the block can be restored, and every block is the rewriting of one. */
  lemma ReorderInvertible(b: Block)
    ensures Restore(Reorder(b)) == b && Reorder(Restore(b)) == b
  {
    forall j | 0 <= j < 16
      ensures Restore(Reorder(b))[j] == b[j]
    {
      RestoredReordered(b, j);
    }
    forall m | 0 <= m < 16
      ensures Reorder(Restore(b))[m] == b[m]
    {
      ReorderedRestored(b, m);
    }
  }

  // ---------------------------------------------------------------- whole buffers

  function ReorderAll(s: seq<bv8>): (r: seq<bv8>)
    ensures |r| == |s|
  {
    if |s| < 16 then s else Reorder(s[..16]) + ReorderAll(s[16..])
  }

  function RestoreAll(s: seq<bv8>): (r: seq<bv8>)
    ensures |r| == |s|
  {
    if |s| < 16 then s else Restore(s[..16]) + RestoreAll(s[16..])
  }

  lemma {:induction false} ReorderAllAppend(s: seq<bv8>, b: Block)
    requires |s| % 16 == 0
    ensures ReorderAll(s + b) == ReorderAll(s) + Reorder(b)
  {
    if s == [] {
      assert s + b == b && b[..16] == b && b[16..] == [];
      assert ReorderAll(b) == Reorder(b) + [];
    } else {
      assert (s + b)[..16] == s[..16] && (s + b)[16..] == s[16..] + b;
      ReorderAllAppend(s[16..], b);
    }
  }

  /** The map is invertible on every buffer. */
  lemma {:induction false} ReorderAllInvertible(s: seq<bv8>)
    ensures RestoreAll(ReorderAll(s)) == s && ReorderAll(RestoreAll(s)) == s
  {
    if |s| >= 16 {
      ReorderInvertible(s[..16]);
      ReorderAllInvertible(s[16..]);
      var r, t := ReorderAll(s), RestoreAll(s);
      assert r[..16] == Reorder(s[..16]) && r[16..] == ReorderAll(s[16..]);
      assert t[..16] == Restore(s[..16]) && t[16..] == RestoreAll(s[16..]);
      assert s[..16] + s[16..] == s;
    }
  }

  /** Each block of the result depends on the same block of the input alone. */
  lemma {:induction false} BlockByBlock(s: seq<bv8>, k: nat)
    requires 16 * k + 16 <= |s|
    ensures ReorderAll(s)[16 * k..16 * k + 16] == Reorder(s[16 * k..16 * k + 16])
  {
    var r := ReorderAll(s);
    if k > 0 {
      BlockByBlock(s[16..], k - 1);
      var i := 16 * (k - 1);
      assert r[16 * k..16 * k + 16] == ReorderAll(s[16..])[i..i + 16];
      assert s[16..][i..i + 16] == s[16 * k..16 * k + 16];
    }
  }

  /** The first `i` bytes are rewritten, the rest is as it was. */
  predicate RewrittenTo(was: seq<bv8>, now: seq<bv8>, i: nat) {
    |now| == |was| && i <= |was| && i % 16 == 0 && now[..i] == ReorderAll(was[..i]) && now[i..] == was[i..]
  }

  lemma AllRewritten(was: seq<bv8>, now: seq<bv8>)
    requires RewrittenTo(was, now, |was|)
    ensures now == ReorderAll(was)
  {
    assert now[..|was|] == now && was[..|was|] == was;
  }

  lemma OneMoreBlock(was: seq<bv8>, now: seq<bv8>, next: seq<bv8>, i: nat)
    requires |now| == |was| == |next| && i + 16 <= |was| && RewrittenTo(was, now, i)
    requires next[..i] == now[..i] && next[i..i + 16] == Reorder(now[i..i + 16]) && next[i + 16..] == now[i + 16..]
    ensures RewrittenTo(was, next, i + 16)
  {
    assert now[i..i + 16] == now[i..][..16] && was[i..i + 16] == was[i..][..16];
    assert now[i + 16..] == now[i..][16..] && was[i + 16..] == was[i..][16..];
    ReorderAllAppend(was[..i], was[i..i + 16]);
    assert was[..i + 16] == was[..i] + was[i..i + 16];
    assert next[..i + 16] == next[..i] + next[i..i + 16];
  }

  /** The loop of `mxfp4.WriteTo`: rewrites the buffer in place through a temporary of one block. */
  method ReorderInPlace(bts: array<bv8>)
    requires bts.Length % 16 == 0
    modifies bts
    ensures bts[..] == ReorderAll(old(bts[..]))
  {
    ghost var was := bts[..];
    var i := 0;
    while i < bts.Length
      invariant 0 <= i <= bts.Length && i % 16 == 0 && RewrittenTo(was, bts[..], i)
    {
      ghost var now := bts[..];
      ReorderBlock(bts, i);
      OneMoreBlock(was, now, bts[..], i);
      i := i + 16;
    }
    AllRewritten(was, bts[..]);
  }

  method ReorderBlock(bts: array<bv8>, i: nat)
    requires i + 16 <= bts.Length
    modifies bts
    ensures bts[..][i..i + 16] == Reorder(old(bts[..])[i..i + 16])
    ensures bts[..][..i] == old(bts[..])[..i] && bts[..][i + 16..] == old(bts[..])[i + 16..]
  {
    var tmp := BlockTemp(bts, i);
    ghost var was := bts[..];
    CopyIn(bts, i, tmp);
    assert was[i..i + 16] == old(bts[i..i + 16]);
    assert bts[..][i..i + 16] == bts[i..i + 16] && bts[..][..i] == bts[..i] && bts[..][i + 16..] == bts[i + 16..];
  }

  method BlockTemp(bts: array<bv8>, i: nat) returns (tmp: array<bv8>)
    requires i + 16 <= bts.Length
    ensures fresh(tmp) && tmp.Length == 16 && tmp[..] == Reorder(bts[i..i + 16])
  {
    tmp := new bv8[16](_ => 0);
    ghost var b: Block := bts[i..i + 16];
    for j := 0 to 8
      invariant forall m :: 0 <= m < 2 * j ==> tmp[m] == Reordered(b, m)
    {
      var lo, hi := bts[i + j], bts[i + j + 8];
      tmp[2 * j] := (lo & 0x0F) | (hi << 4);
      tmp[2 * j + 1] := (lo >> 4) | (hi & 0xF0);
    }
  }

  method CopyIn(bts: array<bv8>, i: nat, tmp: array<bv8>)
    requires i + 16 <= bts.Length && tmp.Length == 16 && tmp != bts
    modifies bts
    ensures bts[i..i + 16] == tmp[..]
    ensures bts[..i] == old(bts[..i]) && bts[i + 16..] == old(bts[i + 16..])
  {
    for k := 0 to 16
      invariant forall m :: 0 <= m < k ==> bts[i + m] == tmp[m]
      invariant bts[..i] == old(bts[..i]) && bts[i + 16..] == old(bts[i + 16..])
    {
      bts[i + k] := tmp[k];
    }
  }
}

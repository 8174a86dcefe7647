/**
 The on-disk file system, down to the bits and words the C code overlays on blocks:
 the free bitmap, the inode table, and the direct and indirect block pointers.
 */
module FsLayout {
  import opened Blocks

  const BPB := 4096                  // bits in a bitmap block
  const IPB := 8                     // inodes in a block
  const NDIRECT := 12
  const NINDIRECT := 128
  const MAXFILE := 140               // NDIRECT + NINDIRECT, in blocks

  type uint16 = x: int | 0 <= x < 65536

  // ----- Bits -----

  /** (x >> k) & 1 */
  function Bit(x: nat, k: nat): bool {
    if k == 0 then x % 2 == 1 else Bit(x / 2, k - 1)
  }

  /** x | (1 << k) */
  function SetBit(x: nat, k: nat): (r: nat)
    ensures forall j :: Bit(r, j) == (j == k || Bit(x, j))
  {
    if k == 0 then
      var r := if x % 2 == 1 then x else x + 1;
      assert forall j: nat :: j > 0 ==> Bit(r, j) == Bit(r / 2, j - 1) && Bit(x, j) == Bit(x / 2, j - 1);
      r
    else
      var r := x % 2 + 2 * SetBit(x / 2, k - 1);
      assert r / 2 == SetBit(x / 2, k - 1);
      r
  }

  /** x & ~(1 << k) */
  function ClearBit(x: nat, k: nat): (r: nat)
    ensures r <= x
    ensures forall j :: Bit(r, j) == (j != k && Bit(x, j))
  {
    if k == 0 then
      var r := if x % 2 == 1 then x - 1 else x;
      assert forall j: nat :: j > 0 ==> Bit(r, j) == Bit(r / 2, j - 1) && Bit(x, j) == Bit(x / 2, j - 1);
      r
    else
      var r := x % 2 + 2 * ClearBit(x / 2, k - 1);
      assert r / 2 == ClearBit(x / 2, k - 1);
      r
  }

  function Pow2(n: nat): nat { if n == 0 then 1 else 2 * Pow2(n - 1) }

  lemma SetBitFits(x: nat, k: nat, n: nat)
    requires k < n && x < Pow2(n)
    ensures SetBit(x, k) < Pow2(n)
  {
    if k > 0 { SetBitFits(x / 2, k - 1, n - 1); }
  }

  lemma ByteFits(x: byte, k: nat)
    requires k < 8
    ensures SetBit(x, k) < 256
  {
    assert Pow2(8) == 256;
    SetBitFits(x, k, 8);
  }

  /** Bit bi of a bitmap block, and the block with it set or cleared. */
  predicate BlockBit(b: Block, bi: nat)
    requires bi < BPB
  {
    Bit(b[bi / 8], bi % 8)
  }

  function MarkUsed(b: Block, bi: nat): (r: Block)
    requires bi < BPB
    ensures forall j :: 0 <= j < BPB ==> BlockBit(r, j) == (j == bi || BlockBit(b, j))
  {
    ByteFits(b[bi / 8], bi % 8);
    b[bi / 8 := SetBit(b[bi / 8], bi % 8)]
  }

  function MarkFree(b: Block, bi: nat): (r: Block)
    requires bi < BPB
    ensures forall j :: 0 <= j < BPB ==> BlockBit(r, j) == (j != bi && BlockBit(b, j))
  {
    b[bi / 8 := ClearBit(b[bi / 8], bi % 8)]
  }

  // ----- Words -----

  /** Consecutive words overwritten, starting at word `at`. */
  function PutWords(b: Block, at: nat, ws: seq<uint32>): (r: Block)
    requires at + |ws| <= WORDS
    ensures forall j :: 0 <= j < WORDS ==> WordAt(r, j) == if at <= j < at + |ws| then ws[j - at] else WordAt(b, j)
  {
    if ws == [] then b
    else WithWord(PutWords(b, at, ws[..|ws| - 1]), at + |ws| - 1, ws[|ws| - 1])
  }

  // ----- Inodes -----

  /** struct dinode. */
  datatype Dinode = Dinode(typ: uint16, major: uint16, minor: uint16, nlink: uint16, size: uint32, addrs: seq<uint32>) {
    predicate Ok() { |addrs| == NDIRECT + 1 }
  }

  function DinodeWords(d: Dinode): (r: seq<uint32>)
    requires d.Ok()
    ensures |r| == 16
  {
    [d.typ + 65536 * d.major, d.minor + 65536 * d.nlink, d.size] + d.addrs
  }

  /** n consecutive words, starting at word `at`. */
  function Words(b: Block, at: nat, n: nat): (r: seq<uint32>)
    requires at + n <= WORDS
    ensures |r| == n && forall k :: 0 <= k < n ==> r[k] == WordAt(b, at + k)
  {
    seq<uint32>(n, k requires 0 <= k < n => WordAt(b, at + k))
  }

  /** The i-th dinode of an inode block. */
  function GetDinode(b: Block, i: nat): (d: Dinode)
    requires i < IPB
    ensures d.Ok()
  {
    var w0: int, w1: int := WordAt(b, 16 * i), WordAt(b, 16 * i + 1);
    Dinode(w0 % 65536, w0 / 65536, w1 % 65536, w1 / 65536, WordAt(b, 16 * i + 2), Words(b, 16 * i + 3, NDIRECT + 1))
  }

  lemma DinodeFromWords(b: Block, i: nat, d: Dinode)
    requires i < IPB && d.Ok() && Words(b, 16 * i, 16) == DinodeWords(d)
    ensures GetDinode(b, i) == d
  {
    hide WordAt;
    var ws, ds := Words(b, 16 * i, 16), DinodeWords(d);
    assert ws[0] == ds[0] && ws[1] == ds[1] && ws[2] == ds[2];
    forall k | 0 <= k < NDIRECT + 1 ensures Words(b, 16 * i + 3, NDIRECT + 1)[k] == d.addrs[k] {
      assert ws[3 + k] == ds[3 + k];
    }
  }

  lemma DinodeSameWords(b: Block, b': Block, i: nat)
    requires i < IPB && Words(b', 16 * i, 16) == Words(b, 16 * i, 16)
    ensures GetDinode(b', i) == GetDinode(b, i)
  {
    hide WordAt;
    var ws, ws' := Words(b, 16 * i, 16), Words(b', 16 * i, 16);
    assert ws[0] == ws'[0] && ws[1] == ws'[1] && ws[2] == ws'[2];
    var a, a' := Words(b, 16 * i + 3, NDIRECT + 1), Words(b', 16 * i + 3, NDIRECT + 1);
    forall k | 0 <= k < NDIRECT + 1 ensures a'[k] == a[k] {
      assert ws[3 + k] == ws'[3 + k];
    }
  }

  /** What iupdate stores: the i-th dinode is d, the others are untouched. */
  function PutDinode(b: Block, i: nat, d: Dinode): (r: Block)
    requires i < IPB && d.Ok()
  {
    PutWords(b, 16 * i, DinodeWords(d))
  }

  lemma DinodeRoundTrip(b: Block, i: nat, d: Dinode)
    requires i < IPB && d.Ok()
    ensures GetDinode(PutDinode(b, i, d), i) == d
    ensures forall j :: 0 <= j < IPB && j != i ==> GetDinode(PutDinode(b, i, d), j) == GetDinode(b, j)
  {
    var r := PutDinode(b, i, d);
    DinodeFromWords(r, i, d);
    forall j | 0 <= j < IPB && j != i ensures GetDinode(r, j) == GetDinode(b, j) {
      DinodeSameWords(b, r, j);
    }
  }

  // ----- Byte by byte -----

  /** A dinode is 64 bytes: four shorts, the size, and thirteen addresses, least significant byte first. */
  lemma DinodeAt(b: Block, i: nat)
    requires i < IPB
    ensures var d, at := GetDinode(b, i), 64 * i;
            && d.typ == Half(b[at], b[at + 1]) && d.major == Half(b[at + 2], b[at + 3])
            && d.minor == Half(b[at + 4], b[at + 5]) && d.nlink == Half(b[at + 6], b[at + 7])
            && d.size == Whole(b[at + 8], b[at + 9], b[at + 10], b[at + 11])
            && forall k :: 0 <= k < 13 ==>
                 d.addrs[k] == Whole(b[at + 12 + 4 * k], b[at + 13 + 4 * k], b[at + 14 + 4 * k], b[at + 15 + 4 * k])
  {
    hide WordAt, Half, Whole;
    WordIs(b, 16 * i);
    WordIs(b, 16 * i + 1);
    WordIs(b, 16 * i + 2);
    Halves(b[64 * i], b[64 * i + 1], b[64 * i + 2], b[64 * i + 3]);
    Halves(b[64 * i + 4], b[64 * i + 5], b[64 * i + 6], b[64 * i + 7]);
    forall k | 0 <= k < 13
      ensures GetDinode(b, i).addrs[k] ==
              Whole(b[64 * i + 12 + 4 * k], b[64 * i + 13 + 4 * k], b[64 * i + 14 + 4 * k], b[64 * i + 15 + 4 * k])
    {
      WordIs(b, 16 * i + 3 + k);
    }
  }

  lemma WordIs(b: Block, k: nat)
    requires k < WORDS
    ensures WordAt(b, k) == Whole(b[4 * k], b[4 * k + 1], b[4 * k + 2], b[4 * k + 3])
  {
  }

  lemma Halves(b0: int, b1: int, b2: int, b3: int)
    requires 0 <= b0 < 256 && 0 <= b1 < 256 && 0 <= b2 < 256 && 0 <= b3 < 256
    ensures Whole(b0, b1, b2, b3) % 65536 == Half(b0, b1) && Whole(b0, b1, b2, b3) / 65536 == Half(b2, b3)
  {
  }

  /** Block n of a bitmap block is bit n % 8 of byte n / 8, the lowest bit first. */
  lemma BitAt(b: Block, n: nat)
    requires n < BPB
    ensures BlockBit(b, n) <==> b[n / 8] / [1, 2, 4, 8, 16, 32, 64, 128][n % 8] % 2 == 1
  {
    Shifted(b[n / 8], n % 8);
  }

  lemma HalfFirst(x: nat, m: nat)
    requires m in {1, 2, 4, 8, 16, 32, 64}
    ensures x / 2 / m == x / (2 * m)
  {
  }

  lemma Shifted(x: nat, k: nat)
    requires k < 8
    ensures Bit(x, k) <==> x / [1, 2, 4, 8, 16, 32, 64, 128][k] % 2 == 1
  {
    if k > 0 {
      var m := [1, 2, 4, 8, 16, 32, 64, 128][k - 1];
      assert [1, 2, 4, 8, 16, 32, 64, 128][k] == 2 * m;
      Shifted(x / 2, k - 1);
      HalfFirst(x, m);
    }
  }
}

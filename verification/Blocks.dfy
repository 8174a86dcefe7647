/**
 Disk blocks as the storage code sees them: BSIZE bytes, which the log header,
 the indirect blocks and the inode table overlay with little-endian 32-bit words.
 */
module Blocks {

  const BSIZE := 512
  const WORDS := 128                 // BSIZE / sizeof(uint)
  const U32 := 0x1_0000_0000         // one past the largest uint

  type byte = x: int | 0 <= x < 256
  type uint32 = x: int | 0 <= x < 0x1_0000_0000

  type Block = b: seq<byte> | |b| == 512 witness seq(512, _ => 0)

  /** What bzero leaves in a block. */
  function ZeroBlock(): Block { seq(512, _ => 0) }

  /** A zeroed disk. */
  function BlankDisk(n: nat): (d: seq<Block>)
    ensures |d| == n && forall i :: 0 <= i < n ==> d[i] == ZeroBlock()
  {
    if n == 0 then [] else BlankDisk(n - 1) + [ZeroBlock()]
  }

  /** The i-th little-endian word of a block. */
  function WordAt(b: Block, i: nat): uint32
    requires i < WORDS
  {
    var b0: int, b1: int, b2: int, b3: int := b[4 * i], b[4 * i + 1], b[4 * i + 2], b[4 * i + 3];
    b0 + 256 * b1 + 65536 * b2 + 16777216 * b3
  }

  /** Two and four bytes as a number, the least significant first. */
  function Half(b0: int, b1: int): int { b0 + 256 * b1 }
  function Whole(b0: int, b1: int, b2: int, b3: int): int { b0 + 256 * b1 + 65536 * b2 + 16777216 * b3 }

  function WordBytes(w: uint32): seq<byte> {
    [w % 256, w / 256 % 256, w / 65536 % 256, w / 16777216]
  }

  /** The block with its i-th word overwritten. */
  function WithWord(b: Block, i: nat, w: uint32): (r: Block)
    requires i < WORDS
    ensures WordAt(r, i) == w
    ensures forall j :: 0 <= j < WORDS && j != i ==> WordAt(r, j) == WordAt(b, j)
  {
    var r := b[..4 * i] + WordBytes(w) + b[4 * i + 4..];
    WordRoundTrip(w);
    r
  }

  lemma WordRoundTrip(w: uint32)
    ensures w % 256 + 256 * (w / 256 % 256) + 65536 * (w / 65536 % 256) + 16777216 * (w / 16777216) == w
  {
    assert w / 65536 == w / 256 / 256;
    assert w / 16777216 == w / 65536 / 256;
  }

  /** Every word of the zero block is zero: what makes a fresh indirect block empty. */
  lemma ZeroWords()
    ensures forall i :: 0 <= i < WORDS ==> WordAt(ZeroBlock(), i) == 0
  {
  }
}

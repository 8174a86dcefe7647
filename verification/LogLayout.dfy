/**
 The on-disk log: a header block, then the logged blocks, then nothing else.
 Everything here is a function of the disk alone, so that "what recovery would
 leave on this disk" can be said of any disk a crash may leave behind.
 */
module LogLayout {
  import opened Blocks
  import opened Sequences

  const MAXOPBLOCKS := 10            // blocks one operation may log
  const LOGSIZE := 30                // capacity of logheader.block[]

  type Disk = seq<Block>

  datatype Layout = Layout(start: nat, size: nat, nblocks: nat) {
    predicate Valid() {
      1 <= size && start + size <= nblocks < U32
    }

    /** A block some caller may log: on the disk and outside the log area. */
    predicate Home(b: nat) {
      b < nblocks && !(start <= b < start + size)
    }

    function Slot(i: nat): nat { start + 1 + i }
  }

  // ----- Block-number lists -----

  /** Where log_write's absorption loop stops: the first position of b, or the end. */
  function Find(s: seq<nat>, b: nat): (i: nat)
    ensures i <= |s|
    ensures i < |s| ==> s[i] == b
    ensures forall k :: 0 <= k < i ==> s[k] != b
  {
    if s == [] || s[0] == b then 0 else 1 + Find(s[1..], b)
  }

  /** log.lh.block[0..n) after log_write(b). */
  function Absorb(s: seq<nat>, b: nat): (r: seq<nat>)
    ensures Distinct(s) ==> Distinct(r)
    ensures b in r && (forall x :: x in s ==> x in r) && (forall x :: x in r ==> x in s || x == b)
    ensures |r| == |s| + (if b in s then 0 else 1)
    ensures s <= r
  {
    if Find(s, b) == |s| then s + [b] else s
  }

  // ----- The header block -----

  function Count(h: Block): uint32 { WordAt(h, 0) }

  function Entries(h: Block): (r: seq<nat>)
    requires Count(h) <= LOGSIZE
    ensures |r| == Count(h)
  {
    seq(Count(h), i requires 0 <= i < Count(h) => WordAt(h, 1 + i))
  }

  /** The header block: the count in its first four bytes, then the block numbers, four bytes each. */
  lemma HeaderAt(h: Block)
    requires Count(h) <= LOGSIZE
    ensures Count(h) == Whole(h[0], h[1], h[2], h[3])
    ensures forall i :: 0 <= i < Count(h) ==>
      Entries(h)[i] == Whole(h[4 + 4 * i], h[5 + 4 * i], h[6 + 4 * i], h[7 + 4 * i])
  {
  }

  predicate Encodable(lh: seq<nat>) {
    |lh| <= LOGSIZE && forall i :: 0 <= i < |lh| ==> lh[i] < U32
  }

  /** write_head's loop after k entries: later entries keep whatever was there. */
  function PutEntries(h: Block, lh: seq<nat>, k: nat): (r: Block)
    requires Encodable(lh) && k <= |lh|
    ensures WordAt(r, 0) == WordAt(h, 0)
    ensures forall i :: 0 <= i < k ==> WordAt(r, 1 + i) == lh[i]
  {
    if k == 0 then h else WithWord(PutEntries(h, lh, k - 1), k, lh[k - 1])
  }

  function PutHeader(h: Block, lh: seq<nat>): (r: Block)
    requires Encodable(lh)
    ensures Count(r) == |lh| && Entries(r) == lh
  {
    var r := PutEntries(WithWord(h, 0, |lh|), lh, |lh|);
    assert forall i :: 0 <= i < |lh| ==> Entries(r)[i] == lh[i];
    r
  }

  // ----- Recovery, seen from the disk -----

  predicate GoodList(l: Layout, lh: seq<nat>) {
    && |lh| <= LOGSIZE && |lh| <= l.size - 1
    && Distinct(lh)
    && forall i :: 0 <= i < |lh| ==> l.Home(lh[i])
  }

  predicate GoodDisk(l: Layout, d: Disk) {
    l.Valid() && |d| == l.nblocks && Count(d[l.start]) <= LOGSIZE && GoodList(l, Entries(d[l.start]))
  }

  /** What home block b holds once recovery is through, read off the disk. */
  function Recovered(l: Layout, d: Disk, b: nat): Block
    requires GoodDisk(l, d) && l.Home(b)
  {
    var lh := Entries(d[l.start]);
    var i := Find(lh, b);
    if i < |lh| then d[l.Slot(i)] else d[b]
  }

  /** The disk after install_trans copied the first t logged blocks home. */
  function Installed(l: Layout, d: Disk, lh: seq<nat>, t: nat): (r: Disk)
    requires l.Valid() && |d| == l.nblocks && GoodList(l, lh) && t <= |lh|
    ensures |r| == |d|
    ensures forall i {:trigger l.Slot(i)} :: 0 <= i < |lh| ==> r[l.Slot(i)] == d[l.Slot(i)]
    ensures r[l.start] == d[l.start]
    ensures forall b: nat :: l.Home(b) ==> r[b] == if Find(lh, b) < t then d[l.Slot(Find(lh, b))] else d[b]
  {
    if t == 0 then d
    else
      var p := Installed(l, d, lh, t - 1);
      FindAt(lh, t - 1);
      p[lh[t - 1] := p[l.Slot(t - 1)]]
  }

  lemma FindAt(s: seq<nat>, i: nat)
    requires i < |s| && Distinct(s)
    ensures Find(s, s[i]) == i
  {
    var k := Find(s, s[i]);
    assert s[k] == s[i];
  }

  /** recover_from_log as one function of the disk. */
  function Recover(l: Layout, d: Disk): Disk
    requires GoodDisk(l, d)
  {
    var lh := Entries(d[l.start]);
    var p := Installed(l, d, lh, |lh|);
    p[l.start := PutHeader(p[l.start], [])]
  }

  /** Recovery does what `Recovered` reads off, and leaves an empty log. */
  lemma RecoverMeaning(l: Layout, d: Disk)
    requires GoodDisk(l, d)
    ensures GoodDisk(l, Recover(l, d)) && Entries(Recover(l, d)[l.start]) == []
    ensures forall b: nat :: l.Home(b) ==> Recover(l, d)[b] == Recovered(l, d, b)
    ensures forall b: nat :: l.Home(b) ==> Recovered(l, Recover(l, d), b) == Recovered(l, d, b)
  {
  }
}

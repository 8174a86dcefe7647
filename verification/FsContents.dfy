/**
 Files as byte strings: what the block map of an inode means, and what the changes that
 bmap and writei make to blocks do to the contents of every file.
 */
module FsContents {
  import opened Blocks
  import opened FsLayout
  import opened FsState
  import opened FsGrowth

  const MAXBYTES := 71680            // MAXFILE * BSIZE

  /** Byte p of file i; an unmapped block reads as zeros. */
  function Byte(v: View, i: nat, p: nat): byte
    requires v.Shape() && i < v.sb.ninodes && p < MAXBYTES
  {
    var x := v.Ptr(SlotOf(i, p / BSIZE));
    if x == 0 || x >= v.sb.size then 0 else v.blocks[x][p % BSIZE]
  }

  function Contents(v: View, i: nat): (r: seq<byte>)
    requires v.Shape() && i < v.sb.ninodes && v.Ino(i).size <= MAXBYTES
    ensures |r| == v.Ino(i).size && forall p :: 0 <= p < |r| ==> r[p] == Byte(v, i, p)
  {
    seq<byte>(v.Ino(i).size, p requires 0 <= p < v.Ino(i).size => Byte(v, i, p))
  }

  /** The pointers of v' are those of v, but for block bn of the locked inode, now mapped, and perhaps its indirect block. */
  ghost predicate PtrsKept(v: View, v': View, bn: nat)
    requires v.Shape() && v'.Shape() && bn < MAXFILE
  {
    && v'.sb == v.sb && v'.inum == v.inum && v'.ip == v.ip.(addrs := v'.ip.addrs)
    && (forall i :: 0 <= i < v.sb.ninodes ==> v'.Disk(i) == v.Disk(i))
    && (forall t: Slot :: v.Slotted(t) && t != SlotOf(v.inum, bn) && t != Direct(v.inum, NDIRECT) ==> v'.Ptr(t) == v.Ptr(t))
    && v'.Ptr(SlotOf(v.inum, bn)) != 0
    && (v.ip.addrs[NDIRECT] != 0 || bn < NDIRECT ==> v'.ip.addrs[NDIRECT] == v.ip.addrs[NDIRECT])
    && (bn >= NDIRECT ==> v'.ip.addrs[NDIRECT] != 0)
    && (v.Ptr(SlotOf(v.inum, bn)) != 0 ==> v'.ip == v.ip)
  }

  lemma MappedGrows(v: View, v': View, bn: nat, n: nat)
    requires v.Shape() && v'.Shape() && bn < MAXFILE && PtrsKept(v, v', bn)
    requires Mapped(v, v.inum, n) && bn <= n
    ensures Mapped(v', v.inum, if bn < n then n else n + 1)
  {
    forall k | 0 <= k < MAXFILE && k != bn ensures v'.Ptr(SlotOf(v.inum, k)) == v.Ptr(SlotOf(v.inum, k)) {
      assert v.Slotted(SlotOf(v.inum, k));
    }
  }

  /** bmap's allocations change no file's bytes. */
  lemma ExtendedBytes(v: View, owner: map<nat, Slot>, v': View, owner': map<nat, Slot>, bn: nat, b: nat, i: nat, p: nat)
    requires v.Shape() && v'.Shape() && bn < MAXFILE && Linked(v, owner) && Linked(v', owner')
    requires Extended(v, owner, v', owner', bn, b) && v.Ptr(SlotOf(v.inum, bn)) == 0
    requires i < v.sb.ninodes && p < MAXBYTES
    ensures Byte(v', i, p) == Byte(v, i, p)
  {
    var s := SlotOf(i, p / BSIZE);
    assert v.Slotted(s) && !Indirect(s);
    if s != SlotOf(v.inum, bn) {
      assert v'.Ptr(s) == v.Ptr(s);
      if v.Ptr(s) != 0 {
        assert owner[v.Ptr(s)] == s;
      }
    }
  }

  lemma StoredElsewhere(v: View, owner: map<nat, Slot>, b: nat, blk: Block, i: nat, p: nat)
    requires v.Shape() && Linked(v, owner) && b in owner && !Indirect(owner[b])
    requires i < v.sb.ninodes && p < MAXBYTES && SlotOf(i, p / BSIZE) != owner[b]
    ensures Byte(Store(v, b, blk), i, p) == Byte(v, i, p)
  {
    var t := SlotOf(i, p / BSIZE);
    assert v.Slotted(t);
    DataWritten(v, owner, b, blk);
    if v.Ptr(t) != 0 {
      assert owner[v.Ptr(t)] == t;
    }
  }

  lemma StoredHere(v: View, owner: map<nat, Slot>, b: nat, blk: Block, i: nat, p: nat)
    requires v.Shape() && Linked(v, owner) && b in owner && !Indirect(owner[b])
    requires i < v.sb.ninodes && p < MAXBYTES && SlotOf(i, p / BSIZE) == owner[b]
    ensures Byte(Store(v, b, blk), i, p) == blk[p % BSIZE]
  {
    assert v.Ptr(Place(owner, b)) == b;
    DataWritten(v, owner, b, blk);
  }

  /** Overwriting a data block of the locked inode changes those bytes of that file and nothing else. */
  lemma StoredBytes(v: View, owner: map<nat, Slot>, bn: nat, blk: Block, i: nat, p: nat)
    requires v.Shape() && bn < MAXFILE && Linked(v, owner) && v.Ptr(SlotOf(v.inum, bn)) != 0
    requires i < v.sb.ninodes && p < MAXBYTES
    ensures v.Ptr(SlotOf(v.inum, bn)) < v.sb.size
    ensures Byte(Store(v, v.Ptr(SlotOf(v.inum, bn)), blk), i, p) ==
            if i == v.inum && p / BSIZE == bn then blk[p % BSIZE] else Byte(v, i, p)
  {
    var s := SlotOf(v.inum, bn);
    var b := v.Ptr(s);
    assert v.Slotted(s) && b in owner && owner[b] == s;
    if i == v.inum && p / BSIZE == bn {
      StoredHere(v, owner, b, blk, i, p);
    } else {
      StoredElsewhere(v, owner, b, blk, i, p);
    }
  }

  /** v' differs from v in the bytes [off, off + |chunk|) of the locked file, which are chunk. */
  ghost predicate BytesWritten(v: View, v': View, off: nat, chunk: seq<byte>)
    requires v.Shape() && v'.Shape()
  {
    && v'.sb == v.sb && v'.inum == v.inum
    && forall i, p {:trigger Byte(v', i, p)} :: 0 <= i < v.sb.ninodes && 0 <= p < MAXBYTES ==>
         Byte(v', i, p) == if i == v.inum && off <= p < off + |chunk| then chunk[p - off] else Byte(v, i, p)
  }

  /** Writes compose. */
  lemma BytesWrittenOn(v: View, v1: View, v2: View, off: nat, first: seq<byte>, second: seq<byte>)
    requires v.Shape() && v1.Shape() && v2.Shape()
    requires BytesWritten(v, v1, off, first) && BytesWritten(v1, v2, off + |first|, second)
    ensures BytesWritten(v, v2, off, first + second)
  {
    forall i, p {:trigger Byte(v2, i, p)} | 0 <= i < v.sb.ninodes && 0 <= p < MAXBYTES
      ensures Byte(v2, i, p) == if i == v.inum && off <= p < off + |first + second| then (first + second)[p - off] else Byte(v, i, p)
    {
      assert Byte(v1, i, p) == if i == v.inum && off <= p < off + |first| then first[p - off] else Byte(v, i, p);
    }
  }

  /** The block with `chunk` moved to offset o. */
  function Patch(blk: Block, o: nat, chunk: seq<byte>): (r: Block)
    requires o + |chunk| <= BSIZE
    ensures forall k :: 0 <= k < BSIZE ==> r[k] == if o <= k < o + |chunk| then chunk[k - o] else blk[k]
  {
    blk[..o] + chunk + blk[o + |chunk|..]
  }

  lemma PatchedBytes(v: View, owner: map<nat, Slot>, off: nat, chunk: seq<byte>)
    requires v.Shape() && Linked(v, owner) && off < MAXBYTES && off % BSIZE + |chunk| <= BSIZE
    requires v.Ptr(SlotOf(v.inum, off / BSIZE)) != 0
    ensures var b := v.Ptr(SlotOf(v.inum, off / BSIZE));
            && b < v.sb.size && b in owner && !Indirect(owner[b])
            && BytesWritten(v, Store(v, b, Patch(v.blocks[b], off % BSIZE, chunk)), off, chunk)
  {
    var bn := off / BSIZE;
    var b := v.Ptr(SlotOf(v.inum, bn));
    assert v.Slotted(SlotOf(v.inum, bn)) && b in owner;
    var blk := Patch(v.blocks[b], off % BSIZE, chunk);
    var v' := Store(v, b, blk);
    forall i, p {:trigger Byte(v', i, p)} | 0 <= i < v.sb.ninodes && 0 <= p < MAXBYTES
      ensures Byte(v', i, p) == if i == v.inum && off <= p < off + |chunk| then chunk[p - off] else Byte(v, i, p)
    {
      StoredBytes(v, owner, bn, blk, i, p);
    }
  }

  /** Blocks handed to log_write by the running operation, by role. */
  datatype Tally = Tally(data: set<nat>, maps: set<nat>, inds: set<nat>, inos: set<nat>) {
    function All(): set<nat> { data + maps + inds + inos }
  }

  /** Every block that has changed was given to log_write, and so were those that had been before. */
  ghost predicate Logged(was: seq<Block>, now: seq<Block>, t: Tally, t': Tally) {
    && |now| == |was| && t.All() <= t'.All()
    && forall x :: 0 <= x < |was| && now[x] != was[x] ==> x in t'.All()
  }

  lemma LoggedNone(was: seq<Block>, t: Tally)
    ensures Logged(was, was, t, t)
  {
  }

  lemma LoggedPut(was: seq<Block>, x: nat, blk: Block, t: Tally, t': Tally)
    requires x < |was| && t.All() <= t'.All() && x in t'.All()
    ensures Logged(was, was[x := blk], t, t')
  {
  }

  lemma LoggedOn(a: seq<Block>, b: seq<Block>, c: seq<Block>, t: Tally, t1: Tally, t2: Tally)
    requires Logged(a, b, t, t1) && Logged(b, c, t1, t2)
    ensures Logged(a, c, t, t2)
  {
  }

  /** The blocks of the free bitmap. */
  function Bitmap(sb: Super): set<nat> {
    set b | 0 <= b < sb.size :: sb.BBlock(b)
  }

  /** Where blocks of files are. */
  predicate Area(sb: Super, b: nat) { sb.NMeta() <= b < sb.size }

  /** What bmap(bn) may do: nothing if the block is mapped, else extend the file by it. */
  ghost predicate MapStep(v: View, owner: map<nat, Slot>, v1: View, owner1: map<nat, Slot>, bn: nat, b: nat)
    requires v.Shape() && v1.Shape() && bn < MAXFILE
  {
    var x := v.Ptr(SlotOf(v.inum, bn));
    if x != 0 then v1 == v && owner1 == owner && b == x else Extended(v, owner, v1, owner1, bn, b)
  }

  /** What it may log: a bitmap block for each block it allocates, the new block, and the indirect block. */
  ghost predicate MapTally(v: View, v1: View, t: Tally, t1: Tally, bn: nat, b: nat)
    requires v.Shape() && v1.Shape() && bn < MAXFILE
  {
    if v.Ptr(SlotOf(v.inum, bn)) != 0 then t1 == t
    else
      && t1.inos == t.inos && t1.data == t.data + {b}
      && t1.inds == t.inds + (if bn < NDIRECT then {} else {v1.ip.addrs[NDIRECT]})
      && t1.maps <= t.maps + Bitmap(v.sb)
      && |t1.maps| <= |t.maps| + (if bn >= NDIRECT && v.ip.addrs[NDIRECT] == 0 then 2 else 1)
  }

  lemma MapStepBytes(v: View, owner: map<nat, Slot>, v1: View, owner1: map<nat, Slot>, bn: nat, b: nat, off: nat)
    requires v.Shape() && v1.Shape() && Linked(v, owner) && Linked(v1, owner1) && bn < MAXFILE
    requires MapStep(v, owner, v1, owner1, bn, b)
    ensures BytesWritten(v, v1, off, [])
  {
    if v.Ptr(SlotOf(v.inum, bn)) == 0 {
      forall i, p {:trigger Byte(v1, i, p)} | 0 <= i < v.sb.ninodes && 0 <= p < MAXBYTES ensures Byte(v1, i, p) == Byte(v, i, p) {
        ExtendedBytes(v, owner, v1, owner1, bn, b, i, p);
      }
    }
  }

  lemma MapStepPtrs(v: View, owner: map<nat, Slot>, v1: View, owner1: map<nat, Slot>, bn: nat, b: nat)
    requires v.Shape() && v1.Shape() && Linked(v, owner) && bn < MAXFILE
    requires MapStep(v, owner, v1, owner1, bn, b)
    ensures PtrsKept(v, v1, bn) && v1.Ptr(SlotOf(v.inum, bn)) == b
  {
    assert v.Slotted(SlotOf(v.inum, bn));
    if v.Ptr(SlotOf(v.inum, bn)) != 0 && bn >= NDIRECT {
      assert v.ip.addrs[NDIRECT] != 0;
    }
  }

  lemma StoreKeepsPtrs(v: View, v1: View, owner1: map<nat, Slot>, bn: nat, b: nat, blk: Block)
    requires v.Shape() && v1.Shape() && bn < MAXFILE && PtrsKept(v, v1, bn)
    requires Linked(v1, owner1) && b in owner1 && !Indirect(owner1[b])
    ensures var v' := Store(v1, b, blk); PtrsKept(v, v', bn) && Linked(v', owner1) && SameUse(v1, v')
  {
    hide View.Ptr, View.Disk;
    DataWritten(v1, owner1, b, blk);
    assert v.Slotted(SlotOf(v.inum, bn)) && v1.Slotted(SlotOf(v.inum, bn));
  }

  lemma ChunkBlock(v: View, owner: map<nat, Slot>, v1: View, owner1: map<nat, Slot>, bn: nat, b: nat)
    requires v.Shape() && v1.Shape() && Linked(v, owner) && Linked(v1, owner1) && bn < MAXFILE
    requires MapStep(v, owner, v1, owner1, bn, b)
    ensures v1.sb == v.sb && v1.inum == v.inum && b == v1.Ptr(SlotOf(v1.inum, bn)) && b != 0
    ensures b < v.sb.size && b in owner1 && !Indirect(owner1[b])
  {
    MapStepPtrs(v, owner, v1, owner1, bn, b);
    assert v1.Slotted(SlotOf(v1.inum, bn));
  }

  lemma ChunkBytes(v: View, v1: View, owner1: map<nat, Slot>, off: nat, chunk: seq<byte>, b: nat)
    requires v.Shape() && v1.Shape() && Linked(v1, owner1)
    requires off < MAXBYTES && off % BSIZE + |chunk| <= BSIZE
    requires b == v1.Ptr(SlotOf(v1.inum, off / BSIZE)) && 0 < b < v1.sb.size && BytesWritten(v, v1, off, [])
    ensures BytesWritten(v, Store(v1, b, Patch(v1.blocks[b], off % BSIZE, chunk)), off, chunk)
  {
    PatchedBytes(v1, owner1, off, chunk);
    BytesWrittenOn(v, v1, Store(v1, b, Patch(v1.blocks[b], off % BSIZE, chunk)), off, [], chunk);
    assert [] + chunk == chunk;
  }

  /** bmap, then the copy into the block it returned. */
  lemma ChunkWritten(v: View, owner: map<nat, Slot>, v1: View, owner1: map<nat, Slot>, off: nat, chunk: seq<byte>, b: nat)
    requires v.Shape() && v1.Shape() && Linked(v, owner) && Linked(v1, owner1)
    requires off < MAXBYTES && off % BSIZE + |chunk| <= BSIZE && MapStep(v, owner, v1, owner1, off / BSIZE, b)
    ensures b < v.sb.size && b < v1.sb.size && b in owner1 && !Indirect(owner1[b]) && Area(v1.sb, b)
    ensures var v' := Store(v1, b, Patch(v1.blocks[b], off % BSIZE, chunk));
            && Linked(v', owner1) && SameUse(v1, v')
            && BytesWritten(v, v', off, chunk) && PtrsKept(v, v', off / BSIZE)
  {
    ChunkBlock(v, owner, v1, owner1, off / BSIZE, b);
    MapStepBytes(v, owner, v1, owner1, off / BSIZE, b, off);
    ChunkBytes(v, v1, owner1, off, chunk, b);
    MapStepPtrs(v, owner, v1, owner1, off / BSIZE, b);
    StoreKeepsPtrs(v, v1, owner1, off / BSIZE, b, Patch(v1.blocks[b], off % BSIZE, chunk));
  }

  // ----- Sizes -----

  function Max(a: nat, b: nat): nat { if a < b then b else a }

  /** Blocks that a write from off up to cur has gone through. */
  function Visited(off: nat, cur: nat): nat
    requires off <= cur
  {
    if cur == off then 0 else (cur - 1) / BSIZE - off / BSIZE + 1
  }

  /** The end of the file, or of the write if that is further on, decides how many blocks are mapped. */
  lemma Advance(v: View, v': View, size: nat, cur: nat, m: nat)
    requires v.Shape() && v'.Shape() && cur < MAXBYTES && 1 <= m && cur % BSIZE + m <= BSIZE
    requires Mapped(v, v.inum, NBlocks(Max(size, cur))) && PtrsKept(v, v', cur / BSIZE)
    ensures Mapped(v', v.inum, NBlocks(Max(size, cur + m)))
    ensures NBlocks(Max(size, cur + m)) - NBlocks(Max(size, cur)) == if v.Ptr(SlotOf(v.inum, cur / BSIZE)) != 0 then 0 else 1
    ensures cur < size ==> v.Ptr(SlotOf(v.inum, cur / BSIZE)) != 0
  {
    var n := NBlocks(Max(size, cur));
    BlockCount(size, cur, m);
    assert v.Ptr(SlotOf(v.inum, cur / BSIZE)) != 0 <==> cur / BSIZE < n;
    MappedGrows(v, v', cur / BSIZE, n);
  }

  lemma BlockCount(size: nat, cur: nat, m: nat)
    requires 1 <= m && cur % BSIZE + m <= BSIZE
    ensures cur / BSIZE <= NBlocks(Max(size, cur))
    ensures NBlocks(Max(size, cur + m)) ==
            if cur / BSIZE < NBlocks(Max(size, cur)) then NBlocks(Max(size, cur)) else cur / BSIZE + 1
    ensures cur < size ==> cur / BSIZE < NBlocks(size)
  {
  }

  /** Blocks that a file of this size takes, its indirect block among them. */
  function Takes(size: nat): nat { NBlocks(size) + if NBlocks(size) > NDIRECT then 1 else 0 }

  /** Blocks that mapping block bn of the locked inode takes. */
  function Missing(v: View, bn: nat): nat
    requires v.Shape() && bn < MAXFILE
  {
    (if v.Ptr(SlotOf(v.inum, bn)) == 0 then 1 else 0) + if bn >= NDIRECT && v.ip.addrs[NDIRECT] == 0 then 1 else 0
  }

  /** What a turn takes is what the size after it takes more. */
  lemma MissingIs(v: View, size: nat, cur: nat, m: nat)
    requires v.Shape() && cur < MAXBYTES && 1 <= m && cur % BSIZE + m <= BSIZE
    requires Mapped(v, v.inum, NBlocks(Max(size, cur)))
    ensures Takes(Max(size, cur + m)) == Takes(Max(size, cur)) + Missing(v, cur / BSIZE)
  {
    BlockCount(size, cur, m);
    assert v.Ptr(SlotOf(v.inum, cur / BSIZE)) != 0 <==> cur / BSIZE < NBlocks(Max(size, cur));
  }

  lemma TakesMore(a: nat, b: nat)
    requires a <= b
    ensures Takes(a) <= Takes(b)
  {
  }

  /** Blocks that a file of this size has to get for a write up to `end`. */
  function More(size: nat, end: nat): int { Takes(Max(size, end)) - Takes(size) }

  lemma MoreGrows(size: nat, end: nat, end': nat)
    requires end <= end'
    ensures More(size, end) <= More(size, end') && (end <= size ==> More(size, end) == 0)
  {
    hide Takes;
    TakesMore(Max(size, end), Max(size, end'));
  }

  /** What mapping a block takes, from the pointers bmap looks at. */
  lemma MissingOf(v: View, bn: nat)
    requires v.Shape() && bn < MAXFILE
    ensures bn < NDIRECT ==> Missing(v, bn) == if v.ip.addrs[bn] == 0 then 1 else 0
    ensures bn >= NDIRECT && v.ip.addrs[NDIRECT] == 0 ==> Missing(v, bn) == 2 && v.Ptr(Entry(v.inum, bn - NDIRECT)) == 0
    ensures bn >= NDIRECT && v.ip.addrs[NDIRECT] != 0 ==> Missing(v, bn) == if v.Ptr(Entry(v.inum, bn - NDIRECT)) == 0 then 1 else 0
  {
  }

  lemma ProgressMissing(v0: View, v: View, off: nat, src: seq<byte>, tot: nat, m: nat)
    requires v0.Shape() && v.Shape() && tot + m <= |src| && 1 <= m
    requires off + tot < MAXBYTES && (off + tot) % BSIZE + m <= BSIZE && Progress(v0, v, off, src, tot)
    ensures More(v0.ip.size, off + tot + m) == More(v0.ip.size, off + tot) + Missing(v, (off + tot) / BSIZE)
  {
    hide BytesWritten, Mapped, Missing;
    MissingIs(v, v0.ip.size, off + tot, m);
  }

  lemma VisitOne(off: nat, cur: nat, m: nat)
    requires off <= cur && 1 <= m && cur % BSIZE + m <= BSIZE && (cur == off || cur % BSIZE == 0)
    ensures Visited(off, cur + m) == Visited(off, cur) + 1
  {
  }

  // ----- Progress of a write -----

  /** Everything but the locked inode's addresses, and blocks, is as it was. */
  ghost predicate Kept(v: View, v': View)
    requires v.Shape() && v'.Shape()
  {
    && v'.sb == v.sb && v'.inum == v.inum && v'.ip == v.ip.(addrs := v'.ip.addrs)
    && (v.ip.addrs[NDIRECT] != 0 ==> v'.ip.addrs[NDIRECT] == v.ip.addrs[NDIRECT])
    && (forall i :: 0 <= i < v.sb.ninodes ==> v'.Disk(i) == v.Disk(i))
    && (forall t: Slot :: v.Slotted(t) && t.inum != v.inum ==> v'.Ptr(t) == v.Ptr(t))
  }

  /** v0 became v by writing the first tot bytes of src at off. */
  ghost predicate Progress(v0: View, v: View, off: nat, src: seq<byte>, tot: nat)
    requires v0.Shape() && v.Shape() && tot <= |src|
  {
    && BytesWritten(v0, v, off, src[..tot]) && Kept(v0, v)
    && (off + tot <= v.ip.size ==> v.ip == v0.ip)
    && Mapped(v, v.inum, NBlocks(Max(v.ip.size, off + tot)))
  }

  lemma ProgressOn(v0: View, v: View, v': View, off: nat, src: seq<byte>, tot: nat, m: nat)
    requires v0.Shape() && v.Shape() && v'.Shape() && tot + m <= |src| && 1 <= m
    requires off + tot < MAXBYTES && (off + tot) % BSIZE + m <= BSIZE
    requires Progress(v0, v, off, src, tot)
    requires BytesWritten(v, v', off + tot, src[tot..tot + m]) && PtrsKept(v, v', (off + tot) / BSIZE)
    ensures Progress(v0, v', off, src, tot + m)
  {
    hide View.Ptr, View.Disk, Byte, Mapped;
    BytesWrittenOn(v0, v, v', off, src[..tot], src[tot..tot + m]);
    assert src[..tot] + src[tot..tot + m] == src[..tot + m];
    Advance(v, v', v.ip.size, off + tot, m);
  }

  /** What a write from off up to cur has logged at most: a data block per block visited, a bitmap block per block mapped ... */
  ghost predicate Budget(v0: View, v: View, t0: Tally, t: Tally, off: nat, cur: nat)
    requires v0.Shape() && v.Shape() && off <= cur
  {
    && t.inos == t0.inos && t.maps <= t0.maps + Bitmap(v0.sb) && |t.data| <= |t0.data| + Visited(off, cur)
    && t.inds <= t0.inds + IndSet(v)
    && (forall b | b in t.data :: b in t0.data || Area(v0.sb, b)) && (forall x | x in IndSet(v) :: Area(v0.sb, x))
    && |t.maps| <= |t0.maps| + (NBlocks(Max(v.ip.size, cur)) - NBlocks(v.ip.size)) + NewInd(v0, v)
  }

  function IndSet(v: View): set<nat>
    requires v.Shape()
  {
    if v.ip.addrs[NDIRECT] == 0 then {} else {v.ip.addrs[NDIRECT]}
  }

  function NewInd(v0: View, v: View): nat
    requires v0.Shape() && v.Shape()
  {
    if v0.ip.addrs[NDIRECT] == 0 && v.ip.addrs[NDIRECT] != 0 then 1 else 0
  }

  /** ... which one turn of the loop keeps. */
  lemma BudgetOn(v0: View, v: View, v': View, t0: Tally, t: Tally, t1: Tally, off: nat, cur: nat, m: nat, b: nat)
    requires v0.Shape() && v.Shape() && v'.Shape() && off <= cur < MAXBYTES && 1 <= m && cur % BSIZE + m <= BSIZE
    requires cur == off || cur % BSIZE == 0
    requires (v0.ip.addrs[NDIRECT] != 0 ==> v.ip.addrs[NDIRECT] != 0) && v'.ip.size == v.ip.size && v.sb == v0.sb
    requires Mapped(v, v.inum, NBlocks(Max(v.ip.size, cur))) && PtrsKept(v, v', cur / BSIZE)
    requires MapTally(v, v', t, t1, cur / BSIZE, b) && Budget(v0, v, t0, t, off, cur)
    requires Area(v0.sb, b) && forall x | x in IndSet(v') :: Area(v0.sb, x)
    ensures Budget(v0, v', t0, t1.(data := t1.data + {b}), off, cur + m)
  {
    VisitOne(off, cur, m);
    Advance(v, v', v.ip.size, cur, m);
    assert |t.data + {b}| <= |t.data| + 1 && |t1.data + {b}| <= |t.data| + 1 by {
      assert t1.data + {b} == t.data + {b};
    }
  }

  lemma IndArea(v: View, owner: map<nat, Slot>)
    requires v.Shape() && Linked(v, owner)
    ensures forall x | x in IndSet(v) :: Area(v.sb, x)
  {
    assert v.Slotted(Direct(v.inum, NDIRECT));
  }

  lemma Started(v: View, t: Tally, off: nat, src: seq<byte>)
    requires v.Shape() && off <= v.ip.size && Mapped(v, v.inum, NBlocks(v.ip.size)) && forall x | x in IndSet(v) :: Area(v.sb, x)
    ensures Progress(v, v, off, src, 0) && Budget(v, v, t, t, off, off)
  {
    assert src[..0] == [];
  }

  /** Bytes moved by one turn: to the end of the block, or of the data. */
  function ChunkLen(left: nat, off: nat): (m: nat)
    requires left > 0
    ensures 1 <= m <= left && off % BSIZE + m <= BSIZE && (m == left || (off + m) % BSIZE == 0)
  {
    if left < BSIZE - off % BSIZE then left else BSIZE - off % BSIZE
  }

  /** One turn, from what writei has written and logged so far to what it has after it. */
  lemma TurnDone(v0: View, v: View, v': View, t0: Tally, t: Tally, t1: Tally, off: nat, src: seq<byte>, tot: nat, m: nat, b: nat)
    requires v0.Shape() && v.Shape() && v'.Shape() && tot + m <= |src| && off + |src| <= MAXBYTES
    requires 1 <= m && (off + tot) % BSIZE + m <= BSIZE && (tot == 0 || (off + tot) % BSIZE == 0)
    requires Progress(v0, v, off, src, tot) && Budget(v0, v, t0, t, off, off + tot)
    requires BytesWritten(v, v', off + tot, src[tot..tot + m]) && PtrsKept(v, v', (off + tot) / BSIZE)
    requires MapTally(v, v', t, t1, (off + tot) / BSIZE, b)
    requires Area(v0.sb, b) && forall x | x in IndSet(v') :: Area(v0.sb, x)
    ensures Progress(v0, v', off, src, tot + m)
    ensures Budget(v0, v', t0, t1.(data := t1.data + {b}), off, off + tot + m)
  {
    hide BytesWritten, Budget, MapTally;
    ProgressOn(v0, v, v', off, src, tot, m);
    BudgetOn(v0, v, v', t0, t, t1, off, off + tot, m, b);
  }
}

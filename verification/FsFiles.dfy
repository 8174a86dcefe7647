/**
 The invariant that the file operations keep between calls, and what a whole write
 comes to: the contents of one file spliced, every other file as it was, and a bounded
 number of blocks handed to the log.
 */
module FsFiles {
  import opened Blocks
  import opened FsLayout
  import opened FsState
  import opened FsGrowth
  import opened FsContents

  const T_DEV := 3
  const WINDOW := 1536               // filewrite's ((MAXOPBLOCKS-1-1-2) / 2) * 512

  /** No file is too long, and each has exactly the blocks that its size needs. */
  ghost predicate HoleFree(v: View)
    requires v.Shape()
  {
    forall i :: 0 <= i < v.sb.ninodes ==> v.Ino(i).size <= MAXBYTES && Mapped(v, i, NBlocks(v.Ino(i).size))
  }

  lemma LockedMapped(v: View)
    requires v.Shape() && HoleFree(v)
    ensures v.ip.size <= MAXBYTES && Mapped(v, v.inum, NBlocks(v.ip.size))
  {
    assert v.Ino(v.inum) == v.ip;
  }

  /** s with chunk laid over it at off, which may make it longer. */
  function Splice(s: seq<byte>, off: nat, chunk: seq<byte>): (r: seq<byte>)
    requires off <= |s|
    ensures |r| == Max(|s|, off + |chunk|)
    ensures forall p :: 0 <= p < |r| ==> r[p] == if off <= p < off + |chunk| then chunk[p - off] else s[p]
  {
    s[..off] + chunk + if off + |chunk| < |s| then s[off + |chunk|..] else []
  }

  /** Files other than the locked one have the inodes and contents they had. */
  ghost predicate OthersKept(v: View, v': View)
    requires v.Shape() && v'.Shape() && v'.sb == v.sb
  {
    forall i :: 0 <= i < v.sb.ninodes && i != v.inum && v.Ino(i).size <= MAXBYTES ==>
      v'.Ino(i) == v.Ino(i) && Contents(v', i) == Contents(v, i)
  }

  /** The new size is recorded, in memory and in the inode table. */
  function Sized(v: View, n: uint32): (v': View)
    requires v.Shape()
    ensures v'.Shape() && v'.sb == v.sb && v'.inum == v.inum && v'.ip == v.ip.(size := n)
  {
    Update(v.(ip := v.ip.(size := n)))
  }

  lemma SizedPtrs(v: View, owner: map<nat, Slot>, n: uint32)
    requires v.Shape() && Linked(v, owner)
    ensures var v' := Sized(v, n);
            && Linked(v', owner) && SameUse(v, v') && v'.Disk(v.inum) == v'.ip
            && (forall i :: 0 <= i < v.sb.ninodes && i != v.inum ==> v'.Disk(i) == v.Disk(i))
            && (forall s: Slot :: v.Slotted(s) ==> v'.Ptr(s) == v.Ptr(s))
            && (forall y :: v.sb.NMeta() <= y < v.sb.size ==> v'.blocks[y] == v.blocks[y])
  {
    var w := v.(ip := v.ip.(size := n));
    assert forall s: Slot :: v.Slotted(s) ==> w.Ptr(s) == v.Ptr(s);
    assert Linked(w, owner);
    assert forall y :: 0 <= y < v.sb.size ==> (w.Used(y) <==> v.Used(y));
    Updated(w, owner);
  }

  /** Pointers and data blocks decide the bytes of the files. */
  lemma SameBytes(v: View, v': View, owner: map<nat, Slot>, i: nat, p: nat)
    requires v.Shape() && v'.Shape() && v'.sb == v.sb && Linked(v, owner) && i < v.sb.ninodes && p < MAXBYTES
    requires forall s: Slot :: v.Slotted(s) ==> v'.Ptr(s) == v.Ptr(s)
    requires forall y :: v.sb.NMeta() <= y < v.sb.size ==> v'.blocks[y] == v.blocks[y]
    ensures Byte(v', i, p) == Byte(v, i, p)
  {
    assert v.Slotted(SlotOf(i, p / BSIZE));
  }

  lemma SizedBytes(v: View, owner: map<nat, Slot>, n: uint32, v0: View, off: nat, src: seq<byte>)
    requires v.Shape() && Linked(v, owner) && v0.Shape() && BytesWritten(v0, v, off, src)
    ensures BytesWritten(v0, Sized(v, n), off, src)
  {
    var v' := Sized(v, n);
    SizedPtrs(v, owner, n);
    forall i, p {:trigger Byte(v', i, p)} | 0 <= i < v.sb.ninodes && 0 <= p < MAXBYTES ensures Byte(v', i, p) == Byte(v, i, p) {
      SameBytes(v, v', owner, i, p);
    }
  }

  /** What a write up to `end` leaves, with or without the inode written out. */
  function Written(v: View, end: uint32, record: bool): (v': View)
    requires v.Shape()
    ensures v'.Shape() && v'.sb == v.sb && v'.inum == v.inum
  {
    if record then Sized(v, Max(v.ip.size, end)) else v
  }

  lemma SpliceContents(v0: View, v': View, off: nat, src: seq<byte>)
    requires v0.Shape() && v'.Shape() && BytesWritten(v0, v', off, src) && off <= v0.ip.size <= MAXBYTES
    requires v'.ip.size == Max(v0.ip.size, off + |src|) && v'.ip.size <= MAXBYTES
    ensures Contents(v', v0.inum) == Splice(Contents(v0, v0.inum), off, src)
  {
  }

  lemma ContentsKept(v0: View, v': View, off: nat, src: seq<byte>)
    requires v0.Shape() && v'.Shape() && BytesWritten(v0, v', off, src)
    requires forall i :: 0 <= i < v0.sb.ninodes && i != v0.inum ==> v'.Disk(i) == v0.Disk(i)
    ensures OthersKept(v0, v')
  {
    forall i | 0 <= i < v0.sb.ninodes && i != v0.inum && v0.Ino(i).size <= MAXBYTES
      ensures v'.Ino(i) == v0.Ino(i) && Contents(v', i) == Contents(v0, i)
    {
      assert v'.Ino(i) == v0.Ino(i);
      assert forall p :: 0 <= p < v0.Ino(i).size ==> Contents(v', i)[p] == Byte(v', i, p);
    }
  }

  lemma MappedKept(v: View, v': View, i: nat, n: nat)
    requires v.Shape() && v'.Shape() && v'.sb == v.sb && i < v.sb.ninodes && Mapped(v, i, n)
    requires forall t: Slot :: v.Slotted(t) && t.inum == i ==> v'.Ptr(t) == v.Ptr(t)
    ensures Mapped(v', i, n)
  {
    forall bn | 0 <= bn < MAXFILE ensures v'.Ptr(SlotOf(i, bn)) == v.Ptr(SlotOf(i, bn)) {
      assert v.Slotted(SlotOf(i, bn));
    }
    assert v'.Ptr(Direct(i, NDIRECT)) == v.Ptr(Direct(i, NDIRECT));
  }

  /** One file now has the blocks of its size, and the others' pointers are as they were. */
  lemma HoleFreeKept(v0: View, v': View)
    requires v0.Shape() && v'.Shape() && v'.sb == v0.sb && v'.inum == v0.inum && HoleFree(v0)
    requires v'.ip.size <= MAXBYTES && Mapped(v', v0.inum, NBlocks(v'.ip.size))
    requires forall t: Slot :: v0.Slotted(t) && t.inum != v0.inum ==> v'.Ptr(t) == v0.Ptr(t)
    requires forall i :: 0 <= i < v0.sb.ninodes && i != v0.inum ==> v'.Disk(i) == v0.Disk(i)
    ensures HoleFree(v')
  {
    forall i | 0 <= i < v0.sb.ninodes ensures v'.Ino(i).size <= MAXBYTES && Mapped(v', i, NBlocks(v'.Ino(i).size)) {
      if i != v0.inum {
        MappedKept(v0, v', i, NBlocks(v0.Ino(i).size));
      }
    }
  }

  lemma WrittenPtrs(v0: View, v: View, owner: map<nat, Slot>, end: uint32, record: bool)
    requires v0.Shape() && v.Shape() && Linked(v, owner) && (record || end <= v0.ip.size)
    requires Kept(v0, v) && Mapped(v, v.inum, NBlocks(Max(v.ip.size, end)))
    requires (end <= v.ip.size ==> v.ip == v0.ip) && v0.Disk(v0.inum) == v0.ip
    ensures var v' := Written(v, end, record);
            && Linked(v', owner) && SameUse(v, v') && v'.Disk(v0.inum) == v'.ip && SameKind(v0.ip, v'.ip)
            && v'.ip.size == Max(v0.ip.size, end) && Mapped(v', v0.inum, NBlocks(v'.ip.size))
            && (forall t: Slot :: v0.Slotted(t) && t.inum != v0.inum ==> v'.Ptr(t) == v0.Ptr(t))
            && (forall i :: 0 <= i < v0.sb.ninodes && i != v0.inum ==> v'.Disk(i) == v0.Disk(i))
  {
    if record {
      var n := Max(v.ip.size, end);
      SizedPtrs(v, owner, n);
      MappedKept(v, Sized(v, n), v.inum, NBlocks(n));
    }
  }

  lemma WrittenBytes(v0: View, v: View, owner: map<nat, Slot>, off: nat, src: seq<byte>, record: bool)
    requires v0.Shape() && v.Shape() && Linked(v, owner) && off + |src| <= MAXBYTES
    requires BytesWritten(v0, v, off, src)
    ensures BytesWritten(v0, Written(v, off + |src|, record), off, src)
  {
    if record {
      SizedBytes(v, owner, Max(v.ip.size, off + |src|), v0, off, src);
    }
  }

  /** The inodes differ in size and block addresses only. */
  predicate SameKind(d: Dinode, d': Dinode) { d' == d.(addrs := d'.addrs, size := d'.size) }

  /** v' is v0 with src written at off: the file spliced, the others kept, the invariant as before. */
  ghost predicate Spliced(v0: View, v': View, off: nat, src: seq<byte>)
    requires v0.Shape() && v'.Shape() && off <= v0.ip.size <= MAXBYTES
  {
    && v'.sb == v0.sb && v'.inum == v0.inum && HoleFree(v') && v'.Disk(v'.inum) == v'.ip
    && v'.ip.size <= MAXBYTES && Contents(v', v'.inum) == Splice(Contents(v0, v0.inum), off, src)
    && SameKind(v0.ip, v'.ip) && OthersKept(v0, v')
  }

  lemma WriteMeaning(v0: View, v': View, off: nat, src: seq<byte>)
    requires v0.Shape() && v'.Shape() && HoleFree(v0) && off <= v0.ip.size <= MAXBYTES && off + |src| <= MAXBYTES
    requires BytesWritten(v0, v', off, src) && v'.Disk(v'.inum) == v'.ip && SameKind(v0.ip, v'.ip)
    requires v'.ip.size == Max(v0.ip.size, off + |src|) && Mapped(v', v0.inum, NBlocks(v'.ip.size))
    requires forall t: Slot :: v0.Slotted(t) && t.inum != v0.inum ==> v'.Ptr(t) == v0.Ptr(t)
    requires forall i :: 0 <= i < v0.sb.ninodes && i != v0.inum ==> v'.Disk(i) == v0.Disk(i)
    ensures Spliced(v0, v', off, src)
  {
    SpliceContents(v0, v', off, src);
    ContentsKept(v0, v', off, src);
    HoleFreeKept(v0, v');
  }

  /** A completed write splices the file. */
  lemma WriteDone(v0: View, v: View, v': View, owner: map<nat, Slot>, off: nat, src: seq<byte>, record: bool)
    requires v0.Shape() && v.Shape() && v'.Shape() && Linked(v, owner) && HoleFree(v0)
    requires off <= v0.ip.size <= MAXBYTES && off + |src| <= MAXBYTES && (record || off + |src| <= v0.ip.size)
    requires BytesWritten(v0, v, off, src) && Kept(v0, v) && Mapped(v, v.inum, NBlocks(Max(v.ip.size, off + |src|)))
    requires (off + |src| <= v.ip.size ==> v.ip == v0.ip) && v0.Disk(v0.inum) == v0.ip
    requires v' == Written(v, off + |src|, record)
    ensures Linked(v', owner) && SameUse(v, v') && Spliced(v0, v', off, src)
  {
    hide Linked, HoleFree, Mapped, Spliced, Written, SameUse;
    WrittenPtrs(v0, v, owner, off + |src|, record);
    WrittenBytes(v0, v, owner, off, src, record);
    WriteMeaning(v0, v', off, src);
  }

  lemma WriteFinished(v0: View, v: View, v': View, owner: map<nat, Slot>, off: nat, src: seq<byte>, record: bool)
    requires v0.Shape() && v.Shape() && v'.Shape() && Linked(v, owner) && HoleFree(v0)
    requires off <= v0.ip.size <= MAXBYTES && off + |src| <= MAXBYTES && v0.Disk(v0.inum) == v0.ip
    requires Progress(v0, v, off, src, |src|) && v' == Written(v, off + |src|, record)
    requires record || |src| == 0 || off + |src| <= v.ip.size
    ensures Linked(v', owner) && SameUse(v, v') && Spliced(v0, v', off, src)
    ensures v.sb == v0.sb && v.ip.size == v0.ip.size
    ensures HoleFree(v') && v'.ip.size <= MAXBYTES && v'.Disk(v'.inum) == v'.ip
  {
    hide Linked, HoleFree, Mapped, BytesWritten, Written, SameUse;
    assert src[..|src|] == src;
    WriteDone(v0, v, v', owner, off, src, record);
  }

  /** Going over to another inode, the one in hand being up to date, changes nothing. */
  lemma Relocked(v: View, v': View, owner: map<nat, Slot>)
    requires v.Shape() && v.Disk(v.inum) == v.ip && Linked(v, owner) && HoleFree(v)
    requires v'.inum < v.sb.ninodes && v' == v.(inum := v'.inum, ip := v.Disk(v'.inum))
    ensures v'.Shape() && Linked(v', owner) && HoleFree(v') && SameUse(v, v') && v'.Disk(v'.inum) == v'.ip
    ensures forall i :: 0 <= i < v.sb.ninodes ==> v'.Ino(i) == v.Ino(i) && Contents(v', i) == Contents(v, i)
  {
    RelockedPtrs(v, v');
    forall i | 0 <= i < v.sb.ninodes ensures Mapped(v', i, NBlocks(v.Ino(i).size)) {
      MappedKept(v, v', i, NBlocks(v.Ino(i).size));
    }
    forall i | 0 <= i < v.sb.ninodes ensures Contents(v', i) == Contents(v, i) {
      forall p | 0 <= p < v.Ino(i).size ensures Byte(v', i, p) == Byte(v, i, p) {
        SameBytes(v, v', owner, i, p);
      }
    }
  }

  lemma RelockedPtrs(v: View, v': View)
    requires v.Shape() && v.Disk(v.inum) == v.ip
    requires v'.inum < v.sb.ninodes && v' == v.(inum := v'.inum, ip := v.Disk(v'.inum))
    ensures v'.Shape() && SameUse(v, v')
    ensures forall i :: 0 <= i < v.sb.ninodes ==> v'.Disk(i) == v.Disk(i) && v'.Ino(i) == v.Ino(i)
    ensures forall s: Slot :: v.Slotted(s) ==> v'.Ptr(s) == v.Ptr(s)
  {
  }

  // ----- Log space -----

  /** What writei has logged when it returns. */
  ghost predicate Charged(v0: View, v: View, t0: Tally, t: Tally, off: nat, n: nat)
    requires v0.Shape() && v.Shape()
  {
    && t.inos <= t0.inos + {v0.sb.IBlock(v0.inum)}
    && Budget(v0, v, t0, t.(inos := t0.inos), off, off + n)
  }

  lemma ChargedBy(v0: View, v: View, t0: Tally, t: Tally, t': Tally, off: nat, n: nat)
    requires v0.Shape() && v.Shape() && Budget(v0, v, t0, t, off, off + n)
    requires t' == t || t' == t.(inos := t.inos + {v0.sb.IBlock(v0.inum)})
    ensures Charged(v0, v, t0, t', off, n)
  {
    assert t'.(inos := t0.inos) == t;
  }

  lemma Sizes(a: set<nat>, b: set<nat>, c: set<nat>, d: set<nat>)
    ensures |a + b + c + d| <= |a| + |b| + |c| + |d|
  {
    assert |a + b| <= |a| + |b| && |a + b + c| <= |a + b| + |c|;
  }

  lemma SubsetSize(a: set<nat>, b: set<nat>)
    requires a <= b
    ensures |a| <= |b|
  {
    assert b == a + (b - a);
  }

  /** Only inodes, bitmap and blocks of files are logged, so nothing of the log itself. */
  ghost predicate Within(sb: Super, t: Tally) {
    forall b | b in t.All() :: sb.inodestart <= b < sb.size
  }

  /**
   A write of filewrite's window, in a transaction of its own, logs no more than MAXOPBLOCKS
   distinct blocks, whatever the offset; and at most 7 when one block holds the whole bitmap.
   */
  lemma WindowFits(v0: View, v: View, t: Tally, off: nat, n: nat)
    requires v0.Shape() && v.Shape() && v.sb == v0.sb && v.ip.size == v0.ip.size
    requires off <= v0.ip.size && n <= WINDOW && Charged(v0, v, Tally({}, {}, {}, {}), t, off, n)
    ensures |t.All()| <= 10 && Within(v0.sb, t)
    ensures v0.sb.size <= BPB ==> |t.All()| <= 7
  {
    WindowWithin(v0, v, t, off, n);
    hide Within, Area, Bitmap, View.Disk, View.Ptr;
    Sizes(t.data, t.maps, t.inds, t.inos);
    SubsetSize(t.inos, {v0.sb.IBlock(v0.inum)});
    SubsetSize(t.inds, IndSet(v));
    WindowBlocks(v0.ip.size, off, n);
    if v0.sb.size <= BPB {
      OneBitmap(v0.sb);
      SubsetSize(t.maps, {v0.sb.bmapstart});
    }
  }

  lemma WindowWithin(v0: View, v: View, t: Tally, off: nat, n: nat)
    requires v0.Shape() && v.Shape() && v.sb == v0.sb && Charged(v0, v, Tally({}, {}, {}, {}), t, off, n)
    ensures Within(v0.sb, t)
  {
    forall b | b in t.maps ensures v0.sb.bmapstart <= b < v0.sb.size {
    }
  }

  lemma OneBitmap(sb: Super)
    requires sb.size <= BPB
    ensures Bitmap(sb) <= {sb.bmapstart}
  {
  }

  lemma WindowBlocks(size: nat, off: nat, n: nat)
    requires off <= size && n <= WINDOW
    ensures Visited(off, off + n) <= 4 && NBlocks(Max(size, off + n)) - NBlocks(size) <= 3
  {
  }
}

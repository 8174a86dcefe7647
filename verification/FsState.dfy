/**
 The state of the file system as the kernel sees it under one locked inode: the block
 map that cache and log present, and the in-memory copy of that inode, which may be
 ahead of the inode table until iupdate. Which slot owns which block, and what the
 primitive changes of fs.c do to that.
 */
module FsState {
  import opened Blocks
  import opened FsLayout

  datatype Super = Super(size: nat, ninodes: nat, nlog: nat, logstart: nat, inodestart: nat, bmapstart: nat) {
    /** Boot block, super block, log, inodes and bitmap: never handed out. */
    function NMeta(): nat { bmapstart + size / BPB + 1 }

    predicate Ok() {
      1 <= inodestart && logstart + nlog <= inodestart && inodestart + ninodes / IPB + 1 <= bmapstart && NMeta() <= size < U32
    }

    function IBlock(i: nat): nat { i / IPB + inodestart }
    function BBlock(b: nat): nat { b / BPB + bmapstart }
  }

  /** The super block: seven words, the number of data blocks the second. */
  function PutSuper(sb: Super): Block
    requires sb.Ok() && sb.ninodes < U32
  {
    PutWords(ZeroBlock(), 0, [sb.size, sb.size - sb.NMeta(), sb.ninodes, sb.nlog, sb.logstart, sb.inodestart, sb.bmapstart])
  }

  /** readsb. */
  function GetSuper(b: Block): Super {
    Super(WordAt(b, 0), WordAt(b, 2), WordAt(b, 3), WordAt(b, 4), WordAt(b, 5), WordAt(b, 6))
  }

  lemma SuperBack(sb: Super)
    requires sb.Ok() && sb.ninodes < U32
    ensures GetSuper(PutSuper(sb)) == sb && WordAt(PutSuper(sb), 1) == sb.size - sb.NMeta()
  {
    hide WordAt, PutWords;
  }

  /** A place that can hold a block number: an address of the inode, or an entry of its indirect block. */
  datatype Slot = Direct(inum: nat, k: nat) | Entry(inum: nat, k: nat)

  datatype View = View(sb: Super, blocks: seq<Block>, inum: nat, ip: Dinode) {
    predicate Shape() {
      sb.Ok() && |blocks| == sb.size && inum < sb.ninodes && ip.Ok()
    }

    /** The inode as the table has it. */
    function Disk(i: nat): Dinode
      requires Shape() && i < sb.ninodes
    {
      GetDinode(blocks[sb.IBlock(i)], i % IPB)
    }

    /** The inode as the kernel has it. */
    function Ino(i: nat): (d: Dinode)
      requires Shape() && i < sb.ninodes
      ensures d.Ok()
    {
      if i == inum then ip else Disk(i)
    }

    predicate Slotted(s: Slot) {
      s.inum < sb.ninodes && (if s.Direct? then s.k < NDIRECT + 1 else s.k < NINDIRECT)
    }

    function Ptr(s: Slot): uint32
      requires Shape() && Slotted(s)
    {
      match s
      case Direct(i, k) => Ino(i).addrs[k]
      case Entry(i, k) =>
        var x := Ino(i).addrs[NDIRECT];
        if x == 0 || x >= sb.size then 0 else WordAt(blocks[x], k)
    }

    /** Is block b marked in use? */
    predicate Used(b: nat)
      requires Shape() && b < sb.size
    {
      BlockBit(blocks[sb.BBlock(b)], b % BPB)
    }
  }

  function SlotOf(i: nat, bn: nat): Slot {
    if bn < NDIRECT then Direct(i, bn) else Entry(i, bn - NDIRECT)
  }

  /** The slot recorded for b. A name of its own, so that the verifier looks for it only where it is mentioned. */
  function Place(owner: map<nat, Slot>, b: nat): Slot
    requires b in owner
  {
    owner[b]
  }

  /** Every pointer is a data block recorded with its slot, and every record is a pointer: no block has two owners. */
  ghost predicate Linked(v: View, owner: map<nat, Slot>)
    requires v.Shape()
  {
    && (forall s: Slot :: v.Slotted(s) && v.Ptr(s) != 0 ==>
          v.sb.NMeta() <= v.Ptr(s) < v.sb.size && v.Ptr(s) in owner && owner[v.Ptr(s)] == s)
    && (forall b {:trigger Place(owner, b)} | b in owner :: v.Slotted(Place(owner, b)) && v.Ptr(Place(owner, b)) == b)
    && (forall b | b in owner :: v.sb.NMeta() <= b < v.sb.size)
  }

  /** The bitmap marks the metadata blocks, the blocks in `live`, and no others. */
  ghost predicate Marked(v: View, live: set<nat>)
    requires v.Shape()
  {
    forall b :: 0 <= b < v.sb.size ==> (v.Used(b) <==> b < v.sb.NMeta() || b in live)
  }

  /** The same blocks are in use. */
  ghost predicate SameUse(v: View, v': View)
    requires v.Shape() && v'.Shape()
  {
    v'.sb == v.sb && forall b :: 0 <= b < v.sb.size ==> (v'.Used(b) <==> v.Used(b))
  }

  lemma StillMarked(v: View, v': View, live: set<nat>)
    requires v.Shape() && v'.Shape() && Marked(v, live) && SameUse(v, v')
    ensures Marked(v', live)
  {
  }

  /** Exactly the first n blocks of inode i are mapped, and the indirect block exists when needed. */
  ghost predicate Mapped(v: View, i: nat, n: nat)
    requires v.Shape() && i < v.sb.ninodes
  {
    && (forall bn :: 0 <= bn < MAXFILE ==> (v.Ptr(SlotOf(i, bn)) != 0 <==> bn < n))
    && (v.Ino(i).addrs[NDIRECT] != 0 <==> n > NDIRECT)
  }

  function NBlocks(size: nat): nat { (size + BSIZE - 1) / BSIZE }

  predicate Indirect(s: Slot) { s.Direct? && s.k == NDIRECT }

  // ----- Frames -----

  /** Changing blocks that are nobody's indirect block, and no other inode, leaves every pointer alone. */
  lemma SamePtrs(v: View, v': View, owner: map<nat, Slot>, changed: set<nat>)
    requires v.Shape() && v'.Shape() && Linked(v, owner)
    requires v'.sb == v.sb && v'.inum == v.inum && v'.ip == v.ip
    requires forall x :: 0 <= x < v.sb.size && x !in changed ==> v'.blocks[x] == v.blocks[x]
    requires forall i :: 0 <= i < v.sb.ninodes && i != v.inum ==> v'.Disk(i) == v.Disk(i)
    requires forall b | b in changed && b in owner :: !Indirect(owner[b])
    ensures forall s: Slot :: v.Slotted(s) ==> v'.Ptr(s) == v.Ptr(s)
    ensures Linked(v', owner)
  {
    forall s: Slot | v.Slotted(s) ensures v'.Slotted(s) && v'.Ptr(s) == v.Ptr(s) {
      assert v'.Ino(s.inum) == v.Ino(s.inum);
      if s.Entry? {
        var x := v.Ino(s.inum).addrs[NDIRECT];
        assert x == v.Ptr(Direct(s.inum, NDIRECT));
      }
    }
  }

  /** Blocks outside the inode table leave the table alone. */
  lemma SameTable(v: View, v': View, changed: set<nat>)
    requires v.Shape() && v'.Shape() && v'.sb == v.sb
    requires forall x :: 0 <= x < v.sb.size && x !in changed ==> v'.blocks[x] == v.blocks[x]
    requires forall b | b in changed :: b >= v.sb.bmapstart
    ensures forall i :: 0 <= i < v.sb.ninodes ==> v'.Disk(i) == v.Disk(i)
  {
    forall i | 0 <= i < v.sb.ninodes ensures v'.Disk(i) == v.Disk(i) {
      assert v.sb.IBlock(i) !in changed;
    }
  }

  /** The same for the bitmap. */
  lemma SameBitmap(v: View, v': View, changed: set<nat>)
    requires v.Shape() && v'.Shape() && v'.sb == v.sb
    requires forall x :: 0 <= x < v.sb.size && x !in changed ==> v'.blocks[x] == v.blocks[x]
    requires forall b | b in changed :: b < v.sb.bmapstart || b >= v.sb.NMeta()
    ensures forall b :: 0 <= b < v.sb.size ==> (v'.Used(b) <==> v.Used(b))
  {
    forall b | 0 <= b < v.sb.size ensures v'.Used(b) <==> v.Used(b) {
      assert v.sb.bmapstart <= v.sb.BBlock(b) < v.sb.NMeta();
    }
  }

  // ----- The primitive changes -----

  /** A data block is overwritten. */
  function Store(v: View, b: nat, blk: Block): (v': View)
    requires v.Shape() && b < v.sb.size
    ensures v'.Shape() && v' == v.(blocks := v'.blocks)
  {
    v.(blocks := v.blocks[b := blk])
  }

  lemma DataWritten(v: View, owner: map<nat, Slot>, b: nat, blk: Block)
    requires v.Shape() && Linked(v, owner) && b in owner && !Indirect(owner[b])
    ensures var v' := Store(v, b, blk);
            && Linked(v', owner)
            && (forall s: Slot :: v.Slotted(s) ==> v'.Ptr(s) == v.Ptr(s))
            && (forall x :: 0 <= x < v.sb.size ==> (v'.Used(x) <==> v.Used(x)))
            && (forall i :: 0 <= i < v.sb.ninodes ==> v'.Disk(i) == v.Disk(i))
  {
    var v' := Store(v, b, blk);
    SameTable(v, v', {b});
    SameBitmap(v, v', {b});
    SamePtrs(v, v', owner, {b});
  }

  /** balloc: the first free block is marked and zeroed. */
  function Allocate(v: View, b: nat): (v': View)
    requires v.Shape() && b < v.sb.size
    ensures v'.Shape() && v' == v.(blocks := v'.blocks)
  {
    var x := v.sb.BBlock(b);
    v.(blocks := v.blocks[x := MarkUsed(v.blocks[x], b % BPB)][b := ZeroBlock()])
  }

  lemma BitFlips(v: View, v': View, b: nat)
    requires v.Shape() && v'.Shape() && v'.sb == v.sb && v.sb.NMeta() <= b < v.sb.size
    requires v'.blocks[v.sb.BBlock(b)] == MarkUsed(v.blocks[v.sb.BBlock(b)], b % BPB)
    requires forall x :: v.sb.bmapstart <= x < v.sb.NMeta() && x != v.sb.BBlock(b) ==> v'.blocks[x] == v.blocks[x]
    ensures forall x :: 0 <= x < v.sb.size ==> (v'.Used(x) <==> x == b || v.Used(x))
  {
    forall x | 0 <= x < v.sb.size ensures v'.Used(x) <==> x == b || v.Used(x) {
      assert v.sb.bmapstart <= v.sb.BBlock(x) < v.sb.NMeta();
      if v.sb.BBlock(x) == v.sb.BBlock(b) && x != b {
        assert x % BPB != b % BPB;
      }
    }
  }

  lemma Allocated(v: View, owner: map<nat, Slot>, live: set<nat>, b: nat)
    requires v.Shape() && Linked(v, owner) && Marked(v, live) && owner.Keys <= live
    requires b < v.sb.size && !v.Used(b)
    ensures b >= v.sb.NMeta() && b !in live
    ensures var v' := Allocate(v, b);
            && Linked(v', owner) && Marked(v', live + {b})
            && (forall s: Slot :: v.Slotted(s) ==> v'.Ptr(s) == v.Ptr(s))
            && (forall i :: 0 <= i < v.sb.ninodes ==> v'.Disk(i) == v.Disk(i))
            && (forall x | x in live && x >= v.sb.NMeta() && x < v.sb.size :: v'.blocks[x] == v.blocks[x])
            && v'.blocks[b] == ZeroBlock()
  {
    var v' := Allocate(v, b);
    var changed := {v.sb.BBlock(b), b};
    assert v.sb.bmapstart <= v.sb.BBlock(b) < v.sb.NMeta();
    SameTable(v, v', changed);
    BitFlips(v, v', b);
    SamePtrs(v, v', owner, changed);
  }

  /** One more slot, empty before, holds a block nobody owned. */
  lemma LinkedGrows(v: View, v': View, owner: map<nat, Slot>, s: Slot, b: nat)
    requires v.Shape() && v'.Shape() && Linked(v, owner) && v'.sb == v.sb && v.Slotted(s)
    requires v.sb.NMeta() <= b < v.sb.size && b !in owner && v.Ptr(s) == 0 && v'.Ptr(s) == b
    requires forall t: Slot :: v.Slotted(t) && t != s ==> v'.Ptr(t) == v.Ptr(t)
    ensures Linked(v', owner[b := s])
  {
    hide View.Ptr;
    var owner' := owner[b := s];
    forall x {:trigger Place(owner', x)} | x in owner' ensures v'.Slotted(Place(owner', x)) && v'.Ptr(Place(owner', x)) == x {
      if x != b {
        assert Place(owner', x) == Place(owner, x);
      }
    }
  }

  /** A block number is stored in an empty address of the locked inode. */
  lemma AddressSet(v: View, owner: map<nat, Slot>, k: nat, b: nat)
    requires v.Shape() && Linked(v, owner) && k < NDIRECT + 1 && v.ip.addrs[k] == 0
    requires v.sb.NMeta() <= b < v.sb.size && b !in owner
    requires k == NDIRECT ==> v.blocks[b] == ZeroBlock()
    ensures var v' := v.(ip := v.ip.(addrs := v.ip.addrs[k := b]));
            && v'.Shape() && Linked(v', owner[b := Direct(v.inum, k)])
            && v'.Ptr(Direct(v.inum, k)) == b
            && (forall s: Slot :: v.Slotted(s) && s != Direct(v.inum, k) ==> v'.Ptr(s) == v.Ptr(s))
            && (forall x :: 0 <= x < v.sb.size ==> (v'.Used(x) <==> v.Used(x)))
            && (forall i :: 0 <= i < v.sb.ninodes ==> v'.Disk(i) == v.Disk(i))
  {
    var v' := v.(ip := v.ip.(addrs := v.ip.addrs[k := b]));
    ZeroWords();
    forall s: Slot | v.Slotted(s) && s != Direct(v.inum, k) ensures v'.Ptr(s) == v.Ptr(s) {
      if s.inum == v.inum && s.Entry? && k != NDIRECT {
        assert v'.ip.addrs[NDIRECT] == v.ip.addrs[NDIRECT];
      }
    }
    LinkedGrows(v, v', owner, Direct(v.inum, k), b);
  }

  /** A block number is stored in an entry of the locked inode's indirect block. */
  function SetEntry(v: View, j: nat, b: uint32): (v': View)
    requires v.Shape() && j < NINDIRECT && v.ip.addrs[NDIRECT] < v.sb.size
    ensures v'.Shape() && v' == v.(blocks := v'.blocks)
  {
    var x := v.ip.addrs[NDIRECT];
    v.(blocks := v.blocks[x := WithWord(v.blocks[x], j, b)])
  }

  /** The indirect block of an inode is owned by that inode's slot for it. */
  lemma IndirectBlock(v: View, owner: map<nat, Slot>, i: nat)
    requires v.Shape() && Linked(v, owner) && i < v.sb.ninodes && v.Ino(i).addrs[NDIRECT] != 0
    ensures var x := v.Ino(i).addrs[NDIRECT];
            x in owner && owner[x] == Direct(i, NDIRECT) && v.sb.NMeta() <= x < v.sb.size
  {
    assert v.Ino(i).addrs[NDIRECT] == v.Ptr(Direct(i, NDIRECT));
  }

  lemma EntryTables(v: View, owner: map<nat, Slot>, j: nat, b: uint32)
    requires v.Shape() && Linked(v, owner) && j < NINDIRECT && v.ip.addrs[NDIRECT] != 0
    ensures v.ip.addrs[NDIRECT] < v.sb.size
    ensures var v' := SetEntry(v, j, b);
            && (forall y :: 0 <= y < v.sb.size ==> (v'.Used(y) <==> v.Used(y)))
            && (forall i :: 0 <= i < v.sb.ninodes ==> v'.Disk(i) == v.Disk(i))
  {
    IndirectBlock(v, owner, v.inum);
    var x := v.ip.addrs[NDIRECT];
    SameTable(v, SetEntry(v, j, b), {x});
    SameBitmap(v, SetEntry(v, j, b), {x});
  }

  lemma EntryPtr(v: View, owner: map<nat, Slot>, j: nat, b: uint32, s: Slot)
    requires v.Shape() && Linked(v, owner) && j < NINDIRECT && v.ip.addrs[NDIRECT] != 0 && v.Slotted(s)
    ensures v.ip.addrs[NDIRECT] < v.sb.size
    ensures SetEntry(v, j, b).Ptr(s) == if s == Entry(v.inum, j) then b else v.Ptr(s)
  {
    IndirectBlock(v, owner, v.inum);
    var v' := SetEntry(v, j, b);
    EntryTables(v, owner, j, b);
    assert v'.Ino(s.inum) == v.Ino(s.inum);
    if s.Entry? && s.inum != v.inum && v.Ino(s.inum).addrs[NDIRECT] != 0 {
      IndirectBlock(v, owner, s.inum);
    }
  }

  lemma EntryPtrs(v: View, owner: map<nat, Slot>, j: nat, b: uint32)
    requires v.Shape() && Linked(v, owner) && j < NINDIRECT && v.ip.addrs[NDIRECT] != 0
    ensures v.ip.addrs[NDIRECT] < v.sb.size
    ensures var v' := SetEntry(v, j, b);
            && v'.Ptr(Entry(v.inum, j)) == b
            && (forall s: Slot :: v.Slotted(s) && s != Entry(v.inum, j) ==> v'.Ptr(s) == v.Ptr(s))
  {
    EntryPtr(v, owner, j, b, Entry(v.inum, j));
    var v' := SetEntry(v, j, b);
    forall s: Slot | v.Slotted(s) && s != Entry(v.inum, j) ensures v'.Ptr(s) == v.Ptr(s) {
      EntryPtr(v, owner, j, b, s);
    }
  }

  lemma EntrySet(v: View, owner: map<nat, Slot>, j: nat, b: nat)
    requires v.Shape() && Linked(v, owner) && j < NINDIRECT
    requires v.ip.addrs[NDIRECT] != 0 && v.Ptr(Entry(v.inum, j)) == 0
    requires v.sb.NMeta() <= b < v.sb.size && b !in owner
    ensures v.ip.addrs[NDIRECT] < v.sb.size && Linked(SetEntry(v, j, b), owner[b := Entry(v.inum, j)])
  {
    EntryPtrs(v, owner, j, b);
    LinkedGrows(v, SetEntry(v, j, b), owner, Entry(v.inum, j), b);
  }

  /** iupdate: the inode table catches up with the locked inode. */
  function Update(v: View): (v': View)
    requires v.Shape()
    ensures v'.Shape() && v' == v.(blocks := v'.blocks)
  {
    var x := v.sb.IBlock(v.inum);
    v.(blocks := v.blocks[x := PutDinode(v.blocks[x], v.inum % IPB, v.ip)])
  }

  lemma Updated(v: View, owner: map<nat, Slot>)
    requires v.Shape() && Linked(v, owner)
    ensures var v' := Update(v);
            && Linked(v', owner) && v'.Disk(v.inum) == v.ip
            && (forall i :: 0 <= i < v.sb.ninodes && i != v.inum ==> v'.Disk(i) == v.Disk(i))
            && (forall s: Slot :: v.Slotted(s) ==> v'.Ptr(s) == v.Ptr(s))
            && (forall y :: 0 <= y < v.sb.size ==> (v'.Used(y) <==> v.Used(y)))
            && (forall y :: v.sb.NMeta() <= y < v.sb.size ==> v'.blocks[y] == v.blocks[y])
  {
    var v' := Update(v);
    var x := v.sb.IBlock(v.inum);
    DinodeRoundTrip(v.blocks[x], v.inum % IPB, v.ip);
    forall i | 0 <= i < v.sb.ninodes && i != v.inum ensures v'.Disk(i) == v.Disk(i) {
      if v.sb.IBlock(i) == x { assert i % IPB != v.inum % IPB; }
    }
    SameBitmap(v, v', {x});
    SamePtrs(v, v', owner, {x});
  }

  /** bfree: the block's bit is cleared. */
  function Release(v: View, b: nat): (v': View)
    requires v.Shape() && b < v.sb.size
    ensures v'.Shape() && v' == v.(blocks := v'.blocks)
  {
    var x := v.sb.BBlock(b);
    v.(blocks := v.blocks[x := MarkFree(v.blocks[x], b % BPB)])
  }

  lemma Released(v: View, owner: map<nat, Slot>, live: set<nat>, b: nat)
    requires v.Shape() && Linked(v, owner) && Marked(v, live) && v.sb.NMeta() <= b < v.sb.size
    ensures var v' := Release(v, b);
            && Linked(v', owner) && Marked(v', live - {b})
            && (forall s: Slot :: v.Slotted(s) ==> v'.Ptr(s) == v.Ptr(s))
            && (forall i :: 0 <= i < v.sb.ninodes ==> v'.Disk(i) == v.Disk(i))
            && (forall y :: v.sb.NMeta() <= y < v.sb.size ==> v'.blocks[y] == v.blocks[y])
  {
    var v' := Release(v, b);
    var x := v.sb.BBlock(b);
    assert v.sb.bmapstart <= x < v.sb.NMeta();
    SameTable(v, v', {x});
    SamePtrs(v, v', owner, {x});
    forall y | 0 <= y < v.sb.size ensures v'.Used(y) <==> y != b && v.Used(y) {
      assert v.sb.bmapstart <= v.sb.BBlock(y) < v.sb.NMeta();
      if v.sb.BBlock(y) == x && y != b { assert y % BPB != b % BPB; }
    }
  }
}

/**
 mkfs.c: builds the first disk image. Blocks and inodes are handed out by two counters, and
 the bitmap is written once, at the end; the kernel's invariant then holds of the image.
 */
module Mkfs {
  import opened Blocks
  import opened FsLayout
  import opened FsState
  import opened FsGrowth
  import opened FsContents
  import opened FsFiles

  const ROOTINO := 1
  const T_DIR := 1
  const T_FILE := 2

  function Zeros(n: nat): (r: seq<uint32>)
    ensures |r| == n && forall k :: 0 <= k < n ==> r[k] == 0
  {
    seq<uint32>(n, _ => 0)
  }

  /** What ialloc writes, and, with type and link count 0, what an untouched inode is. */
  function FreshInode(typ: uint16, nlink: uint16): (d: Dinode)
    ensures d.Ok()
  {
    Dinode(typ, 0, 0, nlink, 0, Zeros(NDIRECT + 1))
  }

  /** The blocks below `free` that are not metadata are owned, the rest are blank. */
  ghost predicate Tidy(v: View, owner: map<nat, Slot>, free: nat)
    requires v.Shape()
  {
    && Linked(v, owner) && v.sb.NMeta() <= free <= v.sb.size
    && (forall b | b in owner :: b < free)
    && (forall b :: v.sb.NMeta() <= b < free ==> b in owner)
    && (forall b :: free <= b < v.sb.size ==> v.blocks[b] == ZeroBlock())
  }

  /** The next block goes to an empty address of the inode. */
  lemma TakeAddress(v: View, owner: map<nat, Slot>, free: nat, k: nat)
    requires v.Shape() && Tidy(v, owner, free) && free < v.sb.size && k < NDIRECT + 1 && v.ip.addrs[k] == 0
    ensures var v', owner' := v.(ip := v.ip.(addrs := v.ip.addrs[k := free])), owner[free := Direct(v.inum, k)];
            v'.Shape() && Tidy(v', owner', free + 1) && Grew(v, owner, v', owner', Direct(v.inum, k), free)
  {
    AddressSet(v, owner, k, free);
  }

  /** The next block goes to an empty entry of the indirect block. */
  lemma TakeEntry(v: View, owner: map<nat, Slot>, free: nat, j: nat)
    requires v.Shape() && Tidy(v, owner, free) && free < v.sb.size && j < NINDIRECT
    requires v.ip.addrs[NDIRECT] != 0 && v.Ptr(Entry(v.inum, j)) == 0
    ensures v.ip.addrs[NDIRECT] < v.sb.size
    ensures var v', owner' := SetEntry(v, j, free), owner[free := Entry(v.inum, j)];
            Tidy(v', owner', free + 1) && Grew(v, owner, v', owner', Entry(v.inum, j), free)
  {
    IndirectBlock(v, owner, v.inum);
    EntrySet(v, owner, j, free);
    EntryTables(v, owner, j, free);
    EntryPtrs(v, owner, j, free);
    EntryData(v, owner, v, j, free);
  }

  lemma TidyStore(v: View, owner: map<nat, Slot>, free: nat, b: nat, blk: Block)
    requires v.Shape() && Tidy(v, owner, free) && b in owner && b < v.sb.size && Linked(Store(v, b, blk), owner)
    ensures Tidy(Store(v, b, blk), owner, free)
  {
  }

  lemma TidySized(v: View, owner: map<nat, Slot>, free: nat, n: uint32)
    requires v.Shape() && Tidy(v, owner, free)
    ensures Tidy(Sized(v, n), owner, free)
  {
    SizedPtrs(v, owner, n);
  }

  /** Unused inodes are blank. */
  ghost predicate Unborn(v: View, free: nat)
    requires v.Shape()
  {
    forall i :: free <= i < v.sb.ninodes ==> v.Disk(i) == FreshInode(0, 0)
  }

  /** The same blocks, read through inode i. */
  function Through(v: View, i: nat): (v': View)
    requires v.Shape() && i < v.sb.ninodes
    ensures v'.Shape()
  {
    v.(inum := i, ip := v.Disk(i))
  }

  /** An image in the making: well linked, without holes, its unused blocks and inodes blank. */
  ghost predicate Good(v: View, owner: map<nat, Slot>, free: nat, freei: nat) {
    && v.Shape() && v.sb.size < BPB && 1 <= freei <= v.sb.ninodes && v.Disk(v.inum) == v.ip
    && Tidy(v, owner, free) && HoleFree(v) && Unborn(v, freei)
  }

  lemma GoodMoves(v: View, v': View, owner: map<nat, Slot>, free: nat, freei: nat)
    requires Good(v, owner, free, freei) && v'.inum < v.sb.ninodes && v' == Through(v, v'.inum)
    ensures Good(v', owner, free, freei) && Through(v', v.inum) == v
    ensures forall i :: 0 <= i < v.sb.ninodes ==> v'.Ino(i) == v.Ino(i) && Contents(v', i) == Contents(v, i)
  {
    hide Linked, HoleFree, Mapped;
    Relocked(v, v', owner);
    RelockedPtrs(v, v');
  }

  /** No block of the metadata is different. */
  ghost predicate MetaKept(sb: Super, was: seq<Block>, now: seq<Block>) {
    |now| == |was| && forall y :: 0 <= y < sb.NMeta() && y < |was| ==> now[y] == was[y]
  }

  class Image {
    const sb: Super
    var blocks: seq<Block>
    var freeblock: nat
    var freeinode: nat
    ghost var owner: map<nat, Slot>

    ghost function At(inum: nat, din: Dinode): View
      reads this`blocks
    {
      View(sb, blocks, inum, din)
    }

    /** The image as read through inode i of the table. */
    ghost function Home(i: nat): View
      requires sb.Ok() && |blocks| == sb.size && i < sb.ninodes
      reads this`blocks
    {
      View(sb, blocks, i, GetDinode(blocks[sb.IBlock(i)], i % IPB))
    }

    ghost predicate Laid()
      reads this`blocks
    {
      sb.Ok() && sb.size < BPB && |blocks| == sb.size && 0 < sb.ninodes && 2 <= sb.inodestart && blocks[1] == PutSuper(sb)
    }

    ghost predicate Built()
      reads this
    {
      Laid() && freeinode <= sb.ninodes && Good(Home(0), owner, freeblock, freeinode)
    }

    /** The bytes of file i so far. */
    ghost function Bytes(i: nat): seq<byte>
      requires Built() && i < sb.ninodes
      reads this
    {
      Contents(Home(0), i)
    }

    ghost function Type(i: nat): nat
      requires Built() && i < sb.ninodes
      reads this
    {
      Home(0).Ino(i).typ
    }

    /** There is room, with `used` blocks taken, for n bytes more in a file of this size. */
    predicate Room(used: int, size: nat, n: nat) {
      size + n <= MAXBYTES && used + Takes(size + n) - Takes(size) <= sb.size
    }

    /** There is room, with `used` blocks taken, for the files and for a root with these bytes and their entries. */
    predicate Fits(used: int, root: nat, files: seq<seq<byte>>) {
      && 2 + |files| <= sb.ninodes && root + 16 * |files| <= MAXBYTES
      && (forall k :: 0 <= k < |files| ==> |files[k]| <= MAXBYTES)
      && used + Takes(root + 16 * |files|) + Taken(files) <= sb.size
    }

    lemma FileFits(used: int, root: nat, files: seq<seq<byte>>, i: nat)
      requires i < |files| && Fits(used, root, files[..i])
      ensures Fits(used, root, files) ==> Fits(used, root, files[..i + 1])
      ensures Taken(files[..i + 1]) == Taken(files[..i]) + Takes(|files[i]|)
      ensures var t := Takes(root + 16 * i) + Taken(files[..i]);
              Fits(used, root, files[..i + 1]) <==>
                && 2 + i < sb.ninodes && Room(used + t, root + 16 * i, 16)
                && Room(used + t + Takes(root + 16 * i + 16) - Takes(root + 16 * i), 0, |files[i]|)
    {
      hide Takes;
      TakesNothing();
      assert files[..i + 1][..i] == files[..i];
      TakenPart(files, i + 1);
      TakesMore(root + 16 * (i + 1), root + 16 * |files|);
    }

    // ----- iappend -----

    /** din.addrs[k] = freeblock++, where it is 0. False: the image would be larger than the disk. */
    method TakeDirect(inum: nat, din: Dinode, k: nat) returns (ok: bool, din': Dinode)
      requires At(inum, din).Shape() && Tidy(At(inum, din), owner, freeblock) && k < NDIRECT + 1 && din.addrs[k] == 0
      modifies this`freeblock, this`owner
      ensures ok == (old(freeblock) < sb.size)
      ensures ok ==> At(inum, din').Shape() && Tidy(At(inum, din'), owner, freeblock)
      ensures ok ==> Grew(old(At(inum, din)), old(owner), At(inum, din'), owner, Direct(inum, k), din'.addrs[k])
      ensures ok ==> freeblock == old(freeblock) + 1
    {
      din' := din;
      ok := freeblock < sb.size;
      if ok {
        TakeAddress(At(inum, din), owner, freeblock, k);
        din' := din.(addrs := din.addrs[k := freeblock]);
        owner := owner[freeblock := Direct(inum, k)];
        freeblock := freeblock + 1;
      }
    }

    method TakeIndirect(inum: nat, din: Dinode, j: nat) returns (ok: bool, x: nat)
      requires At(inum, din).Shape() && Tidy(At(inum, din), owner, freeblock) && j < NINDIRECT
      requires din.addrs[NDIRECT] != 0 && At(inum, din).Ptr(Entry(inum, j)) == 0
      modifies this`blocks, this`freeblock, this`owner
      ensures ok == (old(freeblock) < sb.size)
      ensures ok ==> At(inum, din).Shape() && Tidy(At(inum, din), owner, freeblock)
      ensures ok ==> Grew(old(At(inum, din)), old(owner), At(inum, din), owner, Entry(inum, j), x)
      ensures ok ==> freeblock == old(freeblock) + 1
      ensures MetaKept(sb, old(blocks), blocks)
    {
      IndirectBlock(At(inum, din), owner, inum);
      x := freeblock;
      ok := freeblock < sb.size;
      if ok {
        ghost var v := At(inum, din);
        TakeEntry(v, owner, freeblock, j);
        var a := din.addrs[NDIRECT];
        blocks := blocks[a := WithWord(blocks[a], j, freeblock)];
        assert At(inum, din) == SetEntry(v, j, freeblock);
        owner := owner[freeblock := Entry(inum, j)];
        freeblock := freeblock + 1;
      }
    }

    /** The indirect half of iappend's block map, once the indirect block is there. */
    method MapEntry(inum: nat, din: Dinode, j: nat) returns (ok: bool, x: nat)
      requires At(inum, din).Shape() && Tidy(At(inum, din), owner, freeblock) && j < NINDIRECT && din.addrs[NDIRECT] != 0
      modifies this`blocks, this`freeblock, this`owner
      ensures ok ==> At(inum, din).Shape() && Tidy(At(inum, din), owner, freeblock)
      ensures ok ==>
        if old(At(inum, din)).Ptr(Entry(inum, j)) != 0
        then At(inum, din) == old(At(inum, din)) && owner == old(owner) && x == old(At(inum, din)).Ptr(Entry(inum, j))
        else Grew(old(At(inum, din)), old(owner), At(inum, din), owner, Entry(inum, j), x)
      ensures ok <==> old(At(inum, din)).Ptr(Entry(inum, j)) != 0 || old(freeblock) < sb.size
      ensures ok ==> freeblock == old(freeblock) + if old(At(inum, din)).Ptr(Entry(inum, j)) != 0 then 0 else 1
      ensures MetaKept(sb, old(blocks), blocks)
    {
      hide Grew;
      IndirectBlock(At(inum, din), owner, inum);
      x := WordAt(blocks[din.addrs[NDIRECT]], j);
      ok := true;
      if x == 0 {
        ok, x := TakeIndirect(inum, din, j);
      }
    }

    /** The block for block number bn of the file, taken if it is not there yet. */
    method MapBlock(inum: nat, din: Dinode, bn: nat) returns (ok: bool, din': Dinode, x: nat)
      requires At(inum, din).Shape() && Tidy(At(inum, din), owner, freeblock) && bn < MAXFILE
      modifies this`blocks, this`freeblock, this`owner
      ensures ok ==> At(inum, din').Shape() && Tidy(At(inum, din'), owner, freeblock)
      ensures ok ==> MapStep(old(At(inum, din)), old(owner), At(inum, din'), owner, bn, x)
      ensures ok <==> old(freeblock) + Missing(old(At(inum, din)), bn) <= sb.size
      ensures ok ==> freeblock == old(freeblock) + Missing(old(At(inum, din)), bn)
      ensures MetaKept(sb, old(blocks), blocks)
    {
      hide Tidy, Grew, Extended, Missing;
      ghost var v, own := At(inum, din), owner;
      TidyLinked(v, owner, freeblock);
      MissingOf(v, bn);
      din', ok, x := din, true, 0;
      if bn < NDIRECT {
        if din.addrs[bn] == 0 {
          ok, din' := TakeDirect(inum, din, bn);
          if !ok {
            return;
          }
          GrewExtended(v, own, At(inum, din'), owner, bn, din'.addrs[bn]);
        }
        x := din'.addrs[bn];
      } else {
        if din.addrs[NDIRECT] == 0 {
          ok, din' := TakeDirect(inum, din, NDIRECT);
        }
        if ok {
          ghost var v1, own1 := At(inum, din'), owner;
          FreshIndirect(v, own, v1, own1);
          ok, x := MapEntry(inum, din', bn - NDIRECT);
          if ok { EntryStep(v, own, v1, own1, At(inum, din'), owner, bn, x); }
        }
      }
    }

    /** One turn of iappend's loop. */
    method AppendTurn(inum: nat, din: Dinode, off: nat, chunk: seq<byte>) returns (ok: bool, din': Dinode)
      requires At(inum, din).Shape() && Tidy(At(inum, din), owner, freeblock)
      requires off < MAXBYTES && off % BSIZE + |chunk| <= BSIZE
      modifies this`blocks, this`freeblock, this`owner
      ensures ok ==> At(inum, din').Shape() && Tidy(At(inum, din'), owner, freeblock)
      ensures ok ==> BytesWritten(old(At(inum, din)), At(inum, din'), off, chunk)
      ensures ok ==> PtrsKept(old(At(inum, din)), At(inum, din'), off / BSIZE)
      ensures ok <==> old(freeblock) + Missing(old(At(inum, din)), off / BSIZE) <= sb.size
      ensures ok ==> freeblock == old(freeblock) + Missing(old(At(inum, din)), off / BSIZE)
      ensures MetaKept(sb, old(blocks), blocks)
    {
      hide Missing, Linked, MapStep, BytesWritten, PtrsKept;
      ghost var v, own := At(inum, din), owner;
      var x;
      ok, din', x := MapBlock(inum, din, off / BSIZE);
      if ok {
        ghost var v1 := At(inum, din');
        ChunkWritten(v, own, v1, owner, off, chunk, x);
        var blk := Patch(blocks[x], off % BSIZE, chunk);
        TidyStore(v1, owner, freeblock, x, blk);
        blocks := blocks[x := blk];
        assert At(inum, din') == Store(v1, x, blk);
      }
    }

    /** iappend's loop. */
    method AppendBlocks(inum: nat, din: Dinode, data: seq<byte>) returns (ok: bool, din': Dinode)
      requires At(inum, din).Shape() && Tidy(At(inum, din), owner, freeblock)
      requires Mapped(At(inum, din), inum, NBlocks(din.size)) && din.size <= MAXBYTES
      modifies this`blocks, this`freeblock, this`owner
      ensures ok ==> At(inum, din').Shape() && Tidy(At(inum, din'), owner, freeblock) && din.size + |data| <= MAXBYTES
      ensures ok ==> Progress(old(At(inum, din)), At(inum, din'), din.size, data, |data|)
      ensures ok <==> Room(old(freeblock), din.size, |data|)
      ensures ok ==> freeblock == old(freeblock) + Takes(din.size + |data|) - Takes(din.size)
      ensures MetaKept(sb, old(blocks), blocks)
    {
      hide Missing, Takes, Tidy, Mapped, Progress, BytesWritten, PtrsKept;
      ghost var v0 := At(inum, din);
      TidyLinked(v0, owner, freeblock);
      IndArea(v0, owner);
      Started(v0, Tally({}, {}, {}, {}), din.size, data);
      var tot := 0;
      din' := din;
      while tot < |data|
        invariant tot <= |data| && din.size + tot <= MAXBYTES && At(inum, din').Shape()
        invariant Tidy(At(inum, din'), owner, freeblock) && Progress(v0, At(inum, din'), din.size, data, tot)
        invariant MetaKept(sb, old(blocks), blocks)
        invariant freeblock == old(freeblock) + Takes(din.size + tot) - Takes(din.size) <= sb.size
        modifies this`blocks, this`freeblock, this`owner
      {
        if din.size + tot >= MAXBYTES {
          ok := false;               // assert(fbn < MAXFILE)
          return;
        }
        var m := ChunkLen(|data| - tot, din.size + tot);
        ghost var v := At(inum, din');
        ProgressMissing(v0, v, din.size, data, tot, m);
        TakesMore(din.size + tot + m, din.size + |data|);
        ok, din' := AppendTurn(inum, din', din.size + tot, data[tot..tot + m]);
        if !ok {
          return;
        }
        ProgressOn(v0, v, At(inum, din'), din.size, data, tot, m);
        tot := tot + m;
      }
      ok := true;
    }

    /** iappend: the data is added at the end of the file, and the image stays well built. */
    method IAppend(inum: nat, data: seq<byte>) returns (ok: bool)
      requires Built() && 1 <= inum < freeinode
      modifies this`blocks, this`freeblock, this`owner
      ensures ok ==> Built() && Bytes(inum) == old(Bytes(inum)) + data && Type(inum) == old(Type(inum))
      ensures ok ==> forall i :: 0 <= i < sb.ninodes && i != inum ==> Bytes(i) == old(Bytes(i)) && Type(i) == old(Type(i))
      ensures ok <==> Room(old(freeblock), |old(Bytes(inum))|, |data|)
      ensures ok ==> freeblock == old(freeblock) + Takes(|old(Bytes(inum))| + |data|) - Takes(|old(Bytes(inum))|)
    {
      hide Takes, HoleFree, Mapped, Progress, Unborn, Tidy, Byte, PutDinode, GetDinode, Contents, Linked, FreshInode;
      ghost var h, own, free := Home(0), owner, freeblock;
      ghost var v0 := Home(inum);
      InodeSize(h, owner, freeblock, freeinode, inum);
      GoodMoves(h, v0, owner, freeblock, freeinode);
      LockedMapped(v0);
      var din := GetDinode(blocks[sb.IBlock(inum)], inum % IPB);
      var din1;
      ok, din1 := AppendBlocks(inum, din, data);
      if ok {
        ghost var v := At(inum, din1);
        var x := sb.IBlock(inum);
        var din2 := din1.(size := din.size + |data|);
        blocks := blocks[x := PutDinode(blocks[x], inum % IPB, din2)];   // winode
        assert At(inum, din2) == Sized(v, din.size + |data|);
        AppendedHome(h, own, free, v0, v, At(inum, din2), Home(0), owner, freeblock, freeinode, data);
      }
    }

    // ----- ialloc -----

    /** ialloc: the next inode, empty and of the given type. */
    method IAlloc(typ: uint16) returns (ok: bool, inum: nat)
      requires Built()
      modifies this`blocks, this`freeinode
      ensures ok == (old(freeinode) < sb.ninodes) && inum == old(freeinode)
      ensures ok ==> Built() && freeinode == old(freeinode) + 1 && Bytes(inum) == []
      ensures ok ==> var d := Home(0).Ino(inum); d.typ == typ && d.major == d.minor == 0 && d.nlink == 1 && d.size == 0 && forall k :: 0 <= k < 13 ==> d.addrs[k] == 0
      ensures ok ==> forall i :: 0 <= i < sb.ninodes && i != inum ==> Bytes(i) == old(Bytes(i)) && Type(i) == old(Type(i))
    {
      hide Tidy, HoleFree, Unborn, Byte, PutDinode;
      inum := freeinode;
      ok := freeinode < sb.ninodes;
      if ok {
        ghost var h := Home(0);
        freeinode := freeinode + 1;
        var din := FreshInode(typ, 1);
        var x := sb.IBlock(inum);
        blocks := blocks[x := PutDinode(blocks[x], inum % IPB, din)];   // winode
        assert At(inum, din) == Update(Through(h, inum).(ip := din));
        BornHome(h, At(inum, din), Home(0), owner, freeblock, inum, typ);
      }
    }

    // ----- balloc -----

    /** balloc: one bitmap block, with the first freeblock bits set. */
    method WriteBitmap()
      requires Laid() && Tidy(Home(0), owner, freeblock)
      modifies this`blocks
      ensures Laid() && Linked(Home(0), owner) && Marked(Home(0), owner.Keys)
      ensures Home(0) == Store(old(Home(0)), sb.bmapstart, blocks[sb.bmapstart])
      ensures SameFiles(old(Home(0)), Home(0))
    {
      hide SameFiles, Linked;
      ghost var v := Home(0);
      var buf := ZeroBlock();
      var i := 0;
      NoBits();
      while i < freeblock
        invariant i <= freeblock && forall j :: 0 <= j < BPB ==> (BlockBit(buf, j) <==> j < i)
      {
        buf := MarkUsed(buf, i);
        i := i + 1;
      }
      blocks := blocks[sb.bmapstart := buf];
      BitmapWritten(v, Store(v, sb.bmapstart, buf), owner, freeblock, buf);
      assert Home(0) == Store(v, sb.bmapstart, buf);
    }

    // ----- main -----

    /** The zeroed disk, with the super block in sector 1. */
    constructor (sb: Super)
      requires sb.Ok() && sb.size < BPB && 2 <= sb.inodestart && 1 <= sb.ninodes
      ensures this.sb == sb && Built() && freeinode == 1 && freeblock == sb.NMeta()
    {
      this.sb := sb;
      this.blocks := BlankDisk(sb.size)[1 := PutSuper(sb)];
      freeblock, freeinode, owner := sb.NMeta(), 1, map[];
      new;
      BlankGood(Home(0));
    }

    /** The contents of one file, read and appended a buffer at a time. */
    method CopyFile(inum: nat, data: seq<byte>) returns (ok: bool)
      requires Built() && 1 <= inum < freeinode && Bytes(inum) == []
      modifies this`blocks, this`freeblock, this`owner
      ensures ok ==> Built() && Bytes(inum) == data && Type(inum) == old(Type(inum))
      ensures ok ==> forall i :: 0 <= i < sb.ninodes && i != inum ==> Bytes(i) == old(Bytes(i)) && Type(i) == old(Type(i))
      ensures ok <==> Room(old(freeblock), 0, |data|)
      ensures ok ==> freeblock == old(freeblock) + Takes(|data|)
    {
      hide Good, Byte, Contents, Takes;
      TakesNothing();
      GoodRoom(Home(0), owner, freeblock, freeinode);
      var at := 0;
      while at < |data|
        invariant at <= |data| && Built() && Bytes(inum) == data[..at] && Type(inum) == old(Type(inum))
        invariant freeblock == old(freeblock) + Takes(at) && Room(old(freeblock), 0, at)
        invariant forall i :: 0 <= i < sb.ninodes && i != inum ==> Bytes(i) == old(Bytes(i)) && Type(i) == old(Type(i))
        modifies this`blocks, this`freeblock, this`owner
      {
        var cc := if |data| - at < BSIZE then |data| - at else BSIZE;
        TakesMore(at + cc, |data|);
        ok := IAppend(inum, data[at..at + cc]);
        if !ok {
          return;
        }
        assert data[..at] + data[at..at + cc] == data[..at + cc];
        at := at + cc;
      }
      ok := true;
      assert data[..|data|] == data;
    }

    /** One file named on the command line: an inode, an entry in the root directory, the contents. */
    method AddFile(entry: seq<byte>, data: seq<byte>) returns (ok: bool)
      requires Built() && ROOTINO < freeinode
      modifies this`blocks, this`freeblock, this`freeinode, this`owner
      ensures ok ==> Built() && freeinode == old(freeinode) + 1
      ensures ok ==> Bytes(old(freeinode)) == data && Type(old(freeinode)) == T_FILE && Bytes(ROOTINO) == old(Bytes(ROOTINO)) + entry
      ensures ok ==> forall i :: 0 < i < old(freeinode) ==> Type(i) == old(Type(i))
      ensures ok ==> forall i :: 1 < i < old(freeinode) ==> Bytes(i) == old(Bytes(i)) && Type(i) == old(Type(i))
      ensures var root := |old(Bytes(ROOTINO))|;
        var used := old(freeblock) + Takes(root + |entry|) - Takes(root);
        && (ok <==> old(freeinode) < sb.ninodes && Room(old(freeblock), root, |entry|) && Room(used, 0, |data|))
        && (ok ==> freeblock == used + Takes(|data|))
    {
      hide Good, Byte, Contents, Takes, View.Disk, View.Ino, PutSuper;
      TakesMore(|Bytes(ROOTINO)|, |Bytes(ROOTINO)| + |entry|);
      var inum;
      ok, inum := IAlloc(T_FILE);
      if ok {
        ok := IAppend(ROOTINO, entry);
      }
      if ok {
        ok := CopyFile(inum, data);
      }
    }

    /** The root directory's size is rounded up to whole blocks, to one block more if it is whole already. */
    method FixRoot()
      requires Built() && ROOTINO < freeinode
      modifies this`blocks
      ensures Laid() && Tidy(Home(0), owner, freeblock)
      ensures HoleFree(Home(0)) <==> |old(Bytes(ROOTINO))| % BSIZE != 0
      ensures RootIs(Home(0), old(Bytes(ROOTINO))) && Home(0).Ino(ROOTINO).typ == old(Type(ROOTINO))
      ensures forall i :: 1 < i < sb.ninodes ==>
        Home(0).Ino(i) == old(Home(0)).Ino(i) && Home(0).Ino(i).size <= MAXBYTES && Contents(Home(0), i) == old(Bytes(i))
    {
      hide Tidy, HoleFree, Unborn, Byte, PutDinode;
      ghost var h := Home(0);
      var x := sb.IBlock(ROOTINO);
      var din := GetDinode(blocks[x], ROOTINO % IPB);
      InodeSize(h, owner, freeblock, freeinode, ROOTINO);
      var off := (din.size / BSIZE + 1) * BSIZE;
      var din' := din.(size := off);
      blocks := blocks[x := PutDinode(blocks[x], ROOTINO % IPB, din')];   // winode
      assert At(ROOTINO, din') == Sized(Through(h, ROOTINO), off);
      RootRounded(h, At(ROOTINO, din'), Home(0), owner, freeblock, freeinode);
    }

    /** The root inode and its first two entries. */
    method AddRoot(dot: seq<byte>, dotdot: seq<byte>) returns (ok: bool)
      requires Built() && freeinode == 1
      modifies this`blocks, this`freeblock, this`freeinode, this`owner
      ensures ok ==> Built() && freeinode == 2 && Bytes(ROOTINO) == dot + dotdot && Type(ROOTINO) == 1
      ensures ok <==> 2 <= sb.ninodes && Room(old(freeblock), 0, |dot| + |dotdot|)
      ensures ok ==> freeblock == old(freeblock) + Takes(|dot| + |dotdot|)
    {
      hide Good, Byte, Contents, Takes, View.Disk, View.Ino, FreshInode;
      TakesNothing();
      TakesMore(|dot|, |dot| + |dotdot|);
      var rootino;
      ok, rootino := IAlloc(T_DIR);
      if ok {
        ok := IAppend(rootino, dot);
      }
      if ok {
        ok := IAppend(rootino, dotdot);
      }
    }

    method AddFiles(entries: seq<seq<byte>>, files: seq<seq<byte>>) returns (ok: bool)
      requires Built() && freeinode == 2 && |entries| == |files|
      requires forall k :: 0 <= k < |entries| ==> |entries[k]| == 16
      modifies this`blocks, this`freeblock, this`freeinode, this`owner
      ensures ok ==> Built() && freeinode == 2 + |files| && Bytes(ROOTINO) == old(Bytes(ROOTINO)) + Joined(entries)
      ensures ok ==> forall j :: 2 <= j < 2 + |files| ==> Bytes(j) == files[j - 2] && Type(j) == T_FILE
      ensures ok ==> Type(ROOTINO) == old(Type(ROOTINO))
      ensures ok <==> Fits(old(freeblock) - Takes(|old(Bytes(ROOTINO))|), |old(Bytes(ROOTINO))|, files)
    {
      hide Good, Byte, Contents, Joined, View.Disk, View.Ino, Takes, Taken, Room, PutSuper;
      ghost var root := |Bytes(ROOTINO)|;
      TakenNothing(files[..0]);
      InodeSize(Home(0), owner, freeblock, freeinode, ROOTINO);
      GoodRoom(Home(0), owner, freeblock, freeinode);
      assert Joined(entries[..0]) == [] by { JoinedSize(entries[..0]); }
      var i := 0;
      while i < |files|
        invariant i <= |files| && Built() && freeinode == 2 + i && Bytes(ROOTINO) == old(Bytes(ROOTINO)) + Joined(entries[..i])
        invariant forall j :: 2 <= j < 2 + i ==> Bytes(j) == files[j - 2] && Type(j) == T_FILE
        invariant Type(ROOTINO) == old(Type(ROOTINO))
        invariant freeblock == old(freeblock) + Takes(root + 16 * i) - Takes(root) + Taken(files[..i])
        invariant Fits(old(freeblock) - Takes(root), root, files[..i])
        modifies this`blocks, this`freeblock, this`freeinode, this`owner
      {
        JoinedOn(entries, i);
        JoinedSize(entries[..i]);
        FileFits(old(freeblock) - Takes(root), root, files, i);
        ok := AddFile(entries[i], files[i]);
        if !ok {
          return;
        }
        i := i + 1;
      }
      ok := true;
      assert entries[..i] == entries && files[..i] == files;
    }

    /** The root's size, then the bitmap. */
    method Finish()
      requires Built() && ROOTINO < freeinode
      modifies this`blocks
      ensures Laid() && Linked(Home(0), owner) && Marked(Home(0), owner.Keys)
      ensures HoleFree(Home(0)) <==> |old(Bytes(ROOTINO))| % BSIZE != 0
      ensures RootIs(Home(0), old(Bytes(ROOTINO))) && Home(0).Ino(ROOTINO).typ == old(Type(ROOTINO))
      ensures forall i :: 1 < i < sb.ninodes ==>
        Home(0).Ino(i).size <= MAXBYTES && Contents(Home(0), i) == old(Bytes(i)) && Home(0).Ino(i).typ == old(Type(i))
    {
      hide Good, Linked, Marked, HoleFree, Byte, Tidy, RootIs;
      ghost var s := Bytes(ROOTINO);
      FixRoot();
      ghost var v := Home(0);
      WriteBitmap();
      RootSame(v, Home(0), s);
    }

    /**
     main. The image the kernel starts from: every used block is marked and owned by one slot,
     each file has its bytes, and no file has a hole exactly when the root directory did not
     end on a block boundary. From the sizes of the files alone: whether it succeeds.
     */
    method Make(dot: seq<byte>, dotdot: seq<byte>, entries: seq<seq<byte>>, files: seq<seq<byte>>) returns (ok: bool)
      requires Built() && freeinode == 1 && |entries| == |files|
      requires |dot| == 16 && |dotdot| == 16 && forall k :: 0 <= k < |entries| ==> |entries[k]| == 16
      modifies this`blocks, this`freeblock, this`freeinode, this`owner
      ensures ok ==> Laid() && Linked(Home(0), owner) && Marked(Home(0), owner.Keys)
      ensures ok ==> (HoleFree(Home(0)) <==> 16 * (2 + |files|) % BSIZE != 0)
      ensures ok ==> HasFiles(Home(0), files) && RootIs(Home(0), dot + dotdot + Joined(entries))
      ensures ok ==> Home(0).Ino(1).typ == 1 && GetSuper(blocks[1]) == sb
      ensures ok <==> Fits(old(freeblock), 32, files)
    {
      hide Good, Linked, Marked, HoleFree, Contents, RootIs, Takes, Taken;
      TakesNothing();
      TakesMore(32, 32 + 16 * |files|);
      ok := AddRoot(dot, dotdot);
      if ok {
        ok := AddFiles(entries, files);
      }
      if ok {
        JoinedSize(entries);
        SuperBack(sb);
        Finish();
      }
    }
  }

  /** Inodes 2, 3, ... hold the files. */
  ghost predicate HasFiles(v: View, files: seq<seq<byte>>)
    requires v.Shape()
  {
    2 + |files| <= v.sb.ninodes && forall j :: 2 <= j < 2 + |files| ==> v.Ino(j).size <= MAXBYTES && v.Ino(j).typ == T_FILE && Contents(v, j) == files[j - 2]
  }

  lemma InodeSize(h: View, owner: map<nat, Slot>, free: nat, freei: nat, i: nat)
    requires Good(h, owner, free, freei) && i < h.sb.ninodes
    ensures h.Disk(i).size <= MAXBYTES && h.Ino(i) == h.Disk(i)
  {
    assert h.Ino(i).size <= MAXBYTES;
  }

  lemma RootRounded(h: View, v': View, h': View, owner: map<nat, Slot>, free: nat, freei: nat)
    requires Good(h, owner, free, freei) && h.inum == 0 && ROOTINO < freei
    requires h.Disk(ROOTINO).size <= MAXBYTES
    requires v' == Sized(Through(h, ROOTINO), (h.Disk(ROOTINO).size / BSIZE + 1) * BSIZE) && h' == Through(v', 0)
    ensures Tidy(h', owner, free)
    ensures HoleFree(h') <==> h.Disk(ROOTINO).size % BSIZE != 0
    ensures RootIs(h', Contents(h, ROOTINO)) && h'.Ino(ROOTINO).typ == h.Ino(ROOTINO).typ
    ensures forall i :: 1 < i < h.sb.ninodes ==>
      h'.Ino(i) == h.Ino(i) && h'.Ino(i).size <= MAXBYTES && Contents(h', i) == Contents(h, i)
  {
    hide Linked, HoleFree, Unborn, Byte, Sized, Mapped, SameUse;
    var v0 := Through(h, ROOTINO);
    GoodMoves(h, v0, owner, free, freei);
    var n := (h.Disk(ROOTINO).size / BSIZE + 1) * BSIZE;
    TidySized(v0, owner, free, n);
    SizedPtrs(v0, owner, n);
    RoundedHoles(v0, v', n);
    RoundedFiles(v0, v', owner, n);
    RoundedRoot(v0, v', owner, n);
    RelockedPtrs(v', h');
    SameFilesBy(v', h', owner);
    RootSame(v', h', Contents(h, ROOTINO));
    LinkedThrough(v', h', owner);
  }

  /** The layout mkfs writes: FSSIZE blocks, two hundred inodes, a log of LOGSIZE. */
  const SHIPPED := Super(1000, 200, 30, 2, 32, 58)

  /** Thirty empty files on the disk mkfs makes: with . and .. they fill a block of the root, whose size becomes two. */
  method RootHoleCase(dot: seq<byte>, dotdot: seq<byte>, entries: seq<seq<byte>>) returns (image: Image, ok: bool)
    requires |dot| == 16 && |dotdot| == 16 && |entries| == 30 && forall k :: 0 <= k < |entries| ==> |entries[k]| == 16
    ensures ok && image.sb == SHIPPED && image.Laid() && !HoleFree(image.Home(0))
  {
    hide Good, Linked, Marked, HoleFree, Contents, RootIs, HasFiles, Taken, PutSuper, View.Disk;
    image := new Image(SHIPPED);
    var files := seq<seq<byte>>(30, _ => []);
    TakenNothing(files);
    assert image.Fits(59, 32, files);
    ok := image.Make(dot, dotdot, entries, files);
  }

  lemma LinkedThrough(v: View, v': View, owner: map<nat, Slot>)
    requires v.Shape() && v'.Shape() && v'.sb == v.sb && Linked(v, owner)
    requires forall s: Slot :: v.Slotted(s) ==> v'.Ptr(s) == v.Ptr(s)
    ensures Linked(v', owner)
  {
    hide View.Ptr;
  }

  /** One block more than the size needs is a hole; as many as it needs is not. */
  lemma RoundedHoles(v0: View, v': View, n: uint32)
    requires v0.Shape() && v'.Shape() && v'.sb == v0.sb && v'.inum == v0.inum && HoleFree(v0)
    requires v'.ip.size == n == (v0.ip.size / BSIZE + 1) * BSIZE
    requires forall s: Slot :: v0.Slotted(s) ==> v'.Ptr(s) == v0.Ptr(s)
    requires forall i :: 0 <= i < v0.sb.ninodes && i != v0.inum ==> v'.Disk(i) == v0.Disk(i)
    ensures HoleFree(v') <==> v0.ip.size % BSIZE != 0
  {
    var k := NBlocks(v0.ip.size);
    LockedMapped(v0);
    MappedKept(v0, v', v0.inum, k);
    if v0.ip.size % BSIZE != 0 {
      assert NBlocks(n) == k && n <= MAXBYTES;
      HoleFreeKept(v0, v');
    } else {
      assert NBlocks(n) == k + 1 && v'.Ino(v0.inum).size == n;
      if n <= MAXBYTES {
        assert v'.Ptr(SlotOf(v0.inum, k)) == 0;
      }
    }
  }

  lemma RoundedRoot(v0: View, v': View, owner: map<nat, Slot>, n: uint32)
    requires v0.Shape() && v'.Shape() && Linked(v0, owner) && v0.inum == ROOTINO && v0.ip.size <= MAXBYTES
    requires v' == Sized(v0, n) && n == (v0.ip.size / BSIZE + 1) * BSIZE
    ensures RootIs(v', Contents(v0, ROOTINO))
  {
    SizedPtrs(v0, owner, n);
    forall p | 0 <= p < v0.ip.size ensures Byte(v', ROOTINO, p) == Byte(v0, ROOTINO, p) {
      SameBytes(v0, v', owner, ROOTINO, p);
    }
  }

  lemma RoundedFiles(v0: View, v': View, owner: map<nat, Slot>, n: uint32)
    requires v0.Shape() && v'.Shape() && Linked(v0, owner) && HoleFree(v0) && v' == Sized(v0, n)
    ensures forall i :: 0 <= i < v0.sb.ninodes && i != v0.inum ==>
      v'.Ino(i) == v0.Ino(i) && v'.Ino(i).size <= MAXBYTES && Contents(v', i) == Contents(v0, i)
  {
    SizedPtrs(v0, owner, n);
    forall i | 0 <= i < v0.sb.ninodes && i != v0.inum
      ensures v'.Ino(i) == v0.Ino(i) && v'.Ino(i).size <= MAXBYTES && Contents(v', i) == Contents(v0, i)
    {
      assert v'.Ino(i) == v0.Ino(i) && v0.Ino(i).size <= MAXBYTES;
      forall p | 0 <= p < v0.Ino(i).size ensures Byte(v', i, p) == Byte(v0, i, p) {
        SameBytes(v0, v', owner, i, p);
      }
    }
  }

  lemma Appended(v0: View, v: View, v': View, owner: map<nat, Slot>, free: nat, freei: nat, data: seq<byte>)
    requires v0.Shape() && v.Shape() && v0.sb.size < BPB && v0.Disk(v0.inum) == v0.ip && v0.ip.size <= MAXBYTES
    requires HoleFree(v0) && Unborn(v0, freei) && 1 <= v0.inum < freei <= v0.sb.ninodes
    requires v0.ip.size + |data| <= MAXBYTES && v' == Sized(v, v0.ip.size + |data|)
    requires Tidy(v, owner, free) && Progress(v0, v, v0.ip.size, data, |data|)
    ensures Good(v', owner, free, freei) && Contents(v', v0.inum) == Contents(v0, v0.inum) + data
    ensures forall i :: 0 <= i < v0.sb.ninodes ==> v'.Ino(i).typ == v0.Ino(i).typ && (i != v0.inum ==> Contents(v', i) == Contents(v0, i))
  {
    hide Linked, Mapped, BytesWritten, HoleFree, Unborn, Byte, Spliced, Sized, SameUse, Tidy, Progress, View.Disk;
    AppendedWritten(v0, v, v', data);
    TidyLinked(v, owner, free);
    WriteFinished(v0, v, v', owner, v0.ip.size, data, true);
    TidySized(v, owner, free, v0.ip.size + |data|);
    AppendedFiles(v0, v', freei, data);
  }

  lemma TidyLinked(v: View, owner: map<nat, Slot>, free: nat)
    requires v.Shape() && Tidy(v, owner, free)
    ensures Linked(v, owner) && free <= v.sb.size
  {
  }

  lemma GoodRoom(h: View, owner: map<nat, Slot>, free: nat, freei: nat)
    requires Good(h, owner, free, freei)
    ensures free <= h.sb.size
  {
  }

  lemma AppendedWritten(v0: View, v: View, v': View, data: seq<byte>)
    requires v0.Shape() && v.Shape() && v0.ip.size + |data| <= MAXBYTES && v' == Sized(v, v0.ip.size + |data|)
    requires Progress(v0, v, v0.ip.size, data, |data|)
    ensures v' == Written(v, v0.ip.size + |data|, true) && v'.Shape() && v'.sb == v0.sb && v'.inum == v0.inum
    ensures v'.Disk(v'.inum) == v'.ip ==> v'.ip.size == v0.ip.size + |data|
  {
    hide BytesWritten, Mapped, View.Disk;
    assert v.ip.size == v0.ip.size;
  }

  lemma AppendedHome(h: View, own: map<nat, Slot>, free: nat, v0: View, v: View, v': View, h': View,
                     own': map<nat, Slot>, free': nat, freei: nat, data: seq<byte>)
    requires Good(h, own, free, freei) && h.inum == 0 && 1 <= v0.inum < freei && v0 == Through(h, v0.inum)
    requires v.Shape() && v.sb == h.sb && Tidy(v, own', free')
    requires v0.ip.size + |data| <= MAXBYTES && Progress(v0, v, v0.ip.size, data, |data|)
    requires v' == Sized(v, v0.ip.size + |data|) && h' == Through(v', 0)
    ensures Good(h', own', free', freei) && Contents(h', v0.inum) == Contents(h, v0.inum) + data
    ensures forall i :: 0 <= i < h.sb.ninodes ==> h'.Ino(i).typ == h.Ino(i).typ && (i != v0.inum ==> Contents(h', i) == Contents(h, i))
  {
    hide Tidy, HoleFree, Unborn, Byte, Progress, Sized, View.Disk;
    GoodMoves(h, v0, own, free, freei);
    LockedMapped(v0);
    Appended(v0, v, v', own', free', freei, data);
    GoodMoves(v', h', own', free', freei);
  }

  lemma AppendedFiles(v0: View, v': View, freei: nat, data: seq<byte>)
    requires v0.Shape() && v'.Shape() && HoleFree(v0) && Unborn(v0, freei) && v0.inum < freei
    requires v0.ip.size <= MAXBYTES && Spliced(v0, v', v0.ip.size, data)
    ensures Unborn(v', freei) && Contents(v', v0.inum) == Contents(v0, v0.inum) + data
    ensures forall i :: 0 <= i < v0.sb.ninodes ==> v'.Ino(i).typ == v0.Ino(i).typ && (i != v0.inum ==> Contents(v', i) == Contents(v0, i))
  {
    hide Mapped, Byte;
    assert Splice(Contents(v0, v0.inum), v0.ip.size, data) == Contents(v0, v0.inum) + data;
    forall i | 0 <= i < v0.sb.ninodes && i != v0.inum ensures v'.Ino(i) == v0.Ino(i) && Contents(v', i) == Contents(v0, i) {
      assert v0.Ino(i).size <= MAXBYTES;
    }
    forall i | freei <= i < v0.sb.ninodes ensures v'.Disk(i) == FreshInode(0, 0) {
      assert v'.Ino(i) == v0.Ino(i);
    }
  }

  lemma Born(v: View, v': View, owner: map<nat, Slot>, free: nat, inum: nat, typ: uint16)
    requires inum < v.sb.ninodes && v.inum == inum && Good(v, owner, free, inum)
    requires v' == Update(v.(ip := FreshInode(typ, 1)))
    ensures Good(v', owner, free, inum + 1) && v'.ip == FreshInode(typ, 1) && Contents(v', inum) == []
    ensures forall i :: 0 <= i < v.sb.ninodes && i != inum ==> v'.Ino(i).typ == v.Ino(i).typ && Contents(v', i) == Contents(v, i)
  {
    hide Byte, Mapped;
    var w := v.(ip := FreshInode(typ, 1));
    BornPtrs(v, w, owner);
    Updated(w, owner);
    BornFiles(v, v', owner);
  }

  lemma BornHome(h: View, v': View, h': View, owner: map<nat, Slot>, free: nat, inum: nat, typ: uint16)
    requires Good(h, owner, free, inum) && h.inum == 0 < inum < h.sb.ninodes
    requires v' == Update(Through(h, inum).(ip := FreshInode(typ, 1))) && h' == Through(v', 0)
    ensures Good(h', owner, free, inum + 1) && h'.Ino(inum) == FreshInode(typ, 1) && Contents(h', inum) == []
    ensures forall i :: 0 <= i < h.sb.ninodes && i != inum ==> h'.Ino(i).typ == h.Ino(i).typ && Contents(h', i) == Contents(h, i)
  {
    hide Tidy, HoleFree, Unborn, Byte, Update, FreshInode;
    var v := Through(h, inum);
    GoodMoves(h, v, owner, free, inum);
    Born(v, v', owner, free, inum, typ);
    GoodMoves(v', h', owner, free, inum + 1);
  }

  lemma BornPtrs(v: View, w: View, owner: map<nat, Slot>)
    requires v.Shape() && Linked(v, owner)
    requires w == v.(ip := w.ip) && w.ip.Ok() && w.ip.addrs == v.ip.addrs
    ensures Linked(w, owner) && SameUse(v, w)
    ensures forall s: Slot :: v.Slotted(s) ==> w.Ptr(s) == v.Ptr(s)
    ensures forall i :: 0 <= i < v.sb.ninodes ==> w.Disk(i) == v.Disk(i)
  {
    forall s: Slot | v.Slotted(s) ensures w.Slotted(s) && w.Ptr(s) == v.Ptr(s) {
      assert w.Ino(s.inum).addrs == v.Ino(s.inum).addrs;
    }
    SameTable(v, w, {});
  }

  lemma BornFiles(v: View, v': View, owner: map<nat, Slot>)
    requires v.Shape() && v'.Shape() && v'.sb == v.sb && v'.inum == v.inum && Linked(v, owner) && HoleFree(v)
    requires v'.ip.size == v.ip.size
    requires forall s: Slot :: v.Slotted(s) ==> v'.Ptr(s) == v.Ptr(s)
    requires forall i :: 0 <= i < v.sb.ninodes && i != v.inum ==> v'.Disk(i) == v.Disk(i)
    requires forall y :: v.sb.NMeta() <= y < v.sb.size ==> v'.blocks[y] == v.blocks[y]
    ensures HoleFree(v') && forall i :: 0 <= i < v.sb.ninodes ==> Contents(v', i) == Contents(v, i)
  {
    LockedMapped(v);
    MappedKept(v, v', v.inum, NBlocks(v.ip.size));
    HoleFreeKept(v, v');
    forall i | 0 <= i < v.sb.ninodes ensures Contents(v', i) == Contents(v, i) {
      assert v'.Ino(i).size == v.Ino(i).size;
      forall p | 0 <= p < v.Ino(i).size ensures Byte(v', i, p) == Byte(v, i, p) {
        SameBytes(v, v', owner, i, p);
      }
    }
  }

  lemma NoBits()
    ensures forall j :: 0 <= j < BPB ==> !BlockBit(ZeroBlock(), j)
  {
    forall j | 0 <= j < BPB ensures !BlockBit(ZeroBlock(), j) {
      assert ZeroBlock()[j / 8] == 0;
      ZeroBit(j % 8);
    }
  }

  lemma ZeroBit(k: nat)
    ensures !Bit(0, k)
  {
    if k > 0 {
      ZeroBit(k - 1);
    }
  }

  /** The files are the same, holes and all. */
  ghost predicate SameFiles(v: View, v': View)
    requires v.Shape() && v'.Shape()
  {
    && v'.sb == v.sb && (HoleFree(v') <==> HoleFree(v))
    && (forall p :: 0 <= p < MAXBYTES && ROOTINO < v.sb.ninodes ==> Byte(v', ROOTINO, p) == Byte(v, ROOTINO, p))
    && forall i :: 0 <= i < v.sb.ninodes ==>
         v'.Ino(i) == v.Ino(i) && (v.Ino(i).size <= MAXBYTES ==> Contents(v', i) == Contents(v, i))
  }

  /** Blocks the files take. */
  function Taken(files: seq<seq<byte>>): nat {
    if files == [] then 0 else Taken(files[..|files| - 1]) + Takes(|files[|files| - 1]|)
  }

  lemma TakesNothing()
    ensures Takes(0) == 0
  {
  }

  lemma {:induction false} TakenPart(files: seq<seq<byte>>, i: nat)
    requires i <= |files|
    ensures Taken(files[..i]) <= Taken(files)
    decreases |files|
  {
    hide Takes;
    if i == |files| {
      assert files[..i] == files;
    } else {
      TakenPart(files[..|files| - 1], i);
      assert files[..|files| - 1][..i] == files[..i];
    }
  }

  lemma {:induction false} TakenNothing(files: seq<seq<byte>>)
    requires forall k :: 0 <= k < |files| ==> files[k] == []
    ensures Taken(files) == 0
  {
    if files != [] { TakenNothing(files[..|files| - 1]); }
  }

  lemma JoinedOn(ss: seq<seq<byte>>, i: nat)
    requires i < |ss|
    ensures Joined(ss[..i + 1]) == Joined(ss[..i]) + ss[i]
  {
    assert ss[..i + 1][..i] == ss[..i];
  }

  lemma {:induction false} JoinedSize(ss: seq<seq<byte>>)
    requires forall k :: 0 <= k < |ss| ==> |ss[k]| == 16
    ensures |Joined(ss)| == 16 * |ss|
  {
    if ss != [] { JoinedSize(ss[..|ss| - 1]); }
  }

  /** The root directory begins with these bytes, and its size is the next whole number of blocks. */
  ghost predicate RootIs(v: View, s: seq<byte>)
    requires v.Shape() && ROOTINO < v.sb.ninodes
  {
    && |s| <= MAXBYTES && v.Ino(ROOTINO).size == (|s| / BSIZE + 1) * BSIZE
    && forall p :: 0 <= p < |s| ==> Byte(v, ROOTINO, p) == s[p]
  }

  lemma RootSame(v: View, v': View, s: seq<byte>)
    requires v.Shape() && v'.Shape() && ROOTINO < v.sb.ninodes && RootIs(v, s) && SameFiles(v, v')
    ensures RootIs(v', s)
  {
  }

  function Joined(ss: seq<seq<byte>>): seq<byte> { if ss == [] then [] else Joined(ss[..|ss| - 1]) + ss[|ss| - 1] }

  lemma SameFilesBy(v: View, v': View, owner: map<nat, Slot>)
    requires v.Shape() && v'.Shape() && v'.sb == v.sb && Linked(v, owner)
    requires forall i :: 0 <= i < v.sb.ninodes ==> v'.Ino(i) == v.Ino(i)
    requires forall s: Slot :: v.Slotted(s) ==> v'.Ptr(s) == v.Ptr(s)
    requires forall y :: v.sb.NMeta() <= y < v.sb.size ==> v'.blocks[y] == v.blocks[y]
    ensures SameFiles(v, v')
  {
    forall i | 0 <= i < v.sb.ninodes ensures Mapped(v, i, NBlocks(v.Ino(i).size)) <==> Mapped(v', i, NBlocks(v.Ino(i).size)) {
      if Mapped(v, i, NBlocks(v.Ino(i).size)) {
        MappedKept(v, v', i, NBlocks(v.Ino(i).size));
      }
      if Mapped(v', i, NBlocks(v.Ino(i).size)) {
        MappedKept(v', v, i, NBlocks(v.Ino(i).size));
      }
    }
    forall p | 0 <= p < MAXBYTES && ROOTINO < v.sb.ninodes ensures Byte(v', ROOTINO, p) == Byte(v, ROOTINO, p) {
      SameBytes(v, v', owner, ROOTINO, p);
    }
    forall i | 0 <= i < v.sb.ninodes && v.Ino(i).size <= MAXBYTES ensures Contents(v', i) == Contents(v, i) {
      forall p | 0 <= p < v.Ino(i).size ensures Byte(v', i, p) == Byte(v, i, p) {
        SameBytes(v, v', owner, i, p);
      }
    }
  }

  lemma BitmapWritten(v: View, v': View, owner: map<nat, Slot>, free: nat, buf: Block)
    requires v.Shape() && v.sb.size < BPB && Tidy(v, owner, free) && v' == Store(v, v.sb.bmapstart, buf)
    requires v.Disk(v.inum) == v.ip
    requires forall j :: 0 <= j < BPB ==> (BlockBit(buf, j) <==> j < free)
    ensures Linked(v', owner) && Marked(v', owner.Keys) && SameFiles(v, v') && v'.Disk(v'.inum) == v'.ip
  {
    hide HoleFree;
    SameTable(v, v', {v.sb.bmapstart});
    SamePtrs(v, v', owner, {v.sb.bmapstart});
    SameFilesBy(v, v', owner);
    BitsMark(v', owner, free);
  }

  lemma BitsMark(v: View, owner: map<nat, Slot>, free: nat)
    requires v.Shape() && v.sb.size < BPB && Tidy(v, owner, free)
    requires forall j :: 0 <= j < BPB ==> (BlockBit(v.blocks[v.sb.bmapstart], j) <==> j < free)
    ensures Marked(v, owner.Keys)
  {
    forall b | 0 <= b < v.sb.size ensures v.Used(b) <==> b < v.sb.NMeta() || b in owner.Keys {
      assert v.sb.BBlock(b) == v.sb.bmapstart && b % BPB == b;
    }
  }

  lemma BlankGood(v: View)
    requires v.Shape() && v.sb.size < BPB && v.inum == 0 && v.ip == v.Disk(0)
    requires forall b :: 2 <= b < v.sb.size ==> v.blocks[b] == ZeroBlock()
    requires 2 <= v.sb.inodestart
    ensures Good(v, map[], v.sb.NMeta(), 1)
  {
    forall i | 0 <= i < v.sb.ninodes ensures v.Disk(i) == FreshInode(0, 0) && v.Ino(i) == FreshInode(0, 0) {
      BlankInode(i % IPB);
    }
    forall s: Slot | v.Slotted(s) ensures v.Ptr(s) == 0 {
      assert v.Ino(s.inum) == FreshInode(0, 0);
    }
    forall i | 0 <= i < v.sb.ninodes ensures Mapped(v, i, 0) {
      assert v.Ino(i) == FreshInode(0, 0);
    }
  }

  lemma BlankInode(i: nat)
    requires i < IPB
    ensures GetDinode(ZeroBlock(), i) == FreshInode(0, 0)
  {
    hide WordAt;
    ZeroWords();
    assert Words(ZeroBlock(), 16 * i + 3, NDIRECT + 1) == Zeros(NDIRECT + 1);
  }

  // ----- The steps of iappend's block map -----

  lemma FreshIndirect(v: View, own: map<nat, Slot>, v1: View, own1: map<nat, Slot>)
    requires v.Shape() && v1.Shape()
    requires if v.ip.addrs[NDIRECT] != 0 then v1 == v
             else Grew(v, own, v1, own1, Direct(v.inum, NDIRECT), v1.ip.addrs[NDIRECT])
    ensures v1.ip.addrs[NDIRECT] != 0 && forall j :: 0 <= j < NINDIRECT ==> v1.Ptr(Entry(v.inum, j)) == v.Ptr(Entry(v.inum, j))
  {
  }

  lemma EntryStep(v: View, own: map<nat, Slot>, v1: View, own1: map<nat, Slot>, v': View, own': map<nat, Slot>, bn: nat, x: nat)
    requires v.Shape() && v1.Shape() && v'.Shape() && NDIRECT <= bn < MAXFILE
    requires if v.ip.addrs[NDIRECT] != 0 then v1 == v && own1 == own
             else Grew(v, own, v1, own1, Direct(v.inum, NDIRECT), v1.ip.addrs[NDIRECT])
    requires if v1.Ptr(SlotOf(v.inum, bn)) != 0 then v' == v1 && own' == own1 && x == v1.Ptr(SlotOf(v.inum, bn))
             else Grew(v1, own1, v', own', SlotOf(v.inum, bn), x)
    ensures MapStep(v, own, v', own', bn, x)
  {
    FreshIndirect(v, own, v1, own1);
    if v.ip.addrs[NDIRECT] == 0 {
      assert v1.Ptr(SlotOf(v.inum, bn)) == v.Ptr(SlotOf(v.inum, bn)) == 0;
      GrewTwice(v, own, v1, own1, v', own', bn, v1.ip.addrs[NDIRECT], x);
    } else if v.Ptr(SlotOf(v.inum, bn)) == 0 {
      GrewExtended(v, own, v', own', bn, x);
    }
  }
}

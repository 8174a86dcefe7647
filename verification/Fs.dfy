/**
 fs.c: block allocation, the block map of an inode, and reading, writing and truncating
 its contents, as methods over the block map that the cache and the log present.
 */
module Fs {
  import opened Blocks
  import opened Options
  import opened FsLayout
  import opened FsState
  import opened FsGrowth
  import opened FsContents
  import opened FsFiles
  import opened FsTrunc

  /** What readi and writei return: a byte count, -1, the device's own answer, or no return at all. */
  datatype IoResult = Done(n: nat) | Fail | Device | Panic

  class FileSystem {
    const sb: Super
    var blocks: seq<Block>          // what bread returns
    var inum: nat                   // the locked inode
    var ip: Dinode                  // its in-memory copy
    ghost var owner: map<nat, Slot>
    ghost var log: Tally            // what the running operation gave to log_write

    ghost function Now(): View
      reads this
    {
      View(sb, blocks, inum, ip)
    }

    /** Bitmap, pointers and ownership agree. */
    ghost predicate Sound()
      reads this
    {
      Now().Shape() && Linked(Now(), owner) && Marked(Now(), owner.Keys)
    }

    /** The disk as the kernel finds it, with inode i in hand. */
    constructor (sb: Super, blocks: seq<Block>, i: nat, ghost owner: map<nat, Slot>)
      requires sb.Ok() && |blocks| == sb.size && i < sb.ninodes
      requires var v := View(sb, blocks, i, GetDinode(blocks[sb.IBlock(i)], i % IPB));
               Linked(v, owner) && Marked(v, owner.Keys) && HoleFree(v)
      ensures Valid() && this.sb == sb && inum == i && this.blocks == blocks && this.owner == owner
    {
      this.sb, this.blocks, inum, this.owner := sb, blocks, i, owner;
      ip := GetDinode(blocks[sb.IBlock(i)], i % IPB);
      log := Tally({}, {}, {}, {});
      new;
      LockedMapped(Now());
    }

    /** Every block of the disk is marked as used. */
    ghost predicate Full()
      reads this
      requires Now().Shape()
    {
      forall x :: 0 <= x < sb.size ==> Now().Used(x)
    }

    // ----- Blocks -----

    /** Scan one bitmap block for a clear bit. */
    method ScanBitmap(blk: Block, b: nat) returns (bi: nat)
      requires b < sb.size
      ensures bi <= BPB && b + bi <= sb.size && (forall k :: 0 <= k < bi ==> BlockBit(blk, k))
      ensures if bi < BPB && b + bi < sb.size then !BlockBit(blk, bi) else bi == BPB || b + bi == sb.size
    {
      bi := 0;
      while bi < BPB && b + bi < sb.size
        invariant bi <= BPB && b + bi <= sb.size
        invariant forall k :: 0 <= k < bi ==> BlockBit(blk, k)
      {
        if !BlockBit(blk, bi) {
          return;
        }
        bi := bi + 1;
      }
    }

    /** balloc takes the lowest free block, and zeroes it; None is the panic of a full disk. */
    method BAlloc(ghost indirect: bool) returns (r: Option<nat>)
      requires Now().Shape()
      modifies this`blocks, this`log
      ensures r.None? ==> Now() == old(Now()) && Full()
      ensures r.Some? ==> r.value < sb.size && !old(Now()).Used(r.value) && Now() == Allocate(old(Now()), r.value)
      ensures r.Some? ==> forall x :: 0 <= x < r.value ==> old(Now()).Used(x)
      ensures r.Some? ==> log == Handed(old(log), sb, r.value, indirect)
      ensures Logged(old(blocks), blocks, old(log), log)
    {
      hide MarkUsed, BlockBit, ZeroBlock;
      ghost var v := Now();
      var b := 0;
      while b < sb.size
        invariant b % BPB == 0 && Now() == v && log == old(log)
        invariant forall x :: 0 <= x < b && x < sb.size ==> v.Used(x)
        decreases sb.size - b
      {
        var bp := blocks[sb.BBlock(b)];
        var bi := ScanBitmap(bp, b);
        Scanned(v, b, bi);
        if bi < BPB && b + bi < sb.size {
          BitmapBlock(sb, b, bi);
          blocks := blocks[sb.BBlock(b) := MarkUsed(bp, bi)];  // log_write(bp)
          blocks := blocks[b + bi := ZeroBlock()];             // bzero
          log := Handed(log, sb, b + bi, indirect);
          return Some(b + bi);
        }
        b := b + BPB;
      }
      return None;
    }

    /** bfree clears one bit; false is panic("freeing free block"). */
    method BFree(b: nat) returns (ok: bool)
      requires Now().Shape() && b < sb.size
      modifies this`blocks, this`log
      ensures ok == old(Now()).Used(b)
      ensures ok ==> Now() == Release(old(Now()), b) && log == old(log).(maps := old(log).maps + {sb.BBlock(b)})
      ensures !ok ==> Now() == old(Now()) && log == old(log)
      ensures Logged(old(blocks), blocks, old(log), log)
    {
      var x := sb.BBlock(b);
      var bp := blocks[x];
      var bi := b % BPB;
      if !BlockBit(bp, bi) {
        return false;
      }
      blocks := blocks[x := MarkFree(bp, bi)];
      log := log.(maps := log.maps + {x});
      ok := true;
    }

    // ----- The block map of an inode -----

    /** bmap's step for one address of the inode: what it holds, or a new block put there. */
    method Address(k: nat) returns (r: Option<nat>)
      requires Sound() && k < NDIRECT + 1
      modifies this`blocks, this`ip, this`owner, this`log
      ensures old(ip.addrs[k]) != 0 ==>
        r == Some(old(ip.addrs[k])) && Now() == old(Now()) && owner == old(owner) && log == old(log)
      ensures r.Some? ==> Sound()
      ensures old(ip.addrs[k]) == 0 && r.Some? ==>
        && Grew(old(Now()), old(owner), Now(), owner, Direct(inum, k), r.value)
        && log == Handed(old(log), sb, r.value, k == NDIRECT)
        && Spare(old(Now())) == Spare(Now()) + 1
      ensures r.None? ==> Now().Shape() && Full() && Spare(old(Now())) == 0
      ensures Logged(old(blocks), blocks, old(log), log)
    {
      hide Spare, Logged;
      LoggedNone(blocks, log);
      var addr := ip.addrs[k];
      if addr == 0 {
        ghost var v := Now();
        var a := BAlloc(k == NDIRECT);
        if a.None? {
          SpareNone(v);
          return None;
        }
        addr := a.value;
        ip := ip.(addrs := ip.addrs[k := addr]);
        GrewAddress(v, owner, k, addr);
        owner := owner[addr := Direct(inum, k)];
        assert Now() == Allocate(v, addr).(ip := v.ip.(addrs := v.ip.addrs[k := addr]));
        SpareTaken(v, old(owner), Now(), owner, Direct(inum, k), addr);
      }
      r := Some(addr);
    }

    /** A new block's number is stored in entry j of the indirect block. */
    method StoreEntry(j: nat) returns (r: Option<nat>)
      requires Now().Shape() && j < NINDIRECT && ip.addrs[NDIRECT] < sb.size
      modifies this`blocks, this`log
      ensures r.Some? ==> r.value < sb.size && !old(Now()).Used(r.value)
      ensures r.Some? ==> Now() == SetEntry(Allocate(old(Now()), r.value), j, r.value)
      ensures r.Some? ==> log == WithInd(Handed(old(log), sb, r.value, false), ip.addrs[NDIRECT])
      ensures r.None? ==> Now() == old(Now()) && Full()
      ensures Logged(old(blocks), blocks, old(log), log)
    {
      hide Logged;
      r := BAlloc(false);
      if r.Some? {
        var x := ip.addrs[NDIRECT];
        ghost var was, t := blocks, log;
        blocks := blocks[x := WithWord(blocks[x], j, r.value)];  // log_write(bp)
        log := WithInd(log, x);
        LoggedPut(was, x, blocks[x], t, log);
        LoggedOn(old(blocks), was, blocks, old(log), t, log);
      }
    }

    /** bmap's step for one entry of the indirect block, which is there. */
    method IndirectEntry(j: nat) returns (r: Option<nat>)
      requires Sound() && j < NINDIRECT && ip.addrs[NDIRECT] != 0
      modifies this`blocks, this`owner, this`log
      ensures old(Now().Ptr(Entry(inum, j))) != 0 ==>
        r == Some(old(Now().Ptr(Entry(inum, j)))) && Now() == old(Now()) && owner == old(owner) && log == old(log)
      ensures r.Some? ==> Sound()
      ensures old(Now().Ptr(Entry(inum, j))) == 0 && r.Some? ==>
        && Grew(old(Now()), old(owner), Now(), owner, Entry(inum, j), r.value)
        && log == WithInd(Handed(old(log), sb, r.value, false), ip.addrs[NDIRECT])
        && Spare(old(Now())) == Spare(Now()) + 1
      ensures r.None? ==> Now().Shape() && Full() && Spare(old(Now())) == 0
      ensures Logged(old(blocks), blocks, old(log), log)
    {
      hide Linked, Marked, Grew, Spare, Logged;
      LoggedNone(blocks, log);
      ghost var v := Now();
      IndirectBlock(v, owner, inum);
      var addr := WordAt(blocks[ip.addrs[NDIRECT]], j);
      if addr == 0 {
        r := StoreEntry(j);
        if r.Some? {
          GrewEntry(v, owner, j, r.value);
          owner := owner[r.value := Entry(inum, j)];
          SpareTaken(v, old(owner), Now(), owner, Entry(inum, j), r.value);
        } else {
          SpareNone(v);
        }
      } else {
        r := Some(addr);
      }
    }

    method BMapIndirect(j: nat) returns (r: Option<nat>)
      requires Sound() && j < NINDIRECT
      modifies this`blocks, this`ip, this`owner, this`log
      ensures old(Now().Ptr(Entry(inum, j))) != 0 ==> r.Some?
      ensures r.Some? ==> Sound()
      ensures r.Some? ==> MapStep(old(Now()), old(owner), Now(), owner, NDIRECT + j, r.value)
      ensures r.Some? ==> MapTally(old(Now()), Now(), old(log), log, NDIRECT + j, r.value)
      ensures r.Some? <==> Missing(old(Now()), NDIRECT + j) <= Spare(old(Now()))
      ensures r.Some? ==> Spare(old(Now())) == Spare(Now()) + Missing(old(Now()), NDIRECT + j)
      ensures r.None? ==> Now().Shape() && Full()
      ensures Logged(old(blocks), blocks, old(log), log)
    {
      hide Missing, Spare, Linked, Marked, Grew, MapStep, MapTally, Logged;
      ghost var v, own, log0 := Now(), owner, log;
      MissingOf(v, NDIRECT + j);
      var x := Address(NDIRECT);
      if x.None? {
        return None;
      }
      ghost var v1, own1, log1 := Now(), owner, log;
      if v.ip.addrs[NDIRECT] == 0 {
        NewIndirectEmpty(v, own, v1, own1, j, x.value);
      }
      r := IndirectEntry(j);
      LoggedOn(v.blocks, v1.blocks, blocks, log0, log1, log);
      if r.Some? {
        if v.ip.addrs[NDIRECT] == 0 {
          NewIndirectMapped(v, own, v1, own1, Now(), owner, j, x.value, r.value, log0, log1, log);
        } else {
          EntryMapped(v, own, Now(), owner, j, r.value, log0, log);
        }
      }
    }

    /**
     The disk block of the bn-th block of the locked inode, allocated if there is none. None is a
     panic: exactly when bn is out of range, or fewer blocks are free than it has to allocate.
     */
    method BMap(bn: nat) returns (r: Option<nat>)
      requires Sound()
      modifies this`blocks, this`ip, this`owner, this`log
      ensures bn >= MAXFILE ==> r.None?
      ensures bn < MAXFILE && old(Now().Ptr(SlotOf(inum, bn))) != 0 ==> r.Some?
      ensures r.Some? ==> Sound()
      ensures r.Some? ==> MapStep(old(Now()), old(owner), Now(), owner, bn, r.value)
      ensures r.Some? ==> MapTally(old(Now()), Now(), old(log), log, bn, r.value)
      ensures bn < MAXFILE ==> (r.Some? <==> Missing(old(Now()), bn) <= Spare(old(Now())))
      ensures r.Some? ==> Spare(old(Now())) == Spare(Now()) + Missing(old(Now()), bn)
      ensures r.None? && bn < MAXFILE ==> Now().Shape() && Full()
      ensures Logged(old(blocks), blocks, old(log), log)
    {
      hide Linked, Marked, MapStep, MapTally, Grew, Missing, Spare, Logged;
      LoggedNone(blocks, log);
      if bn < NDIRECT {
        ghost var v, own, log0 := Now(), owner, log;
        MissingOf(v, bn);
        r := Address(bn);
        if r.Some? {
          DirectMapped(v, own, Now(), owner, bn, r.value, log0, log);
        }
      } else if bn - NDIRECT < NINDIRECT {
        r := BMapIndirect(bn - NDIRECT);
      } else {
        r := None;
      }
    }

    // ----- Contents -----

    /** One turn of writei's loop: map the block, copy the bytes in, log_write. */
    method WriteChunk(off: nat, chunk: seq<byte>) returns (ok: bool, ghost b: nat, ghost log1: Tally)
      requires Sound() && off < MAXBYTES && off % BSIZE + |chunk| <= BSIZE
      modifies this`blocks, this`ip, this`owner, this`log
      ensures ok ==> Sound()
      ensures ok ==> BytesWritten(old(Now()), Now(), off, chunk) && PtrsKept(old(Now()), Now(), off / BSIZE)
      ensures ok ==> MapTally(old(Now()), Now(), old(log), log1, off / BSIZE, b) && log == log1.(data := log1.data + {b}) && Area(sb, b)
      ensures old(Now().Ptr(SlotOf(inum, off / BSIZE))) != 0 ==> ok
      ensures ok <==> Missing(old(Now()), off / BSIZE) <= Spare(old(Now()))
      ensures ok ==> Spare(old(Now())) == Spare(Now()) + Missing(old(Now()), off / BSIZE)
      ensures !ok ==> Now().Shape() && Full()
      ensures Logged(old(blocks), blocks, old(log), log)
    {
      hide Linked, Marked, BytesWritten, PtrsKept, MapStep, SameUse, Area, Missing, Spare, Logged;
      ghost var v, own := Now(), owner;
      var r := BMap(off / BSIZE);
      if r.None? {
        ok, b, log1 := false, 0, log;
        return;
      }
      ghost var v1 := Now();
      b, log1 := r.value, log;
      ChunkWritten(v, own, v1, owner, off, chunk, b);
      var blk := Patch(blocks[r.value], off % BSIZE, chunk);
      blocks := blocks[r.value := blk];
      log := log.(data := log.data + {b});
      LoggedPut(v1.blocks, b, blk, log1, log);
      LoggedOn(v.blocks, v1.blocks, blocks, old(log), log1, log);
      ok := true;
      assert Now() == Store(v1, b, blk);
      StillMarked(v1, Now(), owner.Keys);
      SpareKept(v1, Now());
    }

    /** A turn keeps what has been written and logged so far. */
    method WriteTurn(off: nat, src: seq<byte>, tot: nat, ghost v0: View, ghost t0: Tally) returns (ok: bool, m: nat)
      requires Sound() && off + |src| <= MAXBYTES && tot < |src| && (tot == 0 || (off + tot) % BSIZE == 0)
      requires v0.Shape() && Progress(v0, Now(), off, src, tot) && Budget(v0, Now(), t0, log, off, off + tot)
      modifies this`blocks, this`ip, this`owner, this`log
      ensures 1 <= m <= |src| - tot && (tot + m == |src| || (off + tot + m) % BSIZE == 0)
      ensures ok ==> Sound() && Progress(v0, Now(), off, src, tot + m)
      ensures ok ==> Budget(v0, Now(), t0, log, off, off + tot + m)
      ensures off + |src| <= old(ip.size) ==> ok
      ensures ok <==> More(v0.ip.size, off + tot + m) - More(v0.ip.size, off + tot) <= Spare(old(Now()))
      ensures ok ==> Spare(Now()) == Spare(old(Now())) - (More(v0.ip.size, off + tot + m) - More(v0.ip.size, off + tot))
      ensures if ok then ip.size == old(ip.size) else Now().Shape() && Full()
      ensures Logged(old(blocks), blocks, old(log), log)
    {
      hide Linked, Marked, Progress, Budget, BytesWritten, PtrsKept, MapTally, Missing, More, Spare, Logged;
      ghost var v, t := Now(), log;
      m := ChunkLen(|src| - tot, off + tot);
      InProgress(v0, v, off, src, tot);
      ProgressMissing(v0, v, off, src, tot, m);
      ghost var b, t1;
      ok, b, t1 := WriteChunk(off + tot, src[tot..tot + m]);
      if ok {
        IndArea(Now(), owner);
        TurnDone(v0, v, Now(), t0, t, t1, off, src, tot, m, b);
        InProgress(v0, Now(), off, src, tot + m);
      }
    }

    /** The loop of writei. */
    method WriteBlocks(off: nat, src: seq<byte>) returns (ok: bool)
      requires Sound() && off <= ip.size && off + |src| <= MAXBYTES && Mapped(Now(), inum, NBlocks(ip.size))
      modifies this`blocks, this`ip, this`owner, this`log
      ensures ok ==> Sound() && Progress(old(Now()), Now(), off, src, |src|)
      ensures ok ==> Budget(old(Now()), Now(), old(log), log, off, off + |src|)
      ensures off + |src| <= old(ip.size) ==> ok
      ensures ok <==> More(old(ip.size), off + |src|) <= Spare(old(Now()))
      ensures ok ==> Spare(Now()) == Spare(old(Now())) - More(old(ip.size), off + |src|)
      ensures !ok ==> Now().Shape() && Full()
      ensures Logged(old(blocks), blocks, old(log), log)
    {
      hide Linked, Marked, Mapped, Progress, Budget, More, Spare, Logged;
      LoggedNone(blocks, log);
      ghost var v0, t0 := Now(), log;
      IndArea(v0, owner);
      Started(v0, t0, off, src);
      MoreGrows(ip.size, off, off);
      var tot := 0;
      while tot < |src|
        invariant tot <= |src| && (tot == 0 || tot == |src| || (off + tot) % BSIZE == 0)
        invariant Sound() && Progress(v0, Now(), off, src, tot)
        invariant Budget(v0, Now(), t0, log, off, off + tot) && ip.size == v0.ip.size
        invariant Spare(Now()) == Spare(v0) - More(v0.ip.size, off + tot)
        invariant Logged(v0.blocks, blocks, t0, log)
        modifies this`blocks, this`ip, this`owner, this`log
      {
        var m;
        ghost var was, t := blocks, log;
        ok, m := WriteTurn(off, src, tot, v0, t0);
        LoggedOn(v0.blocks, was, blocks, t0, t, log);
        MoreGrows(v0.ip.size, off + tot + m, off + |src|);
        if !ok {
          return;
        }
        tot := tot + m;
      }
      ok := true;
    }

    // ----- Between calls -----

    /** Sound, no holes, and the locked inode agrees with the inode table. */
    ghost predicate Valid()
      reads this
    {
      Sound() && HoleFree(Now()) && ip.size <= MAXBYTES && Now().Disk(inum) == ip
    }

    /** iupdate: the table has the locked inode as it is now. */
    method IUpdate()
      requires Now().Shape()
      modifies this`blocks, this`log
      ensures Now() == Update(old(Now())) && log == old(log).(inos := old(log).inos + {sb.IBlock(inum)})
      ensures Logged(old(blocks), blocks, old(log), log)
    {
      var x := sb.IBlock(inum);
      blocks := blocks[x := PutDinode(blocks[x], inum % IPB, ip)];
      log := log.(inos := log.inos + {x});
    }

    /** ilock of another inode, the one in hand being up to date: no file changes. False is panic("ilock: no type"). */
    method ILock(i: nat) returns (ok: bool)
      requires Valid() && i < sb.ninodes
      modifies this`inum, this`ip
      ensures Valid() && inum == i && ok == (ip.typ != 0)
      ensures forall k :: 0 <= k < sb.ninodes ==> Now().Ino(k) == old(Now()).Ino(k) && Contents(Now(), k) == old(Contents(Now(), k))
    {
      ghost var v := Now();
      inum := i;
      ip := GetDinode(blocks[sb.IBlock(i)], i % IPB);
      ok := ip.typ != 0;
      Relocked(v, Now(), owner);
      StillMarked(v, Now(), owner.Keys);
      LockedMapped(Now());
    }

    /** The end of writei: a file that has grown gets its new size, in memory and in the table. */
    method RecordSize(end: uint32, n: nat) returns (grown: bool)
      requires Now().Shape()
      modifies this`blocks, this`ip, this`log
      ensures grown == (n > 0 && end > old(ip.size)) && Now() == Written(old(Now()), end, grown)
      ensures log == if grown then old(log).(inos := old(log).inos + {sb.IBlock(inum)}) else old(log)
      ensures Logged(old(blocks), blocks, old(log), log)
    {
      hide Logged;
      LoggedNone(blocks, log);
      grown := n > 0 && end > ip.size;
      if grown {
        ip := ip.(size := end);
        IUpdate();
      }
    }

    /** writei past its checks. */
    method WriteBody(off: nat, src: seq<byte>) returns (ok: bool, ghost v: View)
      requires Valid() && off <= ip.size && off + |src| <= MAXBYTES
      modifies this`blocks, this`ip, this`owner, this`log
      ensures ok ==> Valid() && Spliced(old(Now()), Now(), off, src)
      ensures ok ==> v.Shape() && v.sb == sb && v.ip.size == old(ip.size) && Charged(old(Now()), v, old(log), log, off, |src|)
      ensures off + |src| <= old(ip.size) ==> ok
      ensures ok <==> More(old(ip.size), off + |src|) <= Spare(old(Now()))
      ensures ok ==> Spare(Now()) == Spare(old(Now())) - More(old(ip.size), off + |src|)
      ensures !ok ==> Now().Shape() && Full()
      ensures Logged(old(blocks), blocks, old(log), log)
    {
      hide Linked, Marked, SameUse, HoleFree, Mapped, Budget, Progress, Charged, Spliced, Written, More, Spare, Logged;
      ghost var v0, t0 := Now(), log;
      LockedMapped(v0);
      ok := WriteBlocks(off, src);
      v := Now();
      if ok {
        ghost var t := log;
        var grown := RecordSize(off + |src|, |src|);
        LoggedOn(v0.blocks, v.blocks, blocks, t0, t, log);
        WriteFinished(v0, v, Now(), owner, off, src, grown);
        StillMarked(v, Now(), owner.Keys);
        SpareKept(v, Now());
        ChargedBy(v0, v, t0, t, log, off, |src|);
      }
    }

    /**
     writei. A write that returns leaves the file spliced and every other file as it was; it
     fails, changing nothing, exactly when it would leave a gap, wrap, or be too long. It panics
     exactly when the file needs more blocks than are free; if it returns, so many fewer are.
     */
    method WriteI(off: uint32, src: seq<byte>) returns (r: IoResult, ghost v: View)
      requires Valid() && |src| < U32
      modifies this`blocks, this`ip, this`owner, this`log
      ensures r.Device? <==> old(ip.typ) == T_DEV
      ensures r.Fail? <==> old(ip.typ) != T_DEV && (off > old(ip.size) || off + |src| > MAXBYTES)
      ensures r.Device? || r.Fail? ==> Now() == old(Now()) && owner == old(owner) && log == old(log)
      ensures r.Done? ==> r.n == |src| && Valid() && Spliced(old(Now()), Now(), off, src)
      ensures r.Done? ==>
        v.Shape() && v.sb == sb && v.ip.size == old(ip.size) && Charged(old(Now()), v, old(log), log, off, |src|)
      ensures r.Panic? ==> off + |src| > old(ip.size) && Now().Shape() && Full()
      ensures r.Panic? <==> !r.Device? && !r.Fail? && More(old(ip.size), off + |src|) > Spare(old(Now()))
      ensures r.Done? ==> Spare(Now()) == Spare(old(Now())) - More(old(ip.size), off + |src|)
      ensures Logged(old(blocks), blocks, old(log), log)
    {
      hide Linked, Marked, HoleFree, Spliced, Charged, More, Spare, Logged;
      LoggedNone(blocks, log);
      v := Now();
      if ip.typ == T_DEV {
        return Device, v;
      }
      if off > ip.size || (off + |src|) % U32 < off {
        return Fail, v;
      }
      if (off + |src|) % U32 > MAXBYTES {
        return Fail, v;
      }
      var ok;
      ok, v := WriteBody(off, src);
      r := if ok then Done(|src|) else Panic;
    }

    /** One turn of readi's loop: within the file no block is missing, so bmap allocates nothing. */
    method ReadChunk(off: nat, m: nat) returns (chunk: seq<byte>)
      requires Valid() && off + m <= ip.size && off % BSIZE + m <= BSIZE && 1 <= m
      modifies this`blocks, this`ip, this`owner, this`log
      ensures Now() == old(Now()) && owner == old(owner) && log == old(log)
      ensures |chunk| == m && IsPart(Now(), inum, off, chunk)
    {
      hide Linked, Marked, HoleFree;
      InsideFile(Now(), off);
      var b := BMap(off / BSIZE);
      BlockRead(Now(), owner, off, m);
      chunk := blocks[b.value][off % BSIZE..off % BSIZE + m];
    }

    /** readi: what is there of the n bytes at off. It never allocates, whatever bmap could do. */
    method ReadI(off: uint32, n: uint32) returns (r: IoResult, dst: seq<byte>)
      requires Valid()
      modifies this`blocks, this`ip, this`owner, this`log
      ensures Now() == old(Now()) && owner == old(owner) && log == old(log)
      ensures r.Device? <==> ip.typ == T_DEV
      ensures r.Fail? <==> ip.typ != T_DEV && (off > ip.size || off + n >= U32)
      ensures !r.Panic? && (r.Done? ==> r.n == |dst| && off <= ip.size <= MAXBYTES && dst == Clip(Contents(Now(), inum), off, n))
    {
      hide Linked, Marked, HoleFree, Byte, View.Disk;
      dst := [];
      if ip.typ == T_DEV {
        return Device, dst;
      }
      if off > ip.size || (off + n) % U32 < off {
        return Fail, dst;
      }
      var len := if off + n > ip.size then ip.size - off else n;
      var tot := 0;
      while tot < len
        invariant tot <= len && |dst| == tot && ip == old(ip)
        invariant Now() == old(Now()) && owner == old(owner) && log == old(log)
        invariant IsPart(Now(), inum, off, dst)
        modifies this`blocks, this`ip, this`owner, this`log
      {
        var m := ChunkLen(len - tot, off + tot);
        var chunk := ReadChunk(off + tot, m);
        PartOn(Now(), inum, off, dst, chunk);
        dst := dst + chunk;
        tot := tot + m;
      }
      PartIsClip(Now(), inum, off, n, dst);
      r := Done(len);
    }

    /** writei and then readi at the same place: what was written is what is read, and reading changes nothing. */
    method WriteThenRead(off: uint32, src: seq<byte>) returns (w: IoResult, r: IoResult, dst: seq<byte>)
      requires Valid() && |src| < U32
      modifies this`blocks, this`ip, this`owner, this`log
      ensures w.Device? <==> old(ip.typ) == T_DEV
      ensures w.Fail? <==> old(ip.typ) != T_DEV && (off > old(ip.size) || off + |src| > MAXBYTES)
      ensures w.Panic? <==> !w.Device? && !w.Fail? && More(old(ip.size), off + |src|) > Spare(old(Now()))
      ensures w.Done? ==> Valid() && Spliced(old(Now()), Now(), off, src) && r == Done(|src|) && dst == src
    {
      hide Linked, Marked, HoleFree, Charged, Byte, View.Disk, Mapped, More, Spare;
      ghost var v;
      w, v := WriteI(off, src);
      r, dst := w, [];
      if w.Done? {
        ReadBack(Contents(old(Now()), inum), off, src);
        r, dst := ReadI(off, |src|);
      }
    }

    // ----- Truncation -----

    /** One turn of itrunc's first loop. */
    method FreeAddress(k: nat)
      requires Sound() && k < NDIRECT && ip.addrs[k] != 0
      modifies this`blocks, this`ip, this`owner, this`log
      ensures Sound() && Cut(old(Now()), Now()) && ip.addrs == old(ip.addrs)[k := 0]
      ensures MapsOnly(sb, old(log), log)
      ensures Logged(old(blocks), blocks, old(log), log)
    {
      hide Logged;
      ghost var v := Now();
      AddressFreed(v, owner, k);
      var b := ip.addrs[k];
      var ok := BFree(b);
      ip := ip.(addrs := ip.addrs[k := 0]);
      owner := owner - {b};
      assert Now() == Cleared(Release(v, b), k);
    }

    /** itrunc's second loop: the entries are freed while the indirect block still names them. */
    method FreeEntries(x: nat)
      requires Sound() && x == ip.addrs[NDIRECT] && x != 0
      modifies this`blocks, this`log
      ensures Now().Shape() && Linked(Now(), owner) && Cut(old(Now()), Now()) && ip == old(ip)
      ensures Marked(Now(), owner.Keys - FreedBefore(owner, inum, NINDIRECT))
      ensures MapsOnly(sb, old(log), log)
      ensures Logged(old(blocks), blocks, old(log), log)
    {
      hide Logged;
      LoggedNone(blocks, log);
      var j := 0;
      NoneFreed(owner, inum);
      while j < NINDIRECT
        invariant j <= NINDIRECT && Now().Shape() && Linked(Now(), owner) && Cut(old(Now()), Now())
        invariant Marked(Now(), owner.Keys - FreedBefore(owner, inum, j))
        invariant MapsOnly(sb, old(log), log) && Logged(old(blocks), blocks, old(log), log)
        modifies this`blocks, this`log
      {
        ghost var was, t := blocks, log;
        FreeEntry(x, j);
        LoggedOn(old(blocks), was, blocks, old(log), t, log);
        j := j + 1;
      }
    }

    method FreeEntry(x: nat, j: nat)
      requires Now().Shape() && Linked(Now(), owner) && x == ip.addrs[NDIRECT] && x != 0 && j < NINDIRECT
      requires Marked(Now(), owner.Keys - FreedBefore(owner, inum, j))
      modifies this`blocks, this`log
      ensures Now().Shape() && Linked(Now(), owner) && Cut(old(Now()), Now())
      ensures Marked(Now(), owner.Keys - FreedBefore(owner, inum, j + 1))
      ensures MapsOnly(sb, old(log), log)
      ensures Logged(old(blocks), blocks, old(log), log)
    {
      hide Logged;
      LoggedNone(blocks, log);
      EntryFreed(Now(), owner, x, j);
      var a := WordAt(blocks[x], j);
      if a != 0 {
        var ok := BFree(a);
      }
    }

    method FreeIndirect(x: nat)
      requires Sound() && x == ip.addrs[NDIRECT] && x != 0 && forall k :: 0 <= k < NDIRECT ==> ip.addrs[k] == 0
      modifies this`blocks, this`ip, this`owner, this`log
      ensures Sound() && Cut(old(Now()), Now()) && ip.addrs == old(ip.addrs)[NDIRECT := 0]
      ensures MapsOnly(sb, old(log), log)
      ensures Logged(old(blocks), blocks, old(log), log)
    {
      hide Logged;
      FreeEntries(x);
      ghost var v, t := Now(), log;
      IndirectFreed(v, owner, x);
      var ok := BFree(x);
      LoggedOn(old(blocks), v.blocks, blocks, old(log), t, log);
      ip := ip.(addrs := ip.addrs[NDIRECT := 0]);
      owner := Others(owner, inum);
      assert Now() == Cleared(Release(v, x), NDIRECT);
    }

    /** itrunc's first loop. */
    method FreeAddresses()
      requires Sound()
      modifies this`blocks, this`ip, this`owner, this`log
      ensures Sound() && Cut(old(Now()), Now()) && forall k :: 0 <= k < NDIRECT ==> ip.addrs[k] == 0
      ensures MapsOnly(sb, old(log), log)
      ensures Logged(old(blocks), blocks, old(log), log)
    {
      hide Linked, Marked, Cut, Bitmap, Logged;
      LoggedNone(blocks, log);
      ghost var v0 := Now();
      CutNothing(v0);
      var i := 0;
      while i < NDIRECT
        invariant i <= NDIRECT && Sound() && Cut(v0, Now()) && forall k :: 0 <= k < i ==> ip.addrs[k] == 0
        invariant MapsOnly(sb, old(log), log) && Logged(v0.blocks, blocks, old(log), log)
        modifies this`blocks, this`ip, this`owner, this`log
      {
        if ip.addrs[i] != 0 {
          ghost var v, t := Now(), log;
          FreeAddress(i);
          LoggedOn(v0.blocks, v.blocks, blocks, old(log), t, log);
          CutOn(v0, v, Now());
        }
        i := i + 1;
      }
    }

    /**
     itrunc: the file is emptied, exactly its blocks become free, and no other file changes. The
     panic of bfree cannot happen. Beside the inode only bitmap blocks are logged.
     */
    method ITrunc()
      requires Valid()
      modifies this`blocks, this`ip, this`owner, this`log
      ensures Valid() && Contents(Now(), inum) == [] && OthersKept(old(Now()), Now())
      ensures owner == Others(old(owner), inum) && inum == old(inum) && SameKind(old(ip), ip)
      ensures MapsOnly(sb, old(log).(inos := old(log).inos + {sb.IBlock(inum)}), log)
      ensures Spare(Now()) == Spare(old(Now())) + Takes(old(ip.size))
      ensures Logged(old(blocks), blocks, old(log), log)
    {
      hide Linked, Marked, HoleFree, OthersKept, Cut, Bitmap, Byte, Spare, Takes, Logged;
      ghost var v0 := Now();
      FreeAddresses();
      ghost var v1, t1 := Now(), log;
      if ip.addrs[NDIRECT] != 0 {
        FreeIndirect(ip.addrs[NDIRECT]);
        LoggedOn(v0.blocks, v1.blocks, blocks, old(log), t1, log);
        CutOn(v0, v1, Now());
      }
      ghost var v, t := Now(), log;
      ip := ip.(size := 0);
      IUpdate();
      LoggedOn(v0.blocks, v.blocks, blocks, old(log), t, log);
      TruncDone(v0, old(owner), v, owner, Now());
      TruncSpare(v0, old(owner), Now());
    }
  }

  /** Of two tallies, the second has more bitmap blocks and is otherwise the first. */
  ghost predicate MapsOnly(sb: Super, t: Tally, t': Tally) {
    t' == t.(maps := t'.maps) && t'.maps <= t.maps + Bitmap(sb)
  }

  // ----- Reading -----

  /** The part of s from off on, at most n bytes of it. */
  function Clip(s: seq<byte>, off: nat, n: nat): seq<byte>
    requires off <= |s|
  {
    if off + n > |s| then s[off..] else s[off..off + n]
  }

  /** part is what file i holds from off on. */
  ghost predicate IsPart(v: View, i: nat, off: nat, part: seq<byte>) {
    v.Shape() && i < v.sb.ninodes && off + |part| <= MAXBYTES && forall k :: 0 <= k < |part| ==> part[k] == Byte(v, i, off + k)
  }

  lemma PartOn(v: View, i: nat, off: nat, a: seq<byte>, b: seq<byte>)
    requires IsPart(v, i, off, a) && IsPart(v, i, off + |a|, b)
    ensures IsPart(v, i, off, a + b)
  {
    hide Byte;
    forall k | 0 <= k < |a + b| ensures (a + b)[k] == Byte(v, i, off + k) {
      if k >= |a| {
        assert b[k - |a|] == Byte(v, i, off + |a| + (k - |a|));
      }
    }
  }

  lemma PartIsClip(v: View, i: nat, off: nat, n: nat, part: seq<byte>)
    requires IsPart(v, i, off, part) && off <= v.Ino(i).size <= MAXBYTES
    requires |part| == if off + n > v.Ino(i).size then v.Ino(i).size - off else n
    ensures part == Clip(Contents(v, i), off, n)
  {
    hide Byte;
    var c := Clip(Contents(v, i), off, n);
    forall k | 0 <= k < |part| ensures part[k] == c[k] {
      assert c[k] == Contents(v, i)[off + k];
    }
  }

  /** What has been written is what is read back. */
  lemma ReadBack(s: seq<byte>, off: nat, src: seq<byte>)
    requires off <= |s|
    ensures Clip(Splice(s, off, src), off, |src|) == src
  {
    var r := Splice(s, off, src);
    assert forall k :: 0 <= k < |src| ==> r[off..][k] == r[off + k];
  }

  /** What is within the file is mapped, however far the write has got. */
  lemma InProgress(v0: View, v: View, off: nat, src: seq<byte>, tot: nat)
    requires v0.Shape() && v.Shape() && tot <= |src| && off + |src| <= MAXBYTES && Progress(v0, v, off, src, tot)
    ensures tot < |src| && off + |src| <= v.ip.size ==> v.Ptr(SlotOf(v.inum, (off + tot) / BSIZE)) != 0
    ensures v.ip.size == v0.ip.size && v.sb == v0.sb
  {
    if tot < |src| && off + |src| <= v.ip.size {
      assert (off + tot) / BSIZE < NBlocks(v.ip.size);
    }
  }

  lemma InsideFile(v: View, off: nat)
    requires v.Shape() && HoleFree(v) && off < v.ip.size
    ensures off < MAXBYTES && v.Ptr(SlotOf(v.inum, off / BSIZE)) != 0
  {
    LockedMapped(v);
    assert off / BSIZE < NBlocks(v.ip.size);
  }

  lemma BlockRead(v: View, owner: map<nat, Slot>, off: nat, m: nat)
    requires v.Shape() && Linked(v, owner) && off + m <= MAXBYTES && off % BSIZE + m <= BSIZE && 1 <= m
    requires v.Ptr(SlotOf(v.inum, off / BSIZE)) != 0
    ensures var b := v.Ptr(SlotOf(v.inum, off / BSIZE));
            && b < v.sb.size
            && var chunk := v.blocks[b][off % BSIZE..off % BSIZE + m];
               forall k :: 0 <= k < m ==> chunk[k] == Byte(v, v.inum, off + k)
  {
    assert v.Slotted(SlotOf(v.inum, off / BSIZE));
    var chunk := v.blocks[v.Ptr(SlotOf(v.inum, off / BSIZE))][off % BSIZE..off % BSIZE + m];
    forall k | 0 <= k < m ensures chunk[k] == Byte(v, v.inum, off + k) {
      assert (off + k) / BSIZE == off / BSIZE && (off + k) % BSIZE == off % BSIZE + k;
    }
  }

  // ----- What the steps of bmap amount to -----

  /** balloc logs the bitmap block and, through bzero, the block itself. */
  function Handed(t: Tally, sb: Super, b: nat, indirect: bool): Tally {
    var t1 := t.(maps := t.maps + {sb.BBlock(b)});
    if indirect then t1.(inds := t1.inds + {b}) else t1.(data := t1.data + {b})
  }

  function WithInd(t: Tally, x: nat): Tally { t.(inds := t.inds + {x}) }

  lemma DirectMapped(v: View, own: map<nat, Slot>, v': View, own': map<nat, Slot>, bn: nat, b: nat, t: Tally, t': Tally)
    requires v.Shape() && v'.Shape() && bn < NDIRECT && v'.sb == v.sb
    requires if v.ip.addrs[bn] != 0 then b == v.ip.addrs[bn] && v' == v && own' == own && t' == t
             else Grew(v, own, v', own', Direct(v.inum, bn), b) && t' == Handed(t, v.sb, b, false)
    ensures MapStep(v, own, v', own', bn, b) && MapTally(v, v', t, t', bn, b)
  {
    if v.ip.addrs[bn] == 0 {
      GrewExtended(v, own, v', own', bn, b);
    }
  }

  lemma EntryMapped(v: View, own: map<nat, Slot>, v': View, own': map<nat, Slot>, j: nat, b: nat, t: Tally, t': Tally)
    requires v.Shape() && v'.Shape() && j < NINDIRECT && v'.sb == v.sb && v.ip.addrs[NDIRECT] != 0
    requires if v.Ptr(Entry(v.inum, j)) != 0 then b == v.Ptr(Entry(v.inum, j)) && v' == v && own' == own && t' == t
             else Grew(v, own, v', own', Entry(v.inum, j), b) && t' == WithInd(Handed(t, v.sb, b, false), v'.ip.addrs[NDIRECT])
    ensures MapStep(v, own, v', own', NDIRECT + j, b) && MapTally(v, v', t, t', NDIRECT + j, b)
  {
    assert SlotOf(v.inum, NDIRECT + j) == Entry(v.inum, j);
    if v.Ptr(Entry(v.inum, j)) == 0 {
      GrewExtended(v, own, v', own', NDIRECT + j, b);
    }
  }

  lemma NewIndirectEmpty(v: View, own: map<nat, Slot>, v1: View, own1: map<nat, Slot>, j: nat, x: nat)
    requires v.Shape() && v1.Shape() && j < NINDIRECT && v.ip.addrs[NDIRECT] == 0
    requires Grew(v, own, v1, own1, Direct(v.inum, NDIRECT), x)
    ensures v1.sb == v.sb && v1.inum == v.inum && v1.ip.addrs[NDIRECT] != 0 && v1.Ptr(Entry(v1.inum, j)) == 0
  {
    assert v.Slotted(Entry(v.inum, j));
  }

  lemma NewIndirectMapped(v: View, own: map<nat, Slot>, v1: View, own1: map<nat, Slot>, v': View, own': map<nat, Slot>,
                          j: nat, x: nat, b: nat, t: Tally, t1: Tally, t': Tally)
    requires v.Shape() && v1.Shape() && v'.Shape() && j < NINDIRECT && v1.sb == v.sb && v.ip.addrs[NDIRECT] == 0
    requires Grew(v, own, v1, own1, Direct(v.inum, NDIRECT), x) && t1 == Handed(t, v.sb, x, true)
    requires v1.Ptr(Entry(v.inum, j)) == 0 ==>
      Grew(v1, own1, v', own', Entry(v.inum, j), b) && t' == WithInd(Handed(t1, v.sb, b, false), v'.ip.addrs[NDIRECT])
    ensures MapStep(v, own, v', own', NDIRECT + j, b) && MapTally(v, v', t, t', NDIRECT + j, b)
  {
    assert SlotOf(v.inum, NDIRECT + j) == Entry(v.inum, j);
    assert v1.Ptr(Entry(v.inum, j)) == v.Ptr(Entry(v.inum, j)) == 0;
    GrewTwice(v, own, v1, own1, v', own', NDIRECT + j, x, b);
    assert v'.Ptr(Direct(v.inum, NDIRECT)) == v1.Ptr(Direct(v.inum, NDIRECT)) == x;
    assert t'.inds == t.inds + {x};
    assert |t1.maps| <= |t.maps| + 1 && |t'.maps| <= |t1.maps| + 1;
  }
}

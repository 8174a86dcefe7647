/**
 bio.c over memide.c: the buffer cache as a linked list of buffers, most recently used first.
 Every method is one critical section, so what each keeps holds in every interleaving of
 callers. To all of them together the cache is a plain block map, `content`.
 */
module Bio {
  import opened Blocks
  import Ring
  import opened Options

  const NBUF := 30
  const HEAD := 30                   // &bcache.head, as an index
  const ROOTDEV := 1

  datatype Buf = Buf(dev: nat, blockno: nat, valid: bool, dirty: bool, locked: bool, refcnt: nat, data: Block) {
    predicate Is(d: nat, b: nat) { dev == d && blockno == b }
    predicate Pins(b: nat) { Is(ROOTDEV, b) && valid && (dirty || locked) }
    predicate Free() { refcnt == 0 && !dirty }
  }

  /** Buffer i is free, and none behind it in the ring, where those used longest ago are, is. */
  ghost predicate Oldest(ring: seq<nat>, buf: seq<Buf>, i: nat) {
    exists k :: 1 <= k < |ring| && ring[k] == i < |buf| && buf[i].Free() && forall j :: k < j < |ring| ==> ring[j] < |buf| && !buf[ring[j]].Free()
  }

  // ----- What every step keeps -----

  /** No block of a device is cached twice. Device 0 is what a buffer starts with. */
  ghost predicate Unique(buf: seq<Buf>) {
    forall i, j :: 0 <= i < j < |buf| && buf[i].dev != 0 ==> !buf[j].Is(buf[i].dev, buf[i].blockno)
  }

  /** A request that bget has answered and brelse has not undone; it is for this block. */
  datatype Ref = Ref(id: nat, dev: nat, blockno: nat)

  /** A buffer counts its references, is still the block each of them asked for, and is locked only under one. */
  ghost predicate Counted(buf: seq<Buf>, refs: seq<set<Ref>>) {
    && |refs| == |buf|
    && (forall i :: 0 <= i < |buf| ==> buf[i].refcnt == |refs[i]| && (buf[i].locked ==> refs[i] != {}))
    && (forall i, t :: 0 <= i < |buf| && t in refs[i] ==> buf[i].Is(t.dev, t.blockno))
  }

  /** Some buffer holds the newest content of block b, and may not be recycled. */
  ghost predicate Pinned(buf: seq<Buf>, b: nat) {
    exists i :: 0 <= i < |buf| && buf[i].Pins(b)
  }

  /** A valid buffer holds the content of its block; content that is not on disk is held, dirty or locked. */
  ghost predicate Agrees(disk: seq<Block>, buf: seq<Buf>, content: seq<Block>) {
    && |content| == |disk|
    && (forall i {:trigger buf[i]} :: 0 <= i < |buf| && buf[i].valid && buf[i].dev == ROOTDEV ==>
          buf[i].blockno < |disk| && buf[i].data == content[buf[i].blockno])
    && (forall b :: 0 <= b < |disk| && content[b] != disk[b] ==> Pinned(buf, b))
  }

  /** Changing one buffer keeps what the others pin. */
  lemma StillPinned(buf: seq<Buf>, i: nat, x: Buf, b: nat)
    requires Pinned(buf, b) && i < |buf| && (buf[i].Pins(b) ==> x.Pins(b))
    ensures Pinned(buf[i := x], b)
  {
    var k :| 0 <= k < |buf| && buf[k].Pins(b);
    assert buf[i := x][k].Pins(b);
  }

  /** A buffer whose data stays, or is not valid, may change in what it does not pin. */
  lemma ChangeAgrees(disk: seq<Block>, buf: seq<Buf>, content: seq<Block>, i: nat, x: Buf)
    requires Agrees(disk, buf, content) && i < |buf|
    requires x.valid && x.dev == ROOTDEV ==> x.blockno < |disk| && x.data == content[x.blockno]
    requires forall b :: 0 <= b < |disk| && content[b] != disk[b] && buf[i].Pins(b) ==> x.Pins(b)
    ensures Agrees(disk, buf[i := x], content)
  {
    forall b | 0 <= b < |disk| && content[b] != disk[b] ensures Pinned(buf[i := x], b) {
      StillPinned(buf, i, x, b);
    }
  }

  /** A valid clean buffer of the root device has what the disk has. */
  predicate Kept(disk: seq<Block>, x: Buf) {
    x.valid && x.dev == ROOTDEV && !x.dirty && x.blockno < |disk| ==> x.data == disk[x.blockno]
  }

  /** Once unlocked, a buffer that was changed and neither written nor pinned leaves its content with nobody. */
  lemma UnlockAgrees(disk: seq<Block>, buf: seq<Buf>, content: seq<Block>, i: nat)
    requires Agrees(disk, buf, content) && Unique(buf) && i < |buf|
    ensures Agrees(disk, buf[i := buf[i].(locked := false)], content) <==> Kept(disk, buf[i])
  {
    var x := buf[i].(locked := false);
    if Kept(disk, buf[i]) {
      ChangeAgrees(disk, buf, content, i, x);
    } else {
      assert content[x.blockno] == x.data != disk[x.blockno];
      assert forall k :: 0 <= k < |buf| && k != i ==> !buf[k].Is(buf[i].dev, buf[i].blockno);
    }
  }

  lemma CountAgrees(disk: seq<Block>, buf: seq<Buf>, content: seq<Block>, i: nat, n: nat)
    requires Agrees(disk, buf, content) && i < |buf|
    ensures Agrees(disk, buf[i := buf[i].(refcnt := n)], content)
  {
    ChangeAgrees(disk, buf, content, i, buf[i].(refcnt := n));
  }

  /** A free buffer may be given to another block. */
  lemma RecycleAgrees(disk: seq<Block>, buf: seq<Buf>, content: seq<Block>, refs: seq<set<Ref>>, i: nat, dev: nat, b: nat)
    requires Agrees(disk, buf, content) && Unique(buf) && Counted(buf, refs) && i < |buf| && buf[i].Free()
    requires forall j :: 0 <= j < |buf| ==> !buf[j].Is(dev, b)
    ensures var x := buf[i].(dev := dev, blockno := b, valid := false, dirty := false, refcnt := 1);
            Agrees(disk, buf[i := x], content) && Unique(buf[i := x])
  {
    assert !buf[i].locked;
    ChangeAgrees(disk, buf, content, i, buf[i].(dev := dev, blockno := b, valid := false, dirty := false, refcnt := 1));
  }

  lemma NotPinned(buf: seq<Buf>, i: nat)
    requires Unique(buf) && i < |buf| && buf[i].dev == ROOTDEV && !buf[i].valid
    ensures !Pinned(buf, buf[i].blockno)
  {
  }

  /** Reading from disk finds the newest content, for a block that no valid buffer holds. */
  lemma FillAgrees(disk: seq<Block>, buf: seq<Buf>, content: seq<Block>, i: nat)
    requires Agrees(disk, buf, content) && Unique(buf)
    requires i < |buf| && buf[i].dev == ROOTDEV && buf[i].blockno < |disk| && !buf[i].valid
    ensures disk[buf[i].blockno] == content[buf[i].blockno]
    ensures Agrees(disk, buf[i := buf[i].(valid := true, data := disk[buf[i].blockno])], content)
  {
    var b := buf[i].blockno;
    NotPinned(buf, i);
    ChangeAgrees(disk, buf, content, i, buf[i].(valid := true, data := disk[b]));
  }

  /** Writing a buffer out makes disk and content meet at its block. */
  lemma WriteAgrees(disk: seq<Block>, buf: seq<Buf>, content: seq<Block>, i: nat)
    requires Agrees(disk, buf, content) && Unique(buf)
    requires i < |buf| && buf[i].dev == ROOTDEV && buf[i].blockno < |disk|
    ensures |content| == |disk|
    ensures var b, x := buf[i].blockno, buf[i].data;
            && Agrees(disk[b := x], buf[i := buf[i].(valid := true, dirty := false)], content[b := x])
            && (buf[i].valid ==> content[b := x] == content)
  {
    var b, x := buf[i].blockno, buf[i].data;
    var disk', content', y := disk[b := x], content[b := x], buf[i].(valid := true, dirty := false);
    forall c | 0 <= c < |disk'| && content'[c] != disk'[c] ensures Pinned(buf[i := y], c) {
      StillPinned(buf, i, y, c);
    }
  }

  /** The holder of the lock changes the data: that is a change of content. */
  lemma ModifyAgrees(disk: seq<Block>, buf: seq<Buf>, content: seq<Block>, i: nat, x: Block)
    requires Agrees(disk, buf, content) && Unique(buf)
    requires i < |buf| && buf[i].dev == ROOTDEV && buf[i].valid && buf[i].locked
    ensures buf[i].blockno < |content| && Agrees(disk, buf[i := buf[i].(data := x)], content[buf[i].blockno := x])
  {
    var b, y := buf[i].blockno, buf[i].(data := x);
    forall c | 0 <= c < |disk| && content[b := x][c] != disk[c] ensures Pinned(buf[i := y], c) {
      if c == b {
        assert buf[i := y][i].Pins(b);
      } else {
        StillPinned(buf, i, y, c);
      }
    }
  }

  class BufferCache {
    var disk: seq<Block>             // memdisk
    var buf: seq<Buf>
    var prev: seq<nat>
    var next: seq<nat>
    ghost var ring: seq<nat>         // the head, then the buffers, most recently used first
    ghost var refs: seq<set<Ref>>
    ghost var content: seq<Block>    // the block map that the callers see

    ghost predicate Listed()
      reads this`buf, this`prev, this`next, this`ring
    {
      && |buf| == NBUF && |next| == NBUF + 1 && |ring| == NBUF + 1 && Ring.Linked(prev, next, ring) && ring[0] == HEAD
      && (forall i :: 0 <= i < NBUF ==> i in ring)
    }

    ghost predicate Valid()
      reads this
    {
      ValidBut(NBUF)
    }

    /** Valid, but that buffer i may be dirty before it is valid. */
    ghost predicate ValidBut(i: nat)
      reads this
    {
      && Listed() && Unique(buf) && Counted(buf, refs) && Agrees(disk, buf, content)
      && forall k :: 0 <= k < |buf| && k != i && buf[k].dirty ==> buf[k].valid
    }

    /** binit, over a disk. */
    constructor (disk: seq<Block>)
      ensures Valid() && this.disk == disk && content == disk && (forall i :: 0 <= i < NBUF ==> refs[i] == {} && buf[i].Free())
    {
      this.disk, content := disk, disk;
      buf := seq(NBUF, _ => Buf(0, 0, false, false, false, 0, ZeroBlock()));
      refs := seq(NBUF, _ => {});
      prev, next, ring := seq(NBUF + 1, _ => HEAD), seq(NBUF + 1, _ => HEAD), [HEAD];
      new;
      for b := 0 to NBUF
        invariant |buf| == NBUF && |next| == NBUF + 1 && |ring| == b + 1 && Ring.Linked(prev, next, ring) && ring[0] == HEAD
        invariant (forall i :: 0 <= i < b ==> i in ring) && (forall x :: x in ring ==> x == HEAD || x < b)
        invariant this.disk == disk && content == disk && |refs| == NBUF
        invariant forall i :: 0 <= i < NBUF ==> refs[i] == {} && buf[i] == Buf(0, 0, false, false, false, 0, ZeroBlock())
      {
        Ring.Push(prev, next, ring, b);
        next := next[b := next[HEAD]];
        prev := prev[b := HEAD];
        prev := prev[next[HEAD] := b];
        next := next[HEAD := b];
        Pushed(ring, b);
        ring := Ring.InFront(ring, b);
      }
    }

    static lemma Pushed(ring: seq<nat>, b: nat)
      requires |ring| >= 1
      ensures forall x :: x in Ring.InFront(ring, b) <==> x in ring || x == b
    {
      var r := Ring.InFront(ring, b);
      forall x | x in ring ensures x in r {
        var k :| 0 <= k < |ring| && ring[k] == x;
        assert r[if k == 0 then 0 else k + 1] == x;
      }
      assert r[1] == b;
    }

    /** Nodes of the list after the head are buffers. */
    lemma Node(k: nat)
      requires Listed() && 1 <= k <= NBUF
      ensures ring[k] < NBUF
    {
      assert ring[0] != ring[k];
    }

    /** bget's first loop: is the block cached? */
    method Lookup(dev: nat, blockno: nat) returns (r: Option<nat>)
      requires Listed()
      ensures r.Some? ==> r.value < NBUF && buf[r.value].Is(dev, blockno)
      ensures r.None? ==> forall i :: 0 <= i < NBUF ==> !buf[i].Is(dev, blockno)
    {
      forall k | 1 <= k <= NBUF ensures ring[k] < NBUF { Node(k); }
      var b := next[HEAD];
      ghost var k := 1;
      assert next[ring[0]] == Ring.After(ring, 0);
      while b != HEAD
        invariant 1 <= k <= NBUF + 1 && b == if k <= NBUF then ring[k] else HEAD
        invariant forall j :: 1 <= j < k ==> ring[j] < NBUF && !buf[ring[j]].Is(dev, blockno)
        decreases NBUF + 1 - k
      {
        if buf[b].dev == dev && buf[b].blockno == blockno {
          return Some(b);
        }
        assert next[ring[k]] == Ring.After(ring, k);
        b := next[b];
        k := k + 1;
      }
      forall i | 0 <= i < NBUF ensures !buf[i].Is(dev, blockno) {
        assert i in ring;
      }
      r := None;
    }

    /** bget's second loop: the least recently used buffer that is free. */
    method FindFree() returns (r: Option<nat>, ghost k: nat)
      requires Listed()
      ensures r.Some? ==> 1 <= k <= NBUF && r.value == ring[k] < NBUF && buf[r.value].Free()
      ensures r.Some? ==> forall j :: k < j <= NBUF ==> ring[j] < NBUF && !buf[ring[j]].Free()
      ensures r.None? ==> forall i :: 0 <= i < NBUF ==> !buf[i].Free()
    {
      forall k | 1 <= k <= NBUF ensures ring[k] < NBUF { Node(k); }
      var b := prev[HEAD];
      k := NBUF;
      assert prev[ring[0]] == Ring.Before(ring, 0);
      while b != HEAD
        invariant 0 <= k <= NBUF && b == ring[k]
        invariant forall j :: k < j <= NBUF ==> ring[j] < NBUF && !buf[ring[j]].Free()
        decreases k
      {
        if buf[b].refcnt == 0 && !buf[b].dirty {
          return Some(b), k;
        }
        assert prev[ring[k]] == Ring.Before(ring, k);
        b := prev[b];
        k := k - 1;
      }
      forall i | 0 <= i < NBUF ensures !buf[i].Free() {
        assert i in ring;
      }
      r := None;
    }

    /**
     bget, up to the release of bcache.lock: a counted reference to the buffer for the block.
     None is the panic, and then every buffer is referenced or dirty. Nothing that is referenced
     or dirty changes blocks.
     */
    method BGet(dev: nat, blockno: nat, ghost id: nat) returns (r: Option<nat>)
      requires Valid() && forall i :: 0 <= i < NBUF ==> Ref(id, dev, blockno) !in refs[i]
      modifies this`buf, this`refs
      ensures Valid()
      ensures r.None? ==> buf == old(buf) && refs == old(refs) && forall i :: 0 <= i < NBUF ==> !buf[i].Free() && !buf[i].Is(dev, blockno)
      ensures r.Some? ==> r.value < NBUF && buf[r.value].Is(dev, blockno)
      ensures r.Some? && old(buf[r.value]).Is(dev, blockno) ==>
        buf == old(buf)[r.value := old(buf[r.value]).(refcnt := old(buf[r.value]).refcnt + 1)]
      ensures r.Some? && !old(buf[r.value]).Is(dev, blockno) ==>
        && (forall i :: 0 <= i < NBUF ==> !old(buf[i]).Is(dev, blockno))
        && old(buf[r.value]).Free() && !buf[r.value].valid && !buf[r.value].locked && Oldest(ring, old(buf), r.value)
        && forall i :: 0 <= i < NBUF && i != r.value ==> buf[i] == old(buf[i])
      ensures r.Some? ==> refs == old(refs)[r.value := old(refs[r.value]) + {Ref(id, dev, blockno)}]
    {
      hide Agrees, Ring.Linked;
      r := Lookup(dev, blockno);
      ghost var t := Ref(id, dev, blockno);
      if r.Some? {
        var i := r.value;
        CountAgrees(disk, buf, content, i, buf[i].refcnt + 1);
        buf := buf[i := buf[i].(refcnt := buf[i].refcnt + 1)];
        refs := refs[i := refs[i] + {t}];
      } else {
        ghost var k;
        r, k := FindFree();
        if r.Some? {
          var i := r.value;
          RecycleAgrees(disk, buf, content, refs, i, dev, blockno);
          assert refs[i] == {};
          buf := buf[i := buf[i].(dev := dev, blockno := blockno, valid := false, dirty := false, refcnt := 1)];
          refs := refs[i := {t}];
        }
      }
    }

    /** acquiresleep, once the lock is free. */
    method AcquireSleep(i: nat, ghost t: Ref)
      requires Valid() && i < NBUF && t in refs[i] && !buf[i].locked
      modifies this`buf
      ensures Valid() && buf == old(buf)[i := old(buf[i]).(locked := true)]
    {
      ChangeAgrees(disk, buf, content, i, buf[i].(locked := true));
      buf := buf[i := buf[i].(locked := true)];
    }

    /** iderw (memide.c). False is one of its four panics. */
    method IdeRw(i: nat) returns (ok: bool)
      requires i < NBUF && ValidBut(i)
      modifies this`buf, this`disk, this`content
      ensures var x := old(buf[i]);
        ok == (x.locked && (x.dirty || !x.valid) && x.dev == ROOTDEV && x.blockno < |old(disk)|)
      ensures !ok ==> buf == old(buf) && disk == old(disk) && content == old(content)
      ensures ok ==> Valid() && var x := old(buf[i]); var b := x.blockno;
        if x.dirty then
          && buf == old(buf)[i := x.(valid := true, dirty := false)]
          && disk == old(disk)[b := x.data] && content == old(content)[b := x.data] && (x.valid ==> content == old(content))
        else
          && disk == old(disk) && content == old(content) && disk[b] == content[b]
          && buf == old(buf)[i := x.(valid := true, data := content[b])]
    {
      hide Agrees, Ring.Linked;
      var x := buf[i];
      if !x.locked || (x.valid && !x.dirty) || x.dev != ROOTDEV || x.blockno >= |disk| {
        return false;
      }
      if x.dirty {
        WriteAgrees(disk, buf, content, i);
        disk := disk[x.blockno := x.data];
        content := content[x.blockno := x.data];
        buf := buf[i := x.(valid := true, dirty := false)];
      } else {
        FillAgrees(disk, buf, content, i);
        buf := buf[i := x.(valid := true, data := disk[x.blockno])];
      }
      ok := true;
    }

    /** The second half of bread, on a locked buffer: its data is the newest content of the block. */
    method BRead(i: nat) returns (ok: bool)
      requires Valid() && i < NBUF && buf[i].locked
      modifies this`buf, this`disk, this`content
      ensures ok == (old(buf[i]).valid || (old(buf[i]).dev == ROOTDEV && old(buf[i]).blockno < |old(disk)|))
      ensures Valid() && disk == old(disk) && content == old(content)
      ensures ok ==> buf[i].valid && buf == old(buf)[i := old(buf[i]).(valid := true, data := buf[i].data)]
      ensures ok && buf[i].dev == ROOTDEV ==> buf[i].blockno < |content| && buf[i].data == content[buf[i].blockno]
    {
      ok := true;
      if !buf[i].valid {
        ok := IdeRw(i);
      }
    }

    /** bwrite: the data is on disk, and it is what the block contains. False is a panic. */
    method BWrite(i: nat) returns (ok: bool)
      requires Valid() && i < NBUF
      modifies this`buf, this`disk, this`content
      ensures var x := old(buf[i]); ok == (x.locked && x.dev == ROOTDEV && x.blockno < |old(disk)|)
      ensures ok ==> Valid() && var x := old(buf[i]);
        && buf == old(buf)[i := x.(valid := true, dirty := false)] && disk == old(disk)[x.blockno := x.data]
        && content == old(content)[x.blockno := x.data] && (x.valid ==> content == old(content))
    {
      if !buf[i].locked {
        return false;
      }
      ChangeAgrees(disk, buf, content, i, buf[i].(dirty := true));
      buf := buf[i := buf[i].(dirty := true)];
      ok := IdeRw(i);
    }

    /** The holder of a buffer changes its data. */
    method Modify(i: nat, x: Block)
      requires Valid() && i < NBUF && buf[i].locked && buf[i].valid && buf[i].dev == ROOTDEV
      modifies this`buf, this`content
      ensures Valid() && buf == old(buf)[i := old(buf[i]).(data := x)] && content == old(content)[buf[i].blockno := x]
    {
      ModifyAgrees(disk, buf, content, i, x);
      content := content[buf[i].blockno := x];
      buf := buf[i := buf[i].(data := x)];
    }

    /** log_write's b->flags |= B_DIRTY: the buffer is kept until it is written. */
    method Pin(i: nat)
      requires Valid() && i < NBUF && buf[i].locked && buf[i].valid
      modifies this`buf
      ensures Valid() && buf == old(buf)[i := old(buf[i]).(dirty := true)]
    {
      ChangeAgrees(disk, buf, content, i, buf[i].(dirty := true));
      buf := buf[i := buf[i].(dirty := true)];
    }

    /** The first half of brelse. False is a panic. The newest content is safe exactly if a change was written or pinned. */
    method ReleaseSleep(i: nat) returns (ok: bool)
      requires Valid() && i < NBUF
      modifies this`buf
      ensures ok == old(buf[i]).locked && buf == old(buf)[i := old(buf[i]).(locked := false)]
      ensures Valid() <==> Kept(disk, buf[i])
    {
      ok := buf[i].locked;
      ghost var x := buf[i].(locked := false);
      UnlockAgrees(disk, buf, content, i);
      assert Counted(buf[i := x], refs);
      buf := buf[i := buf[i].(locked := false)];
    }

    /** The second half: the reference is dropped, and the last one moves the buffer to the front of the list. */
    method Unref(i: nat, ghost t: Ref)
      requires Valid() && i < NBUF && t in refs[i] && (buf[i].locked ==> refs[i] != {t})
      modifies this`buf, this`refs, this`prev, this`next, this`ring
      ensures Valid() && buf == old(buf)[i := old(buf[i]).(refcnt := old(buf[i]).refcnt - 1)]
      ensures refs == old(refs)[i := old(refs[i]) - {t}]
      ensures if buf[i].refcnt > 0 then ring == old(ring) else
        exists k :: 1 <= k <= NBUF && old(ring)[k] == i && ring == Ring.InFront(Ring.Without(old(ring), k), i)
      ensures buf[i].refcnt == 0 ==> |ring| == NBUF + 1 && ring[1] == i
    {
      hide Agrees, Ring.Linked;
      CountAgrees(disk, buf, content, i, buf[i].refcnt - 1);
      buf := buf[i := buf[i].(refcnt := buf[i].refcnt - 1)];
      refs := refs[i := refs[i] - {t}];
      if buf[i].refcnt == 0 {
        MoveToFront(i);
      }
    }

    method MoveToFront(b: nat)
      requires Listed() && b < NBUF
      modifies this`prev, this`next, this`ring
      ensures Listed() && exists k :: 1 <= k <= NBUF && old(ring)[k] == b && ring == Ring.InFront(Ring.Without(old(ring), k), b)
    {
      assert b in ring;
      ghost var k :| 0 <= k < |ring| && ring[k] == b;
      Ring.Unlink(prev, next, ring, k);
      Ring.SameNodes(ring, k);
      ghost var w := Ring.Without(ring, k);
      prev := prev[next[b] := prev[b]];
      next := next[prev[b] := next[b]];
      Ring.Push(prev, next, w, b);
      next := next[b := next[HEAD]];
      prev := prev[b := HEAD];
      prev := prev[next[HEAD] := b];
      next := next[HEAD := b];
      ring := Ring.InFront(w, b);
    }
  }
}

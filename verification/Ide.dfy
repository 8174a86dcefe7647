/**
 ide.c: the queued, interrupt-driven driver, against memide.c, which does a request at once.
 Every method is one critical section under idelock, or the disk's own progress, so what
 each keeps holds in every interleaving of callers and interrupts. The disk makes no errors.
 */
module Ide {
  import opened Blocks
  import opened Options
  import opened Sequences

  const FSSIZE := 1000

  datatype Buf = Buf(dev: nat, blockno: nat, valid: bool, dirty: bool, data: Block) {
    /** Which block of which of the two disks: the driver looks at the low bit of dev. */
    function Key(): (nat, nat) { (dev % 2, blockno) }
    predicate Synced() { valid && !dirty }
  }

  /** What idestart gives the controller: a block, and for a write the data. */
  datatype Cmd = Cmd(disk: nat, blockno: nat, write: Option<Block>)

  function CmdFor(b: Buf): Cmd {
    Cmd(b.dev % 2, b.blockno, if b.dirty then Some(b.data) else None)
  }

  type Disks = d: seq<seq<Block>> | |d| == 2 && |d[0]| == 1000 && |d[1]| == 1000 witness [BlankDisk(1000), BlankDisk(1000)]

  function At(d: Disks, key: (nat, nat)): Block
    requires key.0 < 2 && key.1 < FSSIZE
  {
    d[key.0][key.1]
  }

  function Put(d: Disks, key: (nat, nat), x: Block): (r: Disks)
    requires key.0 < 2 && key.1 < FSSIZE
    ensures At(r, key) == x
    ensures forall k: (nat, nat) :: k.0 < 2 && k.1 < FSSIZE && k != key ==> At(r, k) == At(d, k)
  {
    var one: seq<Block> := d[key.0];
    d[key.0 := one[key.1 := x]]
  }

  /** iderw of memide.c, past its checks. */
  function MemIde(d: Disks, b: Buf): (Disks, Buf)
    requires b.blockno < FSSIZE
  {
    if b.dirty then (Put(d, b.Key(), b.data), b.(valid := true, dirty := false))
    else (d, b.(valid := true, data := At(d, b.Key())))
  }

  // ----- The queue -----

  /** From head, through qnext, the queue is q. */
  ghost predicate Chain(qnext: seq<Option<nat>>, head: Option<nat>, q: seq<nat>)
    decreases |q|
  {
    if q == [] then head == None
    else head == Some(q[0]) && q[0] < |qnext| && Chain(qnext, qnext[q[0]], q[1..])
  }

  lemma {:induction false} ChainKept(qnext: seq<Option<nat>>, qnext': seq<Option<nat>>, head: Option<nat>, q: seq<nat>)
    requires Chain(qnext, head, q) && |qnext'| == |qnext| && forall x :: x in q && x < |qnext| ==> qnext'[x] == qnext[x]
    ensures Chain(qnext', head, q)
    decreases |q|
  {
    if q != [] {
      assert q[0] in q;
      ChainKept(qnext, qnext', qnext[q[0]], q[1..]);
    }
  }

  /** The last node of a non-empty queue is made to point at b. */
  lemma {:induction false} ChainAppend(qnext: seq<Option<nat>>, head: Option<nat>, q: seq<nat>, b: nat)
    requires Chain(qnext, head, q) && q != [] && Distinct(q) && b < |qnext| && b !in q && qnext[b] == None
    ensures q[|q| - 1] < |qnext| && Chain(qnext[q[|q| - 1] := Some(b)], head, q + [b])
    decreases |q|
  {
    var rest := q[1..];
    if rest == [] {
      var qnext' := qnext[q[0] := Some(b)];
      assert (q + [b])[1..] == [b];
      assert Chain(qnext', Some(b), [b]);
    } else {
      assert rest[|rest| - 1] == q[|q| - 1];
      ChainAppend(qnext, qnext[q[0]], rest, b);
      assert (q + [b])[1..] == rest + [b];
      assert q[0] != rest[|rest| - 1];
    }
  }

  // ----- Requests -----

  /**
   Whoever is in the queue still needs the disk, and whoever is inside but not in the queue has
   been served and agrees with the disk. No two are for the same block.
   */
  ghost predicate InOrder(disks: Disks, buf: seq<Buf>, q: seq<nat>, inside: set<nat>) {
    && Distinct(q) && (forall b :: b in q ==> b in inside) && (forall b :: b in inside ==> b < |buf|)
    && (forall b, c :: b in inside && c in inside && b != c ==> buf[b].Key() != buf[c].Key())
    && (forall b :: b in q ==> !buf[b].Synced())
    && (forall b :: b in inside && b !in q ==> buf[b].Synced() && buf[b].blockno < FSSIZE && buf[b].data == At(disks, buf[b].Key()))
  }

  /** The oldest request is done as memide does it. */
  lemma Serve(disks: Disks, buf: seq<Buf>, q: seq<nat>, inside: set<nat>)
    requires InOrder(disks, buf, q, inside) && q != [] && q[0] < |buf| && buf[q[0]].blockno < FSSIZE
    ensures var (d, x) := MemIde(disks, buf[q[0]]); InOrder(d, buf[q[0] := x], q[1..], inside)
    ensures |q| >= 2 ==> q[1] < |buf| && q[1] != q[0]
  {
    var (d, x) := MemIde(disks, buf[q[0]]);
    var b := q[0];
    assert forall c :: c in q <==> c == b || c in q[1..];
    assert b in q && b !in q[1..];
    if |q| >= 2 { assert q[1] in q; }
    assert x.Key() == buf[b].Key() && x.data == At(d, x.Key());
    hide MemIde, At, Put;
    forall c | c in inside && c != b && c !in q ensures buf[c].data == At(d, buf[c].Key()) {
      Untouched(disks, buf[b], buf[c].Key());
    }
  }

  lemma Untouched(d: Disks, b: Buf, k: (nat, nat))
    requires b.blockno < FSSIZE && k.0 < 2 && k.1 < FSSIZE && k != b.Key()
    ensures At(MemIde(d, b).0, k) == At(d, k)
  {
  }

  /** A request joins in order exactly if nobody inside has a buffer for its block. */
  lemma Join(disks: Disks, buf: seq<Buf>, q: seq<nat>, inside: set<nat>, b: nat)
    requires InOrder(disks, buf, q, inside) && b < |buf| && b !in inside && !buf[b].Synced()
    ensures b !in q && Distinct(q)
    ensures InOrder(disks, buf, q + [b], inside + {b}) <==> forall c :: c in inside ==> buf[c].Key() != buf[b].Key()
  {
    assert forall c :: c in q + [b] <==> c in q || c == b;
    if InOrder(disks, buf, q + [b], inside + {b}) {
      forall c | c in inside ensures buf[c].Key() != buf[b].Key() {
        assert c in inside + {b} && b in inside + {b};
      }
    }
  }

  /** The controller works on the head of the queue. */
  ghost predicate Busy(active: Option<Cmd>, buf: seq<Buf>, q: seq<nat>) {
    if q == [] then active == None else q[0] < |buf| && buf[q[0]].blockno < FSSIZE && active == Some(CmdFor(buf[q[0]]))
  }

  lemma BusyJoin(active: Option<Cmd>, buf: seq<Buf>, q: seq<nat>, b: nat)
    requires Busy(active, buf, q) && b < |buf|
    ensures q != [] ==> Busy(active, buf, q + [b])
    ensures buf[b].blockno < FSSIZE ==> Busy(Some(CmdFor(buf[b])), buf, [b])
  {
  }

  class Driver {
    const havedisk1: bool
    var disks: Disks
    var active: Option<Cmd>          // the controller's command
    var buf: seq<Buf>
    var idequeue: Option<nat>
    var qnext: seq<Option<nat>>
    ghost var q: seq<nat>            // the queue
    ghost var inside: set<nat>       // buffers with a caller in iderw, who holds their lock
    ghost var came: map<nat, Buf>    // those buffers, as their callers came with them
    ghost var asked: seq<nat>        // in the order of the calls
    ghost var served: seq<nat>       // in the order of completion

    /** The head of the queue is the one active command, and requests finish in the order of the calls. */
    ghost predicate Valid()
      reads this
    {
      && |qnext| == |buf| && Chain(qnext, idequeue, q) && InOrder(disks, buf, q, inside) && asked == served + q
      && Faithful(buf, q, inside, came)
      && Busy(active, buf, q)
    }

    /** ideinit: nothing asked for yet. */
    constructor (disks: Disks, havedisk1: bool, buf: seq<Buf>)
      ensures Valid() && this.disks == disks && this.havedisk1 == havedisk1 && this.buf == buf && q == [] && inside == {}
    {
      this.disks, this.havedisk1, this.buf := disks, havedisk1, buf;
      active, idequeue, qnext := None, None, seq(|buf|, _ => None);
      q, inside, came, asked, served := [], {}, map[], [], [];
    }

    /** Between requests the holder of a buffer does with it what it likes. */
    method Change(b: nat, x: Buf)
      requires Valid() && b < |buf| && b !in inside
      modifies this`buf
      ensures Valid() && buf == old(buf)[b := x]
    {
      buf := buf[b := x];
    }

    /** The loop that finds the end of the queue. */
    method Append(b: nat)
      requires Chain(qnext, idequeue, q) && Distinct(q) && b < |qnext| && b !in q
      modifies this`idequeue, this`qnext, this`q
      ensures q == old(q) + [b] && Chain(qnext, idequeue, q) && |qnext| == |old(qnext)|
    {
      ChainKept(qnext, qnext[b := None], idequeue, q);
      qnext := qnext[b := None];
      if idequeue == None {
        idequeue := Some(b);
      } else {
        var p := idequeue.value;
        ghost var k := 0;
        while qnext[p] != None
          invariant 0 <= k < |q| && q == old(q) && p == q[k] && p < |qnext| && Chain(qnext, Some(p), q[k..])
          invariant qnext == old(qnext)[b := None] && idequeue == old(idequeue)
          decreases |q| - k
        {
          assert q[k..][1..] == q[k + 1..];
          p := qnext[p].value;
          k := k + 1;
        }
        assert q[k..][1..] == q[k + 1..];
        ChainAppend(qnext, idequeue, q, b);
        qnext := qnext[p := Some(b)];
      }
      q := q + [b];
    }

    /** idestart. False is a panic. */
    method IdeStart(b: nat) returns (ok: bool)
      requires b < |buf|
      modifies this`active
      ensures ok == (buf[b].blockno < FSSIZE) && active == if ok then Some(CmdFor(buf[b])) else old(active)
    {
      ok := buf[b].blockno < FSSIZE;
      if ok {
        active := Some(Cmd(buf[b].dev % 2, buf[b].blockno, if buf[b].dirty then Some(buf[b].data) else None));
      }
    }

    /** The request is last in the queue; whether it is to be started is still open. */
    method Enqueue(b: nat)
      requires Valid() && b < |buf| && b !in inside && !buf[b].Synced()
      modifies this`idequeue, this`qnext, this`q, this`inside, this`came, this`asked
      ensures q == old(q) + [b] && asked == old(asked) + [b] && inside == old(inside) + {b} && came == old(came)[b := buf[b]]
      ensures |qnext| == |buf| && Chain(qnext, idequeue, q) && asked == served + q && Faithful(buf, q, inside, came)
      ensures InOrder(disks, buf, q, inside) <==> forall c :: c in old(inside) ==> buf[c].Key() != buf[b].Key()
    {
      hide InOrder, Faithful, Distinct, CmdFor, Busy, Chain, Buf.Key;
      Join(disks, buf, q, inside, b);
      JoinFaithful(buf, q, inside, came, b);
      Append(b);
      inside, came, asked := inside + {b}, came[b := buf[b]], asked + [b];
    }

    /**
     iderw up to its wait loop: the request is last in the queue. The caller holds the buffer's lock. Two callers with
     buffers for the same block, which the cache does not let happen, are the one thing that breaks the order.
     */
    method IdeRw(b: nat) returns (ok: bool)
      requires Valid() && b < |buf| && b !in inside
      modifies this`active, this`idequeue, this`qnext, this`q, this`inside, this`came, this`asked
      ensures ok == (!buf[b].Synced() && (buf[b].dev == 0 || havedisk1) && (old(q) == [] ==> buf[b].blockno < FSSIZE))
      ensures ok ==> (Valid() <==> forall c :: c in old(inside) ==> buf[c].Key() != buf[b].Key())
      ensures ok ==> q == old(q) + [b] && asked == old(asked) + [b] && inside == old(inside) + {b} && came == old(came)[b := buf[b]]
    {
      if buf[b].valid && !buf[b].dirty {
        return false;
      }
      if buf[b].dev != 0 && !havedisk1 {
        return false;
      }
      BusyJoin(active, buf, q, b);
      if q != [] { FirstNot(disks, buf, q, inside, b); }
      hide InOrder, Faithful, CmdFor, Busy, Chain, Buf.Key;
      Enqueue(b);
      ok := true;
      FirstIs(qnext, idequeue, q);
      if idequeue == Some(b) {
        assert q == [b];
        ok := IdeStart(b);
      }
    }

    /**
     The disk has done the active command, and ideintr. The oldest request, and it alone, is
     served, just as memide serves it, and the next one is started: a dirty buffer is now on the
     disk, and one that is not dirty holds what the disk has. False is a panic.
     */
    method IdeIntr() returns (ok: bool)
      requires Valid()
      modifies this`disks, this`active, this`buf, this`idequeue, this`q, this`served
      ensures old(q) == [] ==> ok && Valid() && disks == old(disks) && buf == old(buf) && served == old(served)
      ensures old(q) != [] ==>
        && ok == (|old(q)| >= 2 ==> old(q)[1] < |old(buf)| && old(buf)[old(q)[1]].blockno < FSSIZE)
        && served == old(served) + [old(q)[0]] && q == old(q)[1..] && (ok ==> Valid())
      ensures old(q) != [] ==>
        && old(q)[0] < |old(buf)| == |buf| && buf == old(buf)[old(q)[0] := buf[old(q)[0]]]
        && Transferred(old(disks), disks, old(buf)[old(q)[0]], buf[old(q)[0]])
    {
      hide InOrder, Transferred, Faithful, Chain, CmdFor, Buf.Key;
      FirstIs(qnext, idequeue, q);
      if idequeue == None {
        return true;
      }
      Retire();
      FirstIs(qnext, idequeue, q);
      ok := true;
      if idequeue != None {
        ok := IdeStart(idequeue.value);
      }
    }

    /** The head is served and leaves the queue; the next one is not started yet. */
    method Retire()
      requires Valid() && q != []
      modifies this`disks, this`active, this`buf, this`idequeue, this`q, this`served
      ensures q == old(q)[1..] && served == old(served) + [old(q)[0]] && active == None
      ensures old(q)[0] < |old(buf)| == |buf| && buf == old(buf)[old(q)[0] := buf[old(q)[0]]]
      ensures Transferred(old(disks), disks, old(buf)[old(q)[0]], buf[old(q)[0]])
      ensures |qnext| == |buf| && Chain(qnext, idequeue, q) && asked == served + q
      ensures InOrder(disks, buf, q, inside) && Faithful(buf, q, inside, came)
      ensures |old(q)| >= 2 ==> old(q)[1] < |buf| && buf[old(q)[1]] == old(buf)[old(q)[1]]
    {
      hide InOrder, MemIde, Transferred, Faithful, Chain, CmdFor, Buf.Key;
      FirstIs(qnext, idequeue, q);
      Serve(disks, buf, q, inside);
      ServedFaithful(disks, buf, q, inside, came);
      Complete(idequeue.value);
    }

    /** The disk finishes its command, and ideintr takes the result to the head of the queue. */
    method Complete(b: nat)
      requires q != [] && idequeue == Some(q[0]) && b == q[0] && b < |buf| && b < |qnext| && buf[b].blockno < FSSIZE
      requires active == Some(CmdFor(buf[b]))
      modifies this`disks, this`active, this`buf, this`idequeue, this`q, this`served
      ensures disks == MemIde(old(disks), old(buf)[b]).0 && buf == old(buf)[b := MemIde(old(disks), old(buf)[b]).1]
      ensures |buf| == |old(buf)| && Transferred(old(disks), disks, old(buf)[b], buf[b])
      ensures idequeue == qnext[b] && active == None && served == old(served) + [b] && q == old(q)[1..]
    {
      MemIdeDoes(disks, buf[b]);
      if active.value.write.Some? {
        disks := Put(disks, (active.value.disk, active.value.blockno), active.value.write.value);   // the disk
      }
      idequeue := qnext[b];
      if !buf[b].dirty {
        buf := buf[b := buf[b].(data := disks[buf[b].dev % 2][buf[b].blockno])];
      }
      buf := buf[b := buf[b].(valid := true, dirty := false)];
      served, q, active := served + [b], q[1..], None;
    }

    /**
     The test of iderw's wait loop. When it lets the caller out, the buffer is valid, clean and equal to the disk block;
     and a caller that came with a dirty buffer has its data as it was.
     */
    method Finished(b: nat) returns (done: bool)
      requires Valid() && b in inside
      modifies this`inside, this`came
      ensures Valid() && (done <==> b !in q) && inside == if done then old(inside) - {b} else old(inside)
      ensures came == if done then old(came) - {b} else old(came)
      ensures b in old(came) && buf[b].Key() == old(came)[b].Key() && (done && old(came)[b].dirty ==> buf[b].data == old(came)[b].data)
      ensures done ==> buf[b].valid && !buf[b].dirty && buf[b].blockno < FSSIZE && buf[b].data == At(disks, buf[b].Key())
    {
      done := buf[b].valid && !buf[b].dirty;
      if done {
        inside, came := inside - {b}, came - {b};
      }
    }
  }

  /** A transfer of buffer x, which is y afterwards: a dirty one goes to its block of the disk, another is filled from it. */
  ghost predicate Transferred(d: Disks, d': Disks, x: Buf, y: Buf) {
    && x.blockno < FSSIZE && y.dev == x.dev && y.blockno == x.blockno && y.valid && !y.dirty
    && (forall k: (nat, nat) :: k.0 < 2 && k.1 < FSSIZE && !(x.dirty && k == (x.dev % 2, x.blockno)) ==> d'[k.0][k.1] == d[k.0][k.1])
    && (if x.dirty then y.data == x.data && d'[x.dev % 2][x.blockno] == x.data else y.data == d[x.dev % 2][x.blockno])
  }

  /** And nothing else is one: what memide does is the only transfer there is. */
  lemma OneTransfer(d: Disks, d': Disks, x: Buf, y: Buf)
    requires Transferred(d, d', x, y)
    ensures (d', y) == MemIde(d, x)
  {
    var m := MemIde(d, x).0;
    forall i, j | 0 <= i < 2 && 0 <= j < FSSIZE ensures d'[i][j] == m[i][j] {
      var k: (nat, nat) := (i, j);
      assert d'[k.0][k.1] == At(m, k);
    }
    assert d'[0] == m[0] && d'[1] == m[1];
    assert d' == m;
  }

  lemma MemIdeDoes(d: Disks, x: Buf)
    requires x.blockno < FSSIZE
    ensures Transferred(d, MemIde(d, x).0, x, MemIde(d, x).1)
  {
    var d' := MemIde(d, x).0;
    forall k: (nat, nat) | k.0 < 2 && k.1 < FSSIZE && !(x.dirty && k == x.Key()) ensures d'[k.0][k.1] == d[k.0][k.1] {
      assert At(d', k) == At(d, k);
    }
    assert At(d', x.Key()) == d'[x.dev % 2][x.blockno];
  }

  /** Whoever waits has its buffer as it came; whoever was served has the data it came with, if it came to write. */
  ghost predicate Faithful(buf: seq<Buf>, q: seq<nat>, inside: set<nat>, came: map<nat, Buf>) {
    && came.Keys == inside
    && (forall b :: b in inside ==> b < |buf| && buf[b].dev == came[b].dev && buf[b].blockno == came[b].blockno)
    && (forall b :: b in inside && b in q ==> buf[b] == came[b])
    && (forall b :: b in inside && came[b].dirty ==> buf[b].data == came[b].data)
  }

  lemma JoinFaithful(buf: seq<Buf>, q: seq<nat>, inside: set<nat>, came: map<nat, Buf>, b: nat)
    requires Faithful(buf, q, inside, came) && b < |buf| && b !in inside
    ensures Faithful(buf, q + [b], inside + {b}, came[b := buf[b]])
  {
    assert forall c :: c in q + [b] <==> c in q || c == b;
  }

  lemma ServedFaithful(d: Disks, buf: seq<Buf>, q: seq<nat>, inside: set<nat>, came: map<nat, Buf>)
    requires InOrder(d, buf, q, inside) && q != [] && q[0] < |buf| && buf[q[0]].blockno < FSSIZE && Faithful(buf, q, inside, came)
    ensures Faithful(buf[q[0] := MemIde(d, buf[q[0]]).1], q[1..], inside, came)
  {
    MemIdeDoes(d, buf[q[0]]);
    assert q[0] in q && q[0] !in q[1..];
    assert forall c :: c in q[1..] ==> c in q;
  }

  lemma FirstNot(disks: Disks, buf: seq<Buf>, q: seq<nat>, inside: set<nat>, b: nat)
    requires InOrder(disks, buf, q, inside) && b !in inside && q != []
    ensures q[0] != b
  {
    assert q[0] in q;
  }

  lemma FirstIs(qnext: seq<Option<nat>>, head: Option<nat>, q: seq<nat>)
    requires Chain(qnext, head, q)
    ensures if q == [] then head == None else head == Some(q[0]) && q[0] < |qnext| && Chain(qnext, qnext[q[0]], q[1..])
  {
  }
}

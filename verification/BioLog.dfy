/**
 The buffers of bio.c as the cache of the log's machine: a valid buffer is an entry of its cache map,
 a dirty one an entry that may not go. What bget, bread, bwrite and log_write do to the buffers is
 what the machine's steps do to the map.
 */
module BioLog {
  import opened Blocks
  import Bio
  import M = LogMachine

  predicate Live(x: Bio.Buf) { x.valid && x.dev == Bio.ROOTDEV }
  predicate Pinned(x: Bio.Buf) { Live(x) && x.dirty }

  /** Block b is in a valid buffer, or in a dirty one. */
  ghost predicate Cached(buf: seq<Bio.Buf>, b: nat) { exists i :: 0 <= i < |buf| && Live(buf[i]) && buf[i].blockno == b }
  ghost predicate Dirty(buf: seq<Bio.Buf>, b: nat) { exists i :: 0 <= i < |buf| && Pinned(buf[i]) && buf[i].blockno == b }

  /** The machine's disk, and its cache and what is dirty in it, are these. */
  ghost predicate Shows(disk: seq<Block>, buf: seq<Bio.Buf>, s: M.State) {
    && s.disk == disk
    && (forall b :: b in s.cache ==> Cached(buf, b)) && (forall b :: b in s.dirty ==> Dirty(buf, b))
    && (forall i :: 0 <= i < |buf| && Live(buf[i]) ==> buf[i].blockno in s.cache && s.cache[buf[i].blockno] == buf[i].data)
    && (forall i :: 0 <= i < |buf| && Pinned(buf[i]) ==> buf[i].blockno in s.dirty)
  }

  lemma OtherBlock(buf: seq<Bio.Buf>, i: nat, j: nat)
    requires Bio.Unique(buf) && i < |buf| && j < |buf| && i != j && buf[i].dev == buf[j].dev == Bio.ROOTDEV
    ensures buf[i].blockno != buf[j].blockno
  {
  }

  /** A block that another buffer holds is still held. */
  lemma StillHeld(buf: seq<Bio.Buf>, i: nat, x: Bio.Buf, b: nat)
    requires i < |buf| && (Live(buf[i]) ==> buf[i].blockno != b)
    ensures Cached(buf, b) ==> Cached(buf[i := x], b)
    ensures Dirty(buf, b) ==> Dirty(buf[i := x], b)
  {
    if j :| 0 <= j < |buf| && Live(buf[j]) && buf[j].blockno == b { assert Live(buf[i := x][j]); }
    if j :| 0 <= j < |buf| && Pinned(buf[j]) && buf[j].blockno == b { assert Pinned(buf[i := x][j]); }
  }

  /** Changing buffer i, which stays for its block, changes that entry. */
  lemma Changed(disk: seq<Block>, buf: seq<Bio.Buf>, i: nat, x: Bio.Buf, s: M.State, s': M.State)
    requires Bio.Unique(buf) && Shows(disk, buf, s) && i < |buf|
    requires buf[i].dev == Bio.ROOTDEV && x.Is(buf[i].dev, buf[i].blockno) && x.valid
    requires s'.cache == s.cache[x.blockno := x.data]
    requires s'.dirty == if x.dirty then s.dirty + {x.blockno} else s.dirty - {x.blockno}
    ensures Bio.Unique(buf[i := x]) && Shows(s'.disk, buf[i := x], s')
  {
    var b, buf' := x.blockno, buf[i := x];
    assert buf'[i] == x;
    forall c | c in s'.cache ensures Cached(buf', c) {
      if c == b { assert Live(buf'[i]); } else { StillHeld(buf, i, x, c); }
    }
    forall c | c in s'.dirty ensures Dirty(buf', c) {
      if c == b { assert Pinned(buf'[i]); } else { StillHeld(buf, i, x, c); }
    }
    forall j | 0 <= j < |buf'| && Live(buf'[j]) ensures buf'[j].blockno in s'.cache && s'.cache[buf'[j].blockno] == buf'[j].data {
      if j != i { OtherBlock(buf, i, j); }
    }
    forall j | 0 <= j < |buf'| && Pinned(buf'[j]) ensures buf'[j].blockno in s'.dirty {
      if j != i { OtherBlock(buf, i, j); }
    }
  }

  /** What no valid buffer holds is not in the cache. */
  lemma NotCached(disk: seq<Block>, buf: seq<Bio.Buf>, i: nat, s: M.State)
    requires Bio.Unique(buf) && Shows(disk, buf, s) && i < |buf| && buf[i].dev == Bio.ROOTDEV
    ensures !buf[i].valid ==> buf[i].blockno !in s.cache
    ensures !Pinned(buf[i]) ==> buf[i].blockno !in s.dirty
  {
  }

  /** bread of a block that is not cached is Fetch. */
  lemma FillIsFetch(c: M.Config, disk: seq<Block>, buf: seq<Bio.Buf>, i: nat, s: M.State)
    requires Bio.Unique(buf) && Shows(disk, buf, s) && i < |buf|
    requires buf[i].dev == Bio.ROOTDEV && !buf[i].valid && !buf[i].dirty && buf[i].blockno < |disk|
    ensures var b := buf[i].blockno; var buf' := buf[i := buf[i].(valid := true, data := disk[b])];
            Bio.Unique(buf') && M.Do(c, s, M.Fetch(b)).Next? && Shows(disk, buf', M.Do(c, s, M.Fetch(b)).s)
  {
    var b := buf[i].blockno;
    NotCached(disk, buf, i, s);
    var s' := M.Do(c, s, M.Fetch(b)).s;
    Changed(disk, buf, i, buf[i].(valid := true, data := disk[b]), s, s');
  }

  /** bwrite is WriteBack. */
  lemma WriteIsWriteBack(disk: seq<Block>, buf: seq<Bio.Buf>, i: nat, s: M.State)
    requires Bio.Unique(buf) && Shows(disk, buf, s) && i < |buf| && buf[i].dev == Bio.ROOTDEV && buf[i].blockno < |disk|
    ensures var b, x := buf[i].blockno, buf[i].data; var buf' := buf[i := buf[i].(valid := true, dirty := false)];
            Bio.Unique(buf') && M.WriteBack(s, b, x).Next? && Shows(disk[b := x], buf', M.WriteBack(s, b, x).s)
  {
    Changed(disk, buf, i, buf[i].(valid := true, dirty := false), s, M.WriteBack(s, buf[i].blockno, buf[i].data).s);
  }

  /** A change under the lock and log_write's pin are what Append does to cache and dirty set. */
  lemma PinIsAppend(disk: seq<Block>, buf: seq<Bio.Buf>, i: nat, x: Block, s: M.State)
    requires Bio.Unique(buf) && Shows(disk, buf, s) && i < |buf| && Live(buf[i])
    ensures var b := buf[i].blockno; var buf' := buf[i := buf[i].(data := x, dirty := true)];
            Bio.Unique(buf') && Shows(disk, buf', s.(cache := s.cache[b := x], dirty := s.dirty + {b}))
  {
    var b := buf[i].blockno;
    Changed(disk, buf, i, buf[i].(data := x, dirty := true), s, s.(cache := s.cache[b := x], dirty := s.dirty + {b}));
  }

  /** bget's recycling is Evict of what the buffer held, if it held anything. */
  lemma RecycleIsEvict(c: M.Config, disk: seq<Block>, buf: seq<Bio.Buf>, i: nat, dev: nat, b: nat, s: M.State)
    requires Bio.Unique(buf) && Shows(disk, buf, s) && i < |buf| && buf[i].Free() && forall j :: 0 <= j < |buf| ==> !buf[j].Is(dev, b)
    ensures var buf' := buf[i := buf[i].(dev := dev, blockno := b, valid := false, dirty := false, refcnt := 1)];
            && Bio.Unique(buf')
            && if Live(buf[i]) then
                 M.Do(c, s, M.Evict(buf[i].blockno)).Next? && Shows(disk, buf', M.Do(c, s, M.Evict(buf[i].blockno)).s)
               else Shows(disk, buf', s)
  {
    var x := buf[i].(dev := dev, blockno := b, valid := false, dirty := false, refcnt := 1);
    if Live(buf[i]) {
      NotCached(disk, buf, i, s);
      Gone(disk, buf, i, x, s, M.Do(c, s, M.Evict(buf[i].blockno)).s);
    } else {
      Gone(disk, buf, i, x, s, s);
    }
  }

  lemma Gone(disk: seq<Block>, buf: seq<Bio.Buf>, i: nat, x: Bio.Buf, s: M.State, s': M.State)
    requires Bio.Unique(buf) && Shows(disk, buf, s) && i < |buf| && !buf[i].dirty && !Live(x)
    requires s'.disk == s.disk && s'.dirty == s.dirty && s'.cache == if Live(buf[i]) then s.cache - {buf[i].blockno} else s.cache
    ensures Shows(disk, buf[i := x], s')
  {
    var buf' := buf[i := x];
    forall d | d in s'.cache ensures Cached(buf', d) { StillHeld(buf, i, x, d); }
    forall d | d in s'.dirty ensures Dirty(buf', d) {
      if Live(buf[i]) { NotCached(disk, buf, i, s); }
      StillHeld(buf, i, x, d);
    }
    forall j | 0 <= j < |buf'| && Live(buf'[j]) ensures buf'[j].blockno in s'.cache && s'.cache[buf'[j].blockno] == buf'[j].data {
      if Live(buf[i]) { OtherBlock(buf, i, j); }
    }
  }

  // ----- Runs -----

  /** What the code does to a buffer and the disk; Touch is a change of reference count or lock. */
  datatype Step =
    | Recycle(i: nat, dev: nat, b: nat)
    | Fill(i: nat)
    | Write(i: nat)
    | Pin(i: nat, data: Block)
    | Touch(i: nat, refcnt: nat, locked: bool)

  predicate Can(disk: seq<Block>, buf: seq<Bio.Buf>, t: Step) {
    t.i < |buf| &&
    match t
    case Recycle(i, dev, b) => buf[i].Free() && forall j :: 0 <= j < |buf| ==> !buf[j].Is(dev, b)
    case Fill(i) => buf[i].dev == Bio.ROOTDEV && !buf[i].valid && !buf[i].dirty && buf[i].blockno < |disk|
    case Write(i) => buf[i].dev == Bio.ROOTDEV && buf[i].blockno < |disk|
    case Pin(i, data) => Live(buf[i])
    case Touch(i, refcnt, locked) => true
  }

  function OnDisk(disk: seq<Block>, buf: seq<Bio.Buf>, t: Step): seq<Block>
    requires Can(disk, buf, t)
  {
    if t.Write? then disk[buf[t.i].blockno := buf[t.i].data] else disk
  }

  function OnBuf(disk: seq<Block>, buf: seq<Bio.Buf>, t: Step): seq<Bio.Buf>
    requires Can(disk, buf, t)
  {
    buf[t.i :=
      match t
      case Recycle(i, dev, b) => buf[i].(dev := dev, blockno := b, valid := false, dirty := false, refcnt := 1)
      case Fill(i) => buf[i].(valid := true, data := disk[buf[i].blockno])
      case Write(i) => buf[i].(valid := true, dirty := false)
      case Pin(i, data) => buf[i].(data := data, dirty := true)
      case Touch(i, refcnt, locked) => buf[i].(refcnt := refcnt, locked := locked)]
  }

  /** The machine's step for it: Evict, Fetch, the write-back of a commit's tick, Append's change of the cache, or none. */
  function OnMachine(c: M.Config, buf: seq<Bio.Buf>, t: Step, s: M.State): M.Outcome
    requires t.i < |buf|
  {
    var b := buf[t.i].blockno;
    match t
    case Recycle(i, dev, _) => if Live(buf[i]) then M.Do(c, s, M.Evict(b)) else M.Next(s)
    case Fill(i) => M.Do(c, s, M.Fetch(b))
    case Write(i) => M.WriteBack(s, b, buf[i].data)
    case Pin(i, data) => M.Next(s.(cache := s.cache[b := data], dirty := s.dirty + {b}))
    case Touch(i, _, _) => M.Next(s)
  }

  lemma StepShows(c: M.Config, disk: seq<Block>, buf: seq<Bio.Buf>, t: Step, s: M.State)
    requires Bio.Unique(buf) && Shows(disk, buf, s) && Can(disk, buf, t)
    ensures Bio.Unique(OnBuf(disk, buf, t)) && OnMachine(c, buf, t, s).Next?
    ensures Shows(OnDisk(disk, buf, t), OnBuf(disk, buf, t), OnMachine(c, buf, t, s).s)
  {
    hide Bio.Unique, Shows;
    match t
    case Recycle(i, dev, b) => RecycleIsEvict(c, disk, buf, i, dev, b, s);
    case Fill(i) => FillIsFetch(c, disk, buf, i, s);
    case Write(i) => WriteIsWriteBack(disk, buf, i, s);
    case Pin(i, data) => PinIsAppend(disk, buf, i, data, s);
    case Touch(i, refcnt, locked) => TouchShows(disk, buf, i, buf[i].(refcnt := refcnt, locked := locked), s);
  }

  lemma TouchShows(disk: seq<Block>, buf: seq<Bio.Buf>, i: nat, x: Bio.Buf, s: M.State)
    requires Bio.Unique(buf) && Shows(disk, buf, s) && i < |buf| && x == buf[i].(refcnt := x.refcnt, locked := x.locked)
    ensures Bio.Unique(buf[i := x]) && Shows(disk, buf[i := x], s)
  {
    var buf' := buf[i := x];
    forall b | b in s.cache ensures Cached(buf', b) {
      var j :| 0 <= j < |buf| && Live(buf[j]) && buf[j].blockno == b;
      assert Live(buf'[j]);
    }
    forall b | b in s.dirty ensures Dirty(buf', b) {
      var j :| 0 <= j < |buf| && Pinned(buf[j]) && buf[j].blockno == b;
      assert Pinned(buf'[j]);
    }
  }

  /** The buffers and the disk go through these steps, one after the other. */
  ghost predicate Runs(disk: seq<Block>, buf: seq<Bio.Buf>, ts: seq<Step>, disk': seq<Block>, buf': seq<Bio.Buf>)
    decreases |ts|
  {
    if ts == [] then disk' == disk && buf' == buf
    else Can(disk, buf, ts[0]) && Runs(OnDisk(disk, buf, ts[0]), OnBuf(disk, buf, ts[0]), ts[1..], disk', buf')
  }

  /** The machine follows. */
  ghost predicate Follows(c: M.Config, disk: seq<Block>, buf: seq<Bio.Buf>, ts: seq<Step>, s: M.State, s': M.State)
    decreases |ts|
  {
    if ts == [] then s' == s
    else
      && Can(disk, buf, ts[0]) && OnMachine(c, buf, ts[0], s).Next?
      && Follows(c, OnDisk(disk, buf, ts[0]), OnBuf(disk, buf, ts[0]), ts[1..], OnMachine(c, buf, ts[0], s).s, s')
  }

  /** Whatever the buffers go through, the machine follows, and its cache, its dirty set and its disk are theirs. */
  lemma {:induction false} RunShows(c: M.Config, disk: seq<Block>, buf: seq<Bio.Buf>, ts: seq<Step>,
                                    disk': seq<Block>, buf': seq<Bio.Buf>, s: M.State) returns (s': M.State)
    requires Bio.Unique(buf) && Shows(disk, buf, s) && Runs(disk, buf, ts, disk', buf')
    ensures Follows(c, disk, buf, ts, s, s') && Shows(disk', buf', s') && Bio.Unique(buf')
    decreases |ts|
  {
    hide Bio.Unique, Shows, OnMachine, OnBuf, OnDisk;
    if ts == [] {
      s' := s;
    } else {
      StepShows(c, disk, buf, ts[0], s);
      s' := RunShows(c, OnDisk(disk, buf, ts[0]), OnBuf(disk, buf, ts[0]), ts[1..], disk', buf', OnMachine(c, buf, ts[0], s).s);
    }
  }

  /** So it is from the start: no buffer valid, and a machine that has just come up. */
  lemma StartShows(disk: seq<Block>, buf: seq<Bio.Buf>, nproc: nat, nextOp: nat)
    requires forall i :: 0 <= i < |buf| ==> !buf[i].valid
    ensures Shows(disk, buf, M.Rebooted(disk, nproc, nextOp))
  {
  }
}

/**
 log.c as it is written: the in-memory log, its loops over blocks and headers, and a
 record of every disk that a crash could leave behind while they run.
 */
module LogCode {
  import opened Blocks
  import opened LogLayout
  import opened LogMachine
  import opened LogRefinement
  import opened Sequences

  /** Every disk in ds recovers to d. */
  ghost predicate Images(l: Layout, ds: seq<Disk>, d: Disk) {
    forall i :: 0 <= i < |ds| ==> Image(l, ds[i], d)
  }

  datatype EndResult = Commits | Leaves | EndPanic

  class Log {
    const l: Layout
    var disk: Disk
    var cache: map<nat, Block>
    var dirty: set<nat>
    var block: array<nat>        // lh.block
    var n: nat                   // lh.n
    var outstanding: int
    var committing: bool
    ghost var crashes: seq<Disk> // the disk after each write so far

    ghost function Now(): State
      requires n <= block.Length
      reads this, block
    {
      State(disk, cache, dirty, block[..n], outstanding, committing, [], Up, 0)
    }

    ghost function Conf(): Config { Config(l, 0) }

    /** Memory-safe and coherent: what every function below keeps. */
    ghost predicate Valid()
      reads this, block
    {
      block.Length == LOGSIZE && n <= LOGSIZE && Shape(Conf(), Now())
    }

    /** boot: initlog before recovery. */
    constructor (l: Layout, disk: Disk)
      requires GoodDisk(l, disk)
      ensures Valid() && this.l == l && this.disk == disk && n == 0 && dirty == {} && cache == map[]
      ensures outstanding == 0 && !committing && crashes == []
    {
      this.l, this.disk := l, disk;
      cache, dirty, n, outstanding, committing := map[], {}, 0, 0, false;
      block := new nat[LOGSIZE];
      crashes := [];
    }

    method Bread(b: nat) returns (v: Block)
      requires Valid() && b < l.nblocks
      modifies this`cache
      ensures Valid() && v == old(View(Now(), b)) && Now() == old(Now()).(cache := cache)
      ensures cache == if b in old(cache) then old(cache) else old(cache)[b := disk[b]]
    {
      if b !in cache {
        cache := cache[b := disk[b]];
      }
      v := cache[b];
    }

    method Bwrite(b: nat, v: Block)
      requires Valid() && b < l.nblocks
      modifies this`disk, this`cache, this`dirty, this`crashes
      ensures Valid() && WriteBack(old(Now()), b, v) == Next(Now())
      ensures crashes == old(crashes) + [disk]
    {
      disk, cache, dirty := disk[b := v], cache[b := v], dirty - {b};
      crashes := crashes + [disk];
    }

    /** The caller's half of begin_op's loop: in, or asleep until the log is woken. */
    method BeginOp() returns (admitted: bool)
      requires Valid()
      modifies this`outstanding
      ensures Valid() && admitted == (!committing && n + (old(outstanding) + 1) * MAXOPBLOCKS <= LOGSIZE)
      ensures outstanding == old(outstanding) + if admitted then 1 else 0
    {
      if committing {
        admitted := false;
      } else if n + (outstanding + 1) * MAXOPBLOCKS > LOGSIZE {
        admitted := false;
      } else {
        outstanding := outstanding + 1;
        admitted := true;
      }
    }

    /** The absorption loop. */
    method FindSlot(b: nat) returns (i: nat)
      requires n <= block.Length
      ensures i == Find(block[..n], b)
    {
      i := 0;
      while i < n
        invariant 0 <= i <= n && forall k :: 0 <= k < i ==> block[k] != b
      {
        if block[i] == b { break; }
        i := i + 1;
      }
      FirstIs(block[..n], b, i);
    }

    /** log_write of a buffer for block b now holding v; false is a panic. */
    method LogWrite(b: nat, v: Block) returns (ok: bool)
      requires Valid() && l.Home(b)
      modifies this`n, this`cache, this`dirty, block
      ensures Valid()
      ensures ok == !(old(n) >= LOGSIZE || old(n) >= l.size - 1 || outstanding < 1)
      ensures !ok ==> Now() == old(Now())
      ensures ok ==> Now() == old(Now()).(lh := Absorb(old(block[..n]), b), cache := old(cache)[b := v], dirty := old(dirty) + {b})
    {
      if n >= LOGSIZE || n >= l.size - 1 {
        return false;
      }
      if outstanding < 1 {
        return false;
      }
      ghost var lh := block[..n];
      var i := FindSlot(b);
      block[i] := b;
      if i == n {
        n := n + 1;
      }
      cache, dirty := cache[b := v], dirty + {b};
      ok := true;
      assert block[..n] == Absorb(lh, b);
      forall k | 0 <= k < n ensures l.Home(block[..n][k]) {
        assert block[..n][k] in Absorb(lh, b);
      }
    }

    method EndOp() returns (r: EndResult)
      requires Valid()
      modifies this`outstanding, this`committing
      ensures Valid() && outstanding == old(outstanding) - 1
      ensures r == if old(committing) then EndPanic else if old(outstanding) == 1 then Commits else Leaves
      ensures committing == (old(committing) || r == Commits)
    {
      outstanding := outstanding - 1;
      if committing {
        return EndPanic;
      }
      if outstanding == 0 {
        committing := true;
        r := Commits;
      } else {
        r := Leaves;
      }
    }

    /** One turn of write_log: the block's cached contents go to its log slot. */
    method CopyToLog(tail: nat, ghost d: Disk, ghost m: Disk)
      requires Valid() && tail < n && |d| == |m| == l.nblocks && PhaseOk(Conf(), Now(), d, m, WritingLog(tail))
      modifies this`disk, this`cache, this`dirty, this`crashes
      ensures Valid() && PhaseOk(Conf(), Now(), d, m, WritingLog(tail + 1))
      ensures crashes == old(crashes) + [disk] && Image(l, disk, d)
    {
      ghost var s := Now();
      var from := Bread(block[tail]);
      ghost var s1 := Now();
      FetchedPhase(Conf(), s, s1, block[tail], d, m, WritingLog(tail));
      Bwrite(l.Slot(tail), from);
      LogBlockWritten(Conf(), s1, tail, Now(), d, m);
      PhaseImage(Conf(), Now(), d, m, WritingLog(tail + 1));
    }

    /** The group's contents are in the log's slots, and every disk on the way still recovers to d. */
    method WriteLog(ghost d: Disk, ghost m: Disk)
      requires Valid() && n > 0 && |d| == |m| == l.nblocks && Quiet(Conf(), Now(), d, m)
      modifies this`disk, this`cache, this`dirty, this`crashes
      ensures Valid() && PhaseOk(Conf(), Now(), d, m, WritingLog(n))
      ensures old(crashes) <= crashes && Images(l, crashes[|old(crashes)|..], d)
    {
      ghost var before := crashes;
      var tail := 0;
      while tail < n
        invariant 0 <= tail <= n && Valid() && PhaseOk(Conf(), Now(), d, m, WritingLog(tail))
        invariant before <= crashes && Images(l, crashes[|before|..], d)
      {
        CopyToLog(tail, d, m);
        tail := tail + 1;
      }
    }

    /** One turn of install_trans: the log slot's contents go home. */
    method CopyHome(tail: nat, ghost d: Disk)
      requires Valid() && tail < n && |d| == l.nblocks && Copying(Conf(), Now(), d, tail) && OnlyTail(Now(), tail)
      modifies this`disk, this`cache, this`dirty, this`crashes
      ensures Valid() && Copying(Conf(), Now(), d, tail + 1) && OnlyTail(Now(), tail + 1)
      ensures crashes == old(crashes) + [disk] && Image(l, disk, d)
    {
      ghost var s := Now();
      var logged := Bread(l.Slot(tail));
      ghost var s1 := Now();
      FetchedCopy(Conf(), s, s1, l.Slot(tail), d, tail);
      Bwrite(block[tail], logged);
      TailShrinks(block[..n], tail);
      BlockInstalled(Conf(), s1, tail, Now(), d);
      CopyingImage(Conf(), Now(), d, tail + 1);
    }

    /** Home and log agree on the group, nothing stays pinned, and every disk on the way still recovers to d. */
    method InstallTrans(ghost d: Disk)
      requires Valid() && |d| == l.nblocks && Copying(Conf(), Now(), d, 0) && OnlyTail(Now(), 0)
      modifies this`disk, this`cache, this`dirty, this`crashes
      ensures Valid() && Copying(Conf(), Now(), d, n) && dirty == {}
      ensures old(crashes) <= crashes && Images(l, crashes[|old(crashes)|..], d)
    {
      ghost var before := crashes;
      var tail := 0;
      while tail < n
        invariant 0 <= tail <= n && Valid() && Copying(Conf(), Now(), d, tail) && OnlyTail(Now(), tail)
        invariant before <= crashes && Images(l, crashes[|before|..], d)
      {
        CopyHome(tail, d);
        tail := tail + 1;
      }
    }

    /** write_head's loop: n and the first n entries overwritten, the rest left as it was. */
    method EncodeHead(h0: Block) returns (h: Block)
      requires block.Length == LOGSIZE && n <= LOGSIZE && Encodable(block[..n])
      ensures h == PutHeader(h0, block[..n])
    {
      hide WithWord, WordAt;
      ghost var lh := block[..n];
      h := WithWord(h0, 0, n);
      ghost var h1 := h;
      var i := 0;
      while i < n
        invariant 0 <= i <= n && h == PutEntries(h1, lh, i)
      {
        h := WithWord(h, 1 + i, block[i]);
        i := i + 1;
      }
    }

    /** One disk write of the list as a header; with n > 0 it commits the group. */
    method WriteHead()
      requires Valid()
      modifies this`disk, this`cache, this`dirty, this`crashes
      ensures Valid() && LogMachine.WriteHead(Conf(), old(Now())) == Next(Now())
      ensures crashes == old(crashes) + [disk]
    {
      hide PutHeader, Distinct;
      ghost var s, lh := Now(), block[..n];
      assert Encodable(lh) by {
        forall k | 0 <= k < |lh| ensures lh[k] < U32 { assert l.Home(lh[k]); }
      }
      var h0 := Bread(l.start);
      var h := EncodeHead(h0);
      Bwrite(l.start, h);
      assert cache == s.cache[l.start := h];
    }

    method ReadHead(ghost d: Disk)
      requires Valid() && n == 0 && dirty == {} && Image(l, disk, d)
      modifies this`n, this`cache, block
      ensures Valid() && dirty == {} && disk == old(disk) && crashes == old(crashes)
      ensures Copying(Conf(), Now(), d, 0)
    {
      hide WordAt, Copying;
      var h := Bread(l.start);
      var i, k := 0, Count(h);
      while i < k
        modifies block
        invariant 0 <= i <= k
        invariant forall j :: 0 <= j < i ==> block[j] == WordAt(h, 1 + j)
      {
        block[i] := WordAt(h, 1 + i);
        i := i + 1;
      }
      n := k;
      assert block[..n] == Entries(h);
      HeadLoaded(Conf(), Now(), d);
    }

    /** The first half of commit: up to and including the header write. */
    method MakeDurable(ghost d: Disk, ghost m: Disk)
      requires Valid() && n > 0 && |d| == |m| == l.nblocks && Quiet(Conf(), Now(), d, m)
      modifies this`disk, this`cache, this`dirty, this`crashes
      ensures Valid() && Copying(Conf(), Now(), m, 0) && OnlyTail(Now(), 0)
      ensures |old(crashes)| < |crashes| && old(crashes) <= crashes
      ensures Images(l, crashes[|old(crashes)|..|crashes| - 1], d) && Image(l, crashes[|crashes| - 1], m)
    {
      hide Quiet, Image, Shape, LogMachine.WriteHead;
      WriteLog(d, m);
      ghost var s1 := Now();
      WriteHead();
      HeadWritten(Conf(), s1, Now(), d, m);
      PhaseImage(Conf(), Now(), m, m, Installing(0));
    }

    /** Install, then erase the header: shared by commit and recovery. */
    method InstallAndErase(ghost m: Disk)
      requires Valid() && |m| == l.nblocks && Copying(Conf(), Now(), m, 0) && OnlyTail(Now(), 0)
      modifies this`disk, this`cache, this`dirty, this`n, this`crashes
      ensures Valid() && n == 0 && dirty == {} && Quiet(Conf(), Now(), m, m)
      ensures old(crashes) <= crashes && Images(l, crashes[|old(crashes)|..], m)
    {
      ghost var c0 := crashes;
      InstallTrans(m);
      ghost var c1, s1 := crashes, Now();
      n := 0;
      WriteHead();
      HeadErased(Conf(), s1, Now(), m);
      QuietImage(Conf(), Now(), m, m);
      assert crashes[|c0|..] == c1[|c0|..] + [disk];
    }

    /**
     Commit the open group. A crash after any of its disk writes recovers to the old
     contents d before the header write, number `point`, and to the new contents m from
     then on; when it returns, m is on the disk and the log is empty.
     */
    method Commit(ghost d: Disk, ghost m: Disk) returns (ghost point: nat)
      requires Valid() && |d| == |m| == l.nblocks && Quiet(Conf(), Now(), d, m)
      modifies this`disk, this`cache, this`dirty, this`n, this`crashes
      ensures Valid() && n == 0 && dirty == {} && Quiet(Conf(), Now(), m, m)
      ensures old(crashes) <= crashes && |old(crashes)| <= point <= |crashes|
      ensures Images(l, crashes[|old(crashes)|..point], d) && Images(l, crashes[point..], m)
      ensures old(n) > 0 ==> point < |crashes|
    {
      hide Quiet, Images, Shape, Copying;
      ghost var c0 := crashes;
      if n > 0 {
        MakeDurable(d, m);
        ghost var c1 := crashes;
        point := |c1| - 1;
        InstallAndErase(m);
        ImagesSplit(l, c0, c1, crashes, d, m);
      } else {
        point := |crashes|;
        NothingToCommit(Conf(), Now(), d, m);
        NoImages(l, crashes[|c0|..point], d);
        NoImages(l, crashes[point..], m);
      }
    }

    /** Boot: finish what the log says was committed, then empty it; any crash on the way recovers to the same contents. */
    method RecoverFromLog(ghost d: Disk)
      requires Valid() && n == 0 && dirty == {} && Image(l, disk, d)
      modifies this`disk, this`cache, this`dirty, this`n, this`crashes, block
      ensures Valid() && n == 0 && dirty == {} && Quiet(Conf(), Now(), d, d)
      ensures old(crashes) <= crashes && Images(l, crashes[|old(crashes)|..], d)
    {
      ReadHead(d);
      InstallAndErase(d);
    }
  }

  /** Only blocks still to be installed are dirty. */
  ghost predicate OnlyTail(s: State, t: nat) {
    t <= |s.lh| && forall b | b in s.dirty :: b in s.lh[t..]
  }

  /** Filling a buffer from the disk changes nothing that matters. */
  lemma FetchedPhase(c: Config, s: State, s': State, b: nat, d: Disk, m: Disk, phase: Phase)
    requires Shape(c, s) && |d| == |m| == c.l.nblocks && PhaseOk(c, s, d, m, phase) && b < c.l.nblocks
    requires s' == s.(cache := if b in s.cache then s.cache else s.cache[b := s.disk[b]])
    ensures Shape(c, s') && PhaseOk(c, s', d, m, phase)
  {
  }

  lemma FetchedCopy(c: Config, s: State, s': State, b: nat, d: Disk, t: nat)
    requires Shape(c, s) && |d| == c.l.nblocks && Copying(c, s, d, t) && b < c.l.nblocks
    requires s' == s.(cache := if b in s.cache then s.cache else s.cache[b := s.disk[b]])
    ensures Shape(c, s') && Copying(c, s', d, t)
  {
  }

  lemma HeadLoaded(c: Config, s: State, d: Disk)
    requires Shape(c, s) && Image(c.l, s.disk, d) && s.lh == Entries(s.disk[c.l.start])
    ensures Copying(c, s, d, 0)
  {
    forall i {:trigger c.l.Slot(i)} | 0 <= i < |s.lh| ensures s.disk[c.l.Slot(i)] == d[s.lh[i]] {
      FindAt(s.lh, i);
      assert Recovered(c.l, s.disk, s.lh[i]) == d[s.lh[i]];
    }
    forall b: nat | c.l.Home(b) && b !in s.lh ensures s.disk[b] == d[b] {
      assert Recovered(c.l, s.disk, b) == d[b];
    }
  }

  lemma FirstIs(s: seq<nat>, b: nat, i: nat)
    requires i <= |s| && (forall k :: 0 <= k < i ==> s[k] != b) && (i < |s| ==> s[i] == b)
    ensures Find(s, b) == i
  {
  }

  /** The disks before the header write, and from it on. */
  lemma ImagesSplit(l: Layout, c0: seq<Disk>, c1: seq<Disk>, c2: seq<Disk>, d: Disk, m: Disk)
    requires c0 <= c1 <= c2 && |c0| < |c1| && Images(l, c1[|c0|..|c1| - 1], d) && Image(l, c1[|c1| - 1], m)
    requires Images(l, c2[|c1|..], m)
    ensures Images(l, c2[|c0|..|c1| - 1], d) && Images(l, c2[|c1| - 1..], m)
  {
    hide Image;
    assert c2[|c0|..|c1| - 1] == c1[|c0|..|c1| - 1];
    assert c2[|c1| - 1..] == [c1[|c1| - 1]] + c2[|c1|..];
  }

  lemma NoImages(l: Layout, ds: seq<Disk>, d: Disk)
    requires |ds| == 0
    ensures Images(l, ds, d)
  {
  }

  lemma NothingToCommit(c: Config, s: State, d: Disk, m: Disk)
    requires Shape(c, s) && |d| == |m| == c.l.nblocks && Quiet(c, s, d, m) && s.lh == []
    ensures s.dirty == {} && Quiet(c, s, m, m)
  {
  }
}

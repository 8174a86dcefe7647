/**
 The running log refines its specification: an invariant that every step keeps, and
 from it crash safety, the bound on the log, and the absence of panics.
 */
module LogRefinement {
  import opened Blocks
  import opened LogLayout
  import opened LogMachine
  import opened LogTable
  import opened Sequences
  import LogSpec

  // ----- The invariant -----

  ghost predicate Shape(c: Config, s: State) {
    && c.l.Valid() && |s.disk| == c.l.nblocks
    && (forall b | b in s.cache :: b < c.l.nblocks)
    && s.dirty <= s.cache.Keys
    && (forall b | b in s.cache && b !in s.dirty :: s.cache[b] == s.disk[b])
    && GoodList(c.l, s.lh)
  }

  /** The table is in order, the log has room for the bound, and what is about to be logged is a home block. */
  ghost predicate Accounts(c: Config, s: State) {
    && c.Valid() && Table(c.budget, s)
    && forall i :: 0 <= i < |s.procs| && s.procs[i].InOp? && s.procs[i].pending.Holding? ==> c.l.Home(s.procs[i].pending.block)
  }

  /** Before the commit point: home blocks are untouched, new contents only in pinned buffers. */
  ghost predicate Quiet(c: Config, s: State, d: Disk, m: Disk)
    requires Shape(c, s) && |d| == |m| == c.l.nblocks
  {
    && Count(s.disk[c.l.start]) == 0
    && (forall b: nat | c.l.Home(b) :: s.disk[b] == d[b])
    && (forall b: nat :: b in s.dirty <==> b in s.lh)
    && (forall b: nat | c.l.Home(b) && b !in s.dirty :: m[b] == d[b])
    && (forall b | b in s.dirty :: s.cache[b] == m[b])
  }

  /** After it: the log holds the new contents and the first t home blocks have them too. */
  ghost predicate Copying(c: Config, s: State, d: Disk, t: nat)
    requires Shape(c, s) && |d| == c.l.nblocks
  {
    && t <= |s.lh|
    && Count(s.disk[c.l.start]) <= LOGSIZE && Entries(s.disk[c.l.start]) == s.lh
    && (forall i {:trigger c.l.Slot(i)} :: 0 <= i < |s.lh| ==> s.disk[c.l.Slot(i)] == d[s.lh[i]])
    && (forall b: nat | c.l.Home(b) && b !in s.lh :: s.disk[b] == d[b])
    && (forall i :: 0 <= i < t ==> s.disk[s.lh[i]] == d[s.lh[i]])
  }

  ghost predicate PhaseOk(c: Config, s: State, d: Disk, m: Disk, phase: Phase)
    requires Shape(c, s) && |d| == |m| == c.l.nblocks
  {
    match phase
    case WritingLog(t) =>
      && Quiet(c, s, d, m) && 0 < |s.lh| && t <= |s.lh|
      && (forall i {:trigger c.l.Slot(i)} :: 0 <= i < t ==> s.disk[c.l.Slot(i)] == m[s.lh[i]])
    case Installing(t) =>
      && d == m && Copying(c, s, d, t)
      && (forall b: nat :: b in s.dirty <==> b in s.lh[t..])
      && (forall b | b in s.dirty :: s.cache[b] == m[b])
    case Finishing => s.lh == [] && Quiet(c, s, d, m)
  }

  ghost predicate BootOk(c: Config, s: State, d: Disk, m: Disk)
    requires Shape(c, s) && |d| == |m| == c.l.nblocks
  {
    match s.boot
    case ReadingHead =>
      && d == m && s.dirty == {} && s.lh == [] && GoodDisk(c.l, s.disk)
      && (forall b: nat | c.l.Home(b) :: Recovered(c.l, s.disk, b) == d[b])
    case Replaying(t) =>
      && d == m && s.dirty == {} && Copying(c, s, d, t)
    case Up => true
  }

  /** d is what must survive a crash now, m what operations must see. */
  ghost predicate Contents(c: Config, s: State, d: Disk, m: Disk)
    requires Shape(c, s) && |d| == |m| == c.l.nblocks
  {
    && BootOk(c, s, d, m)
    && (s.boot == Up && !s.committing ==> Quiet(c, s, d, m))
    && (forall p :: 0 <= p < |s.procs| && s.procs[p].Committer? ==> PhaseOk(c, s, d, m, s.procs[p].phase))
  }

  ghost predicate Linked(s: State, a: LogSpec.Spec) {
    && (forall x: nat :: x in a.begun <==> x < s.nextOp)
    && a.active <= a.begun
    && (forall i :: 0 <= i < |s.procs| && s.procs[i].InOp? ==> s.procs[i].op in a.active)
    && (forall i, j :: 0 <= i < j < |s.procs| && s.procs[i].InOp? && s.procs[j].InOp? ==> s.procs[i].op != s.procs[j].op)
    && (forall x | x in a.active :: exists i :: 0 <= i < |s.procs| && s.procs[i].InOp? && s.procs[i].op == x)
  }

  ghost predicate Inv(c: Config, s: State, init: Disk, a: LogSpec.Spec) {
    && Shape(c, s) && Accounts(c, s) && Linked(s, a)
    && |init| == c.l.nblocks
    && Contents(c, s, LogSpec.Durable(init, a), LogSpec.Visible(init, a))
  }

  // ----- Consequences -----

  /** Recovery from disk x yields contents d. */
  ghost predicate Image(l: Layout, x: Disk, d: Disk) {
    && GoodDisk(l, x) && |d| == l.nblocks
    && forall b: nat | l.Home(b) :: Recovered(l, x, b) == d[b]
  }

  lemma QuietImage(c: Config, s: State, d: Disk, m: Disk)
    requires Shape(c, s) && |d| == |m| == c.l.nblocks && Quiet(c, s, d, m)
    ensures Image(c.l, s.disk, d)
  {
    assert Entries(s.disk[c.l.start]) == [];
  }

  lemma CopyingImage(c: Config, s: State, d: Disk, t: nat)
    requires Shape(c, s) && |d| == c.l.nblocks && Copying(c, s, d, t)
    ensures Image(c.l, s.disk, d)
  {
  }

  lemma PhaseImage(c: Config, s: State, d: Disk, m: Disk, phase: Phase)
    requires Shape(c, s) && |d| == |m| == c.l.nblocks && PhaseOk(c, s, d, m, phase)
    ensures Image(c.l, s.disk, d)
  {
    if phase.Installing? { CopyingImage(c, s, d, phase.tail); } else { QuietImage(c, s, d, m); }
  }

  /** Whatever the moment, recovery from this disk yields exactly the durable contents. */
  lemma CrashImage(c: Config, s: State, d: Disk, m: Disk)
    requires Shape(c, s) && Roles(s) && |d| == |m| == c.l.nblocks && Contents(c, s, d, m)
    ensures Image(c.l, s.disk, d)
  {
    if s.committing {
      var p :| 0 <= p < |s.procs| && s.procs[p].Committer?;
      PhaseImage(c, s, d, m, s.procs[p].phase);
    } else if s.boot == Up {
      QuietImage(c, s, d, m);
    } else if s.boot.Replaying? {
      CopyingImage(c, s, d, s.boot.tail);
    }
  }

  lemma QuietView(c: Config, s: State, d: Disk, m: Disk, b: nat)
    requires Shape(c, s) && |d| == |m| == c.l.nblocks && Quiet(c, s, d, m) && c.l.Home(b)
    ensures View(s, b) == m[b]
  {
  }

  lemma InstallingView(c: Config, s: State, d: Disk, t: nat, b: nat)
    requires Shape(c, s) && |d| == c.l.nblocks && PhaseOk(c, s, d, d, Installing(t)) && c.l.Home(b)
    ensures View(s, b) == d[b]
  {
    if b in s.lh && b !in s.dirty {
      assert s.lh == s.lh[..t] + s.lh[t..];
      var i :| 0 <= i < t && s.lh[..t][i] == b;
    }
  }

  /** While the system is up, reading through the cache gives the latest logged contents. */
  lemma ReadsSeeWrites(c: Config, s: State, d: Disk, m: Disk, b: nat)
    requires Shape(c, s) && Roles(s) && |d| == |m| == c.l.nblocks && Contents(c, s, d, m) && s.boot == Up && c.l.Home(b)
    ensures View(s, b) == m[b]
  {
    if s.committing {
      var p :| 0 <= p < |s.procs| && s.procs[p].Committer?;
      if s.procs[p].phase.Installing? {
        InstallingView(c, s, d, s.procs[p].phase.tail, b);
      } else {
        QuietView(c, s, d, m, b);
      }
    } else {
      QuietView(c, s, d, m, b);
    }
  }

  // ----- The process table -----

  lemma ContentsFrame(c: Config, s: State, s': State, d: Disk, m: Disk)
    requires Shape(c, s) && |d| == |m| == c.l.nblocks && Contents(c, s, d, m)
    requires s' == s.(procs := s'.procs, outstanding := s'.outstanding, nextOp := s'.nextOp)
    requires |s'.procs| == |s.procs|
    requires forall i :: 0 <= i < |s.procs| && s'.procs[i].Committer? ==> s'.procs[i] == s.procs[i]
    ensures Shape(c, s') && Contents(c, s', d, m)
  {
    forall p | 0 <= p < |s'.procs| && s'.procs[p].Committer? ensures PhaseOk(c, s', d, m, s'.procs[p].phase) {
      assert PhaseOk(c, s, d, m, s.procs[p].phase);
    }
  }

  lemma LinkedBegin(s: State, p: nat, s': State, a: LogSpec.Spec)
    requires Linked(s, a) && DoBegin(s, p) == Next(s')
    ensures LogSpec.Enabled(a, LogSpec.Begin(s.nextOp)) && Linked(s', LogSpec.Apply(a, LogSpec.Begin(s.nextOp)))
  {
    var a' := LogSpec.Apply(a, LogSpec.Begin(s.nextOp));
    forall x | x in a'.active ensures exists i :: 0 <= i < |s'.procs| && s'.procs[i].InOp? && s'.procs[i].op == x {
      if x == s.nextOp {
        assert s'.procs[p].op == x;
      } else {
        var i :| 0 <= i < |s.procs| && s.procs[i].InOp? && s.procs[i].op == x;
        assert s'.procs[i] == s.procs[i];
      }
    }
  }

  lemma LinkedSame(s: State, s': State, a: LogSpec.Spec, a': LogSpec.Spec)
    requires a'.active == a.active && a'.begun == a.begun
    requires Linked(s, a) && |s'.procs| == |s.procs| && s'.nextOp == s.nextOp
    requires forall i :: 0 <= i < |s.procs| ==>
      (s'.procs[i].InOp? <==> s.procs[i].InOp?) && (s.procs[i].InOp? ==> s'.procs[i].op == s.procs[i].op)
    ensures Linked(s', a')
  {
    forall x | x in a'.active ensures exists i :: 0 <= i < |s'.procs| && s'.procs[i].InOp? && s'.procs[i].op == x {
      var i :| 0 <= i < |s.procs| && s.procs[i].InOp? && s.procs[i].op == x;
      assert s'.procs[i].InOp? && s'.procs[i].op == x;
    }
  }

  lemma LinkedEnd(s: State, p: nat, s': State, a: LogSpec.Spec)
    requires Linked(s, a) && DoEnd(s, p) == Next(s')
    ensures LogSpec.Enabled(a, LogSpec.End(s.procs[p].op)) && Linked(s', LogSpec.Apply(a, LogSpec.End(s.procs[p].op)))
  {
    var a' := LogSpec.Apply(a, LogSpec.End(s.procs[p].op));
    forall i | 0 <= i < |s'.procs| && s'.procs[i].InOp? ensures s'.procs[i].op in a'.active {
      assert i != p && s'.procs[i] == s.procs[i];
      if i < p { assert s.procs[i].op != s.procs[p].op; } else { assert s.procs[p].op != s.procs[i].op; }
    }
    forall x | x in a'.active ensures exists i :: 0 <= i < |s'.procs| && s'.procs[i].InOp? && s'.procs[i].op == x {
      var i :| 0 <= i < |s.procs| && s.procs[i].InOp? && s.procs[i].op == x;
      assert s'.procs[i] == s.procs[i];
    }
  }

  lemma BeginOk(c: Config, s: State, p: nat, s': State, init: Disk, a: LogSpec.Spec)
    requires Inv(c, s, init, a) && DoBegin(s, p) == Next(s')
    ensures LogSpec.Enabled(a, LogSpec.Begin(s.nextOp)) && Inv(c, s', init, LogSpec.Apply(a, LogSpec.Begin(s.nextOp)))
  {
    hide Table;
    BeginTable(c.budget, s, p, s');
    LinkedBegin(s, p, s', a);
    ContentsFrame(c, s, s', LogSpec.Durable(init, a), LogSpec.Visible(init, a));
  }

  lemma CheckOk(c: Config, s: State, p: nat, b: nat, v: Block, s': State, init: Disk, a: LogSpec.Spec)
    requires Inv(c, s, init, a) && DoCheck(c, s, p, b, v) == Next(s')
    ensures Inv(c, s', init, a)
  {
    hide Table, Contents;
    CheckTable(c, s, p, b, v, s');
    LinkedSame(s, s', a, a);
    ContentsFrame(c, s, s', LogSpec.Durable(init, a), LogSpec.Visible(init, a));
  }

  lemma AppendContents(c: Config, s: State, b: nat, v: Block, s': State, d: Disk, m: Disk)
    requires Shape(c, s) && |d| == |m| == c.l.nblocks && c.l.Home(b)
    requires Quiet(c, s, d, m) && |Absorb(s.lh, b)| <= LOGSIZE && |Absorb(s.lh, b)| <= c.l.size - 1
    requires s'.disk == s.disk && s'.lh == Absorb(s.lh, b) && s'.cache == s.cache[b := v] && s'.dirty == s.dirty + {b}
    ensures Shape(c, s') && Quiet(c, s', d, m[b := v])
  {
    forall i | 0 <= i < |s'.lh| ensures c.l.Home(s'.lh[i]) {
      assert s'.lh[i] in s'.lh;
    }
  }

  lemma AppendOk(c: Config, s: State, p: nat, s': State, init: Disk, a: LogSpec.Spec)
    requires Inv(c, s, init, a) && DoAppend(s, p) == Next(s')
    ensures LogSpec.Enabled(a, EventOf(s, Append(p))) && Inv(c, s', init, LogSpec.Apply(a, EventOf(s, Append(p))))
  {
    hide OpOk, Distinct, GoodList, Contents;
    var me := s.procs[p];
    var u := LogSpec.Update(me.op, me.pending.block, me.pending.value);
    var a' := LogSpec.Apply(a, LogSpec.Write(u));
    AppendTable(c.budget, s, p, s');
    Reserved(c.budget, s');
    UnusedNonNegative(c.budget, s');
    LinkedSame(s, s', a, a');
    LogSpec.WriteContents(init, a, u);
    AppendWrites(c, s, me, s', LogSpec.Durable(init, a), LogSpec.Visible(init, a), LogSpec.Visible(init, a'));
  }

  lemma AppendWrites(c: Config, s: State, me: Proc, s': State, d: Disk, m: Disk, m': Disk)
    requires Shape(c, s) && s.boot == Up && !s.committing && |d| == |m| == c.l.nblocks && Contents(c, s, d, m)
    requires me.InOp? && me.pending.Holding? && c.l.Home(me.pending.block)
    requires s'.disk == s.disk && s'.lh == Absorb(s.lh, me.pending.block) && |s'.lh| <= LOGSIZE && |s'.lh| <= c.l.size - 1
    requires s'.cache == s.cache[me.pending.block := me.pending.value] && s'.dirty == s.dirty + {me.pending.block}
    requires s'.boot == Up && forall i :: 0 <= i < |s'.procs| ==> !s'.procs[i].Committer?
    requires m' == m[me.pending.block := me.pending.value]
    ensures Shape(c, s') && Contents(c, s', d, m')
  {
    AppendContents(c, s, me.pending.block, me.pending.value, s', d, m);
  }

  lemma EndOk(c: Config, s: State, p: nat, s': State, init: Disk, a: LogSpec.Spec)
    requires Inv(c, s, init, a) && DoEnd(s, p) == Next(s')
    ensures LogSpec.Enabled(a, EventOf(s, End(p))) && Inv(c, s', init, LogSpec.Apply(a, EventOf(s, End(p))))
  {
    var d, m := LogSpec.Durable(init, a), LogSpec.Visible(init, a);
    hide OpOk, Distinct, GoodList;
    EndTable(c.budget, s, p, s');
    LinkedEnd(s, p, s', a);
    assert Quiet(c, s, d, m);
    assert Quiet(c, s', d, m);
    forall i | 0 <= i < |s'.procs| && s'.procs[i].Committer? ensures PhaseOk(c, s', d, m, s'.procs[i].phase) {
      assert i == p;
    }
  }

  // ----- Steps of the committer -----

  /** Only the committer's phase matters for the contents. */
  lemma OnePhase(c: Config, s: State, p: nat, d: Disk, m: Disk)
    requires Shape(c, s) && |d| == |m| == c.l.nblocks
    requires s.boot == Up && s.committing && p < |s.procs| && s.procs[p].Committer?
    requires forall i :: 0 <= i < |s.procs| && s.procs[i].Committer? ==> i == p
    requires PhaseOk(c, s, d, m, s.procs[p].phase)
    ensures Contents(c, s, d, m)
  {
  }

  lemma LogBlockWritten(c: Config, s: State, t: nat, s': State, d: Disk, m: Disk)
    requires Shape(c, s) && |d| == |m| == c.l.nblocks && t < |s.lh|
    requires PhaseOk(c, s, d, m, WritingLog(t)) && WriteLogBlock(c, s, t) == Next(s')
    ensures Shape(c, s') && PhaseOk(c, s', d, m, WritingLog(t + 1))
  {
    hide Count, Entries, Distinct;
    assert s.lh[t] in s.dirty;
  }

  lemma HeadWritten(c: Config, s: State, s': State, d: Disk, m: Disk)
    requires Shape(c, s) && |d| == |m| == c.l.nblocks
    requires PhaseOk(c, s, d, m, WritingLog(|s.lh|)) && WriteHead(c, s) == Next(s')
    ensures Shape(c, s') && PhaseOk(c, s', m, m, Installing(0))
  {
    assert s'.lh[0..] == s.lh;
    assert c.l.start !in s.dirty;
  }

  lemma BlockInstalled(c: Config, s: State, t: nat, s': State, d: Disk)
    requires Shape(c, s) && |d| == c.l.nblocks && t < |s.lh|
    requires Copying(c, s, d, t) && InstallBlock(c, s, t) == Next(s')
    requires forall i {:trigger c.l.Slot(i)} :: 0 <= i < |s.lh| ==> c.l.Slot(i) !in s.dirty
    ensures Shape(c, s') && Copying(c, s', d, t + 1)
  {
    assert View(s, c.l.Slot(t)) == d[s.lh[t]];
  }

  lemma TailShrinks(lh: seq<nat>, t: nat)
    requires t < |lh| && Distinct(lh)
    ensures forall b: nat :: b in lh[t + 1..] <==> b in lh[t..] && b != lh[t]
  {
    assert lh[t..] == [lh[t]] + lh[t + 1..];
    var rest := lh[t + 1..];
    forall i | 0 <= i < |rest| ensures rest[i] != lh[t] {
      assert rest[i] == lh[t + 1 + i];
    }
  }

  lemma InstalledPhase(c: Config, s: State, t: nat, s': State, d: Disk)
    requires Shape(c, s) && |d| == c.l.nblocks && t < |s.lh|
    requires PhaseOk(c, s, d, d, Installing(t)) && InstallBlock(c, s, t) == Next(s')
    ensures Shape(c, s') && PhaseOk(c, s', d, d, Installing(t + 1))
  {
    assert forall b: nat :: b in s.dirty ==> b in s.lh;
    BlockInstalled(c, s, t, s', d);
    TailShrinks(s.lh, t);
  }

  lemma HeadErased(c: Config, s: State, s': State, d: Disk)
    requires Shape(c, s) && |d| == c.l.nblocks
    requires Copying(c, s, d, |s.lh|) && s.dirty == {} && WriteHead(c, s.(lh := [])) == Next(s')
    ensures Shape(c, s') && s'.lh == [] && Quiet(c, s', d, d)
  {
    forall b: nat | c.l.Home(b) ensures s'.disk[b] == d[b] {
      if b in s.lh {
        var i :| 0 <= i < |s.lh| && s.lh[i] == b;
      }
    }
  }

  /** What a tick changes besides contents. */
  ghost predicate Ticked(s: State, p: nat, s': State, phase: Phase) {
    && p < |s.procs| && s'.procs == s.procs[p := Committer(phase)]
    && s' == s.(disk := s'.disk, cache := s'.cache, dirty := s'.dirty, lh := s'.lh, procs := s'.procs)
    && (s'.lh == [] || (s'.lh == s.lh && phase != Finishing))
  }

  lemma TickLog(c: Config, s: State, p: nat, s': State, d: Disk, m: Disk, t: nat)
    requires Shape(c, s) && |d| == |m| == c.l.nblocks && p < |s.procs| && s.procs[p] == Committer(WritingLog(t))
    requires t < |s.lh| && DoTick(c, s, p) == Next(s') && PhaseOk(c, s, d, m, WritingLog(t))
    ensures Ticked(s, p, s', WritingLog(t + 1)) && Shape(c, s') && PhaseOk(c, s', d, m, WritingLog(t + 1))
  {
    var mid := s'.(procs := s.procs);
    LogBlockWritten(c, s, t, mid, d, m);
    PhaseMoves(c, mid, s', d, m, WritingLog(t + 1));
  }

  lemma TickHead(c: Config, s: State, p: nat, s': State, d: Disk, m: Disk)
    requires Shape(c, s) && |d| == |m| == c.l.nblocks && p < |s.procs| && s.procs[p] == Committer(WritingLog(|s.lh|))
    requires DoTick(c, s, p) == Next(s') && PhaseOk(c, s, d, m, WritingLog(|s.lh|))
    ensures Ticked(s, p, s', Installing(0)) && Shape(c, s') && PhaseOk(c, s', m, m, Installing(0))
  {
    var mid := s'.(procs := s.procs);
    HeadWritten(c, s, mid, d, m);
    PhaseMoves(c, mid, s', m, m, Installing(0));
  }

  lemma TickInstall(c: Config, s: State, p: nat, s': State, d: Disk, t: nat)
    requires Shape(c, s) && |d| == c.l.nblocks && p < |s.procs| && s.procs[p] == Committer(Installing(t))
    requires t < |s.lh| && DoTick(c, s, p) == Next(s') && PhaseOk(c, s, d, d, Installing(t))
    ensures Ticked(s, p, s', Installing(t + 1)) && Shape(c, s') && PhaseOk(c, s', d, d, Installing(t + 1))
  {
    var mid := s'.(procs := s.procs);
    InstalledPhase(c, s, t, mid, d);
    PhaseMoves(c, mid, s', d, d, Installing(t + 1));
  }

  lemma TickErase(c: Config, s: State, p: nat, s': State, d: Disk)
    requires Shape(c, s) && |d| == c.l.nblocks && p < |s.procs| && s.procs[p] == Committer(Installing(|s.lh|))
    requires DoTick(c, s, p) == Next(s') && PhaseOk(c, s, d, d, Installing(|s.lh|))
    ensures Ticked(s, p, s', Finishing) && Shape(c, s') && PhaseOk(c, s', d, d, Finishing)
  {
    var mid := s'.(procs := s.procs);
    assert s.lh[|s.lh|..] == [];
    assert s.dirty == {};
    HeadErased(c, s, mid, d);
    PhaseMoves(c, mid, s', d, d, Finishing);
  }

  /** Ticks other than the header write are invisible; the header write is the commit. */
  lemma TickSpec(c: Config, s: State, p: nat, s': State, phase: Phase, init: Disk, a: LogSpec.Spec, a': LogSpec.Spec)
    requires Inv(c, s, init, a) && p < |s.procs| && s.procs[p].Committer? && Ticked(s, p, s', phase)
    requires a' == a || a' == LogSpec.Apply(a, LogSpec.Commit)
    requires Shape(c, s') && |init| == c.l.nblocks
    requires PhaseOk(c, s', LogSpec.Durable(init, a'), LogSpec.Visible(init, a'), phase)
    ensures a.active == {} && Inv(c, s', init, a')
  {
    TickTable(c.budget, s, p, s');
    NobodyIn(s);
    LinkedSame(s, s', a, a');
    OnePhase(c, s', p, LogSpec.Durable(init, a'), LogSpec.Visible(init, a'));
  }

  lemma CommitPoint(c: Config, s: State, p: nat, s': State, init: Disk, a: LogSpec.Spec)
    requires Inv(c, s, init, a) && DoTick(c, s, p) == Next(s') && s.procs[p].phase == WritingLog(|s.lh|)
    ensures a.active == {} && Inv(c, s', init, LogSpec.Apply(a, LogSpec.Commit))
  {
    var d, m := LogSpec.Durable(init, a), LogSpec.Visible(init, a);
    TickHead(c, s, p, s', d, m);
    LogSpec.CommitContents(init, a);
    TickSpec(c, s, p, s', Installing(0), init, a, LogSpec.Apply(a, LogSpec.Commit));
  }

  lemma LogTick(c: Config, s: State, p: nat, s': State, init: Disk, a: LogSpec.Spec)
    requires Inv(c, s, init, a) && DoTick(c, s, p) == Next(s') && s.procs[p].phase.WritingLog? && s.procs[p].phase.tail != |s.lh|
    ensures Inv(c, s', init, a)
  {
    var t := s.procs[p].phase.tail;
    TickLog(c, s, p, s', LogSpec.Durable(init, a), LogSpec.Visible(init, a), t);
    TickSpec(c, s, p, s', WritingLog(t + 1), init, a, a);
  }

  lemma InstallTick(c: Config, s: State, p: nat, s': State, init: Disk, a: LogSpec.Spec)
    requires Inv(c, s, init, a) && DoTick(c, s, p) == Next(s') && s.procs[p].phase.Installing? && s.procs[p].phase.tail < |s.lh|
    ensures Inv(c, s', init, a)
  {
    var t := s.procs[p].phase.tail;
    TickInstall(c, s, p, s', LogSpec.Durable(init, a), t);
    TickSpec(c, s, p, s', Installing(t + 1), init, a, a);
  }

  lemma EraseTick(c: Config, s: State, p: nat, s': State, init: Disk, a: LogSpec.Spec)
    requires Inv(c, s, init, a) && DoTick(c, s, p) == Next(s') && s.procs[p].phase.Installing? && s.procs[p].phase.tail >= |s.lh|
    ensures Inv(c, s', init, a)
  {
    assert PhaseOk(c, s, LogSpec.Durable(init, a), LogSpec.Visible(init, a), s.procs[p].phase);
    TickErase(c, s, p, s', LogSpec.Durable(init, a));
    TickSpec(c, s, p, s', Finishing, init, a, a);
  }

  lemma TickOk(c: Config, s: State, p: nat, s': State, init: Disk, a: LogSpec.Spec)
    requires Inv(c, s, init, a) && DoTick(c, s, p) == Next(s')
    ensures LogSpec.Enabled(a, EventOf(s, Tick(p))) && Inv(c, s', init, LogSpec.Apply(a, EventOf(s, Tick(p))))
  {
    hide Inv;
    if s.procs[p].phase == WritingLog(|s.lh|) {
      CommitPoint(c, s, p, s', init, a);
    } else if s.procs[p].phase == Finishing {
      FinishOk(c, s, p, s', init, a);
    } else if s.procs[p].phase.WritingLog? {
      LogTick(c, s, p, s', init, a);
    } else if s.procs[p].phase.tail < |s.lh| {
      InstallTick(c, s, p, s', init, a);
    } else {
      EraseTick(c, s, p, s', init, a);
    }
  }

  /** A phase's contents do not depend on the process table. */
  lemma PhaseMoves(c: Config, s: State, s': State, d: Disk, m: Disk, phase: Phase)
    requires Shape(c, s) && |d| == |m| == c.l.nblocks && PhaseOk(c, s, d, m, phase)
    requires s' == s.(procs := s'.procs)
    ensures Shape(c, s') && PhaseOk(c, s', d, m, phase)
  {
  }

  lemma FinishOk(c: Config, s: State, p: nat, s': State, init: Disk, a: LogSpec.Spec)
    requires Inv(c, s, init, a) && DoTick(c, s, p) == Next(s') && s.procs[p].phase == Finishing
    ensures Inv(c, s', init, a)
  {
    assert PhaseOk(c, s, LogSpec.Durable(init, a), LogSpec.Visible(init, a), Finishing);
    FinishTable(c.budget, s, p, s');
    LinkedSame(s, s', a, a);
    assert Quiet(c, s', LogSpec.Durable(init, a), LogSpec.Visible(init, a));
  }

  // ----- Crash and recovery -----

  lemma RebootContents(c: Config, disk: Disk, nproc: nat, nextOp: nat, d: Disk)
    requires Image(c.l, disk, d)
    ensures var s := Rebooted(disk, nproc, nextOp); Shape(c, s) && Contents(c, s, d, d)
  {
  }

  lemma CrashOk(c: Config, s: State, init: Disk, a: LogSpec.Spec)
    requires Inv(c, s, init, a)
    ensures Inv(c, Rebooted(s.disk, |s.procs|, s.nextOp), init, LogSpec.Apply(a, LogSpec.Crash))
  {
    var d := LogSpec.Durable(init, a);
    var a' := LogSpec.Apply(a, LogSpec.Crash);
    CrashImage(c, s, d, LogSpec.Visible(init, a));
    RebootTable(c.budget, s.disk, |s.procs|, s.nextOp);
    RebootContents(c, s.disk, |s.procs|, s.nextOp, d);
    assert LogSpec.Visible(init, a') == d;
  }

  lemma HeadRead(c: Config, s: State, s': State, d: Disk)
    requires Shape(c, s) && |d| == c.l.nblocks && s.boot == ReadingHead && BootOk(c, s, d, d)
    requires DoBootTick(c, s) == Next(s')
    ensures Shape(c, s') && BootOk(c, s', d, d)
  {
    var h := s.disk[c.l.start];
    assert View(s, c.l.start) == h;
    forall i {:trigger c.l.Slot(i)} | 0 <= i < |s'.lh| ensures s'.disk[c.l.Slot(i)] == d[s'.lh[i]] {
      FindAt(s'.lh, i);
      assert Recovered(c.l, s.disk, s'.lh[i]) == d[s'.lh[i]];
    }
    forall b: nat | c.l.Home(b) && b !in s'.lh ensures s'.disk[b] == d[b] {
      assert Recovered(c.l, s.disk, b) == d[b];
    }
  }

  lemma BootOkTick(c: Config, s: State, s': State, init: Disk, a: LogSpec.Spec)
    requires Inv(c, s, init, a) && DoBootTick(c, s) == Next(s')
    ensures Inv(c, s', init, a)
  {
    var d := LogSpec.Durable(init, a);
    NobodyAround(s);
    BootTable(c, s, s');
    match s.boot
    case ReadingHead =>
      HeadRead(c, s, s', d);
    case Replaying(t) =>
      var mid := s'.(boot := s.boot);
      if t < |s.lh| {
        BlockInstalled(c, s, t, mid, d);
      } else {
        HeadErased(c, s, mid, d);
      }
  }

  lemma CacheOk(c: Config, s: State, s': State, init: Disk, a: LogSpec.Spec)
    requires Inv(c, s, init, a) && s' == s.(cache := s'.cache)
    requires forall b :: b in s.dirty ==> b in s'.cache && s'.cache[b] == s.cache[b]
    requires forall b :: b in s'.cache && b !in s.dirty ==> b < |s.disk| && s'.cache[b] == s.disk[b]
    ensures Inv(c, s', init, a)
  {
    var d, m := LogSpec.Durable(init, a), LogSpec.Visible(init, a);
    assert Shape(c, s') by {
      assert s'.dirty <= s'.cache.Keys;
      forall b | b in s'.cache ensures b < c.l.nblocks {
        if b in s.dirty { assert b in s.cache; }
      }
    }
    forall p | 0 <= p < |s'.procs| && s'.procs[p].Committer? ensures PhaseOk(c, s', d, m, s'.procs[p].phase) {
      assert PhaseOk(c, s, d, m, s.procs[p].phase);
    }
  }

  /** Every step the machine can take is a step of the specification. */
  lemma StepSimulates(c: Config, s: State, step: Step, s': State, init: Disk, a: LogSpec.Spec)
    requires Inv(c, s, init, a) && Do(c, s, step) == Next(s')
    ensures LogSpec.Enabled(a, EventOf(s, step)) && Inv(c, s', init, LogSpec.Apply(a, EventOf(s, step)))
  {
    hide DoBegin, DoCheck, DoAppend, DoEnd, DoTick, DoBootTick, Accounts, Linked, Contents;
    match step
    case Begin(p) => BeginOk(c, s, p, s', init, a);
    case Check(p, b, v) => CheckOk(c, s, p, b, v, s', init, a);
    case Append(p) => AppendOk(c, s, p, s', init, a);
    case End(p) => EndOk(c, s, p, s', init, a);
    case Tick(p) => TickOk(c, s, p, s', init, a);
    case BootTick => BootOkTick(c, s, s', init, a);
    case Fetch(b) => CacheOk(c, s, s', init, a);
    case Evict(b) => CacheOk(c, s, s', init, a);
    case Crash => CrashOk(c, s, init, a);
  }

  // ----- Runs -----

  function Events(c: Config, s: State, steps: seq<Step>): seq<LogSpec.Event> {
    if steps == [] then []
    else
      var before := steps[..|steps| - 1];
      var o := Run(c, s, before);
      Events(c, s, before) + [if o.Next? then EventOf(o.s, steps[|steps| - 1]) else LogSpec.Silent]
  }

  lemma StartOk(c: Config, d: Disk, nproc: nat)
    requires c.Valid() && GoodDisk(c.l, d)
    ensures Inv(c, Rebooted(d, nproc, 0), Recover(c.l, d), LogSpec.Initial)
  {
    var init := Recover(c.l, d);
    RecoverMeaning(c.l, d);
    RebootTable(c.budget, d, nproc, 0);
    RebootContents(c, d, nproc, 0, init);
    assert LogSpec.Visible(init, LogSpec.Initial) == init;
  }

  lemma {:induction false} RunSimulates(c: Config, d: Disk, nproc: nat, steps: seq<Step>)
    requires c.Valid() && GoodDisk(c.l, d) && Run(c, Rebooted(d, nproc, 0), steps).Next?
    ensures var es := Events(c, Rebooted(d, nproc, 0), steps);
            LogSpec.Legal(es) && Inv(c, Run(c, Rebooted(d, nproc, 0), steps).s, Recover(c.l, d), LogSpec.After(es))
  {
    if steps == [] {
      StartOk(c, d, nproc);
    } else {
      var start := Rebooted(d, nproc, 0);
      var before, step := steps[..|steps| - 1], steps[|steps| - 1];
      RunSimulates(c, d, nproc, before);
      var s := Run(c, start, before).s;
      StepSimulates(c, s, step, Run(c, start, steps).s, Recover(c.l, d), LogSpec.After(Events(c, start, before)));
      var es := Events(c, start, steps);
      assert es[..|es| - 1] == Events(c, start, before);
    }
  }

  /**
   Crash safety of every run, with crashes anywhere, recovery included: recovering the
   disk the run leaves behind yields exactly the groups whose header write reached the
   disk, each operation entirely or not at all; and while the system is up, every read
   through the cache returns the latest logged contents.
   */
  lemma CrashSafety(c: Config, d: Disk, nproc: nat, steps: seq<Step>)
    requires c.Valid() && GoodDisk(c.l, d) && Run(c, Rebooted(d, nproc, 0), steps).Next?
    ensures var s := Run(c, Rebooted(d, nproc, 0), steps).s;
            var es := Events(c, Rebooted(d, nproc, 0), steps);
            var init := Recover(c.l, d);
            && LogSpec.Legal(es) && LogSpec.Atomic(es, LogSpec.After(es))
            && GoodDisk(c.l, s.disk)
            && (forall b: nat | c.l.Home(b) :: Recover(c.l, s.disk)[b] == LogSpec.Durable(init, LogSpec.After(es))[b])
            && (s.boot == Up ==> forall b: nat | c.l.Home(b) :: View(s, b) == LogSpec.Visible(init, LogSpec.After(es))[b])
  {
    var s := Run(c, Rebooted(d, nproc, 0), steps).s;
    var es := Events(c, Rebooted(d, nproc, 0), steps);
    var init := Recover(c.l, d);
    var durable, visible := LogSpec.Durable(init, LogSpec.After(es)), LogSpec.Visible(init, LogSpec.After(es));
    RunSimulates(c, d, nproc, steps);
    LogSpec.OperationsAreAtomic(es);
    CrashImage(c, s, durable, visible);
    RecoverMeaning(c.l, s.disk);
    if s.boot == Up {
      forall b: nat | c.l.Home(b) ensures View(s, b) == visible[b] {
        ReadsSeeWrites(c, s, durable, visible, b);
      }
    }
  }
}

/**
 The log's bookkeeping by itself: who is in an operation, who commits, and how much room the
 reservation of begin_op leaves. None of it depends on where the log lies or how long its area
 is, so it holds of every layout and every disk, and of operations of the full MAXOPBLOCKS.
 */
module LogTable {
  import opened Blocks
  import opened LogLayout
  import opened LogMachine
  import opened Sequences

  // ----- The invariant -----

  ghost predicate AnyCommitter(ps: seq<Proc>) {
    exists i :: 0 <= i < |ps| && ps[i].Committer?
  }

  /** Who is running: commits exclude operations and each other. */
  ghost predicate Roles(s: State) {
    && s.outstanding == Sum(s.procs, InOpCount())
    && (forall i, j :: 0 <= i < |s.procs| && 0 <= j < |s.procs| && s.procs[i].Committer? && s.procs[j].Committer? ==> i == j)
    && (s.committing <==> AnyCommitter(s.procs))
    && (s.committing ==> s.outstanding == 0)
    && (s.boot != Up ==> !s.committing && s.outstanding == 0)
    && (s.boot == Up && !s.committing && s.outstanding == 0 ==> s.lh == [])
  }

  /** What an operation has logged is listed, and with what it is about to log it is within its budget. */
  ghost predicate OpOk(budget: nat, lh: seq<nat>, q: Proc) {
    q.InOp? ==>
      && (forall b | b in q.logged :: b in lh)
      && |q.logged| <= budget
      && (q.pending.Holding? ==> |q.logged + {q.pending.block}| <= budget)
  }

  /** Roles, and log space: what is logged plus what running operations may still add. */
  ghost predicate Table(budget: nat, s: State) {
    && Roles(s)
    && (forall i :: 0 <= i < |s.procs| ==> OpOk(budget, s.lh, s.procs[i]))
    && (forall i :: 0 <= i < |s.procs| && s.procs[i] == Committer(Finishing) ==> s.lh == [])
    && (s.boot == Up ==> Distinct(s.lh) && |s.lh| + Sum(s.procs, Unused(budget)) <= Room(budget))
  }

  // ----- Sums over the table -----

  lemma NobodyIn(s: State)
    requires Roles(s) && s.outstanding == 0
    ensures forall i :: 0 <= i < |s.procs| ==> !s.procs[i].InOp?
  {
    forall i | 0 <= i < |s.procs| ensures !s.procs[i].InOp? {
      SumBounds(s.procs, InOpCount(), i);
    }
  }

  lemma NobodyAround(s: State)
    requires Roles(s) && s.boot != Up
    ensures forall i :: 0 <= i < |s.procs| ==> s.procs[i].Idle?
  {
    NobodyIn(s);
    forall i | 0 <= i < |s.procs| ensures !s.procs[i].Committer? {
      assert !AnyCommitter(s.procs);
    }
  }

  lemma SumCountNonNegative(ps: seq<Proc>)
    ensures Sum(ps, InOpCount()) >= 0
  {
  }

  lemma UnusedNonNegative(budget: nat, s: State)
    requires forall i :: 0 <= i < |s.procs| ==> OpOk(budget, s.lh, s.procs[i])
    ensures Sum(s.procs, Unused(budget)) >= 0
  {
    if s.procs != [] {
      forall i | 0 <= i < |s.procs| ensures Unused(budget)(s.procs[i]) >= 0 {
        assert OpOk(budget, s.lh, s.procs[i]);
      }
      SumBounds(s.procs, Unused(budget), 0);
    }
  }

  /** begin_op's admission test, with every operation held to the budget, bounds the log. */
  lemma BeginAccounts(budget: nat, s: State)
    requires Table(budget, s) && budget <= MAXOPBLOCKS && s.boot == Up && !s.committing
    requires |s.lh| + (s.outstanding + 1) * MAXOPBLOCKS <= LOGSIZE
    ensures |s.lh| + Sum(s.procs, Unused(budget)) + budget <= Room(budget)
  {
    var n := s.outstanding;
    SumScale(s.procs, Unused(budget), InOpCount(), budget);
    assert Sum(s.procs, Unused(budget)) <= budget * n;
    UnusedNonNegative(budget, s);
    if n >= 1 {
      assert (n + 1) * (MAXOPBLOCKS - budget) >= 2 * (MAXOPBLOCKS - budget);
    } else {
      SumCountNonNegative(s.procs);
    }
  }

  /** Replacing one process that does not commit leaves the committers as they are. */
  lemma SameCommitters(ps: seq<Proc>, p: nat, q: Proc)
    requires p < |ps| && !ps[p].Committer? && !q.Committer?
    ensures forall i :: 0 <= i < |ps| ==> (ps[p := q][i].Committer? <==> ps[i].Committer?)
    ensures AnyCommitter(ps[p := q]) <==> AnyCommitter(ps)
  {
    forall i | 0 <= i < |ps| ensures ps[p := q][i].Committer? <==> ps[i].Committer? {
    }
    if i :| 0 <= i < |ps| && ps[i].Committer? { assert ps[p := q][i].Committer?; }
  }

  // ----- What each step keeps -----

  lemma BeginTable(budget: nat, s: State, p: nat, s': State)
    requires Table(budget, s) && budget <= MAXOPBLOCKS && DoBegin(s, p) == Next(s')
    ensures Table(budget, s')
  {
    var q := InOp(s.nextOp, {}, Nothing);
    SumUpdate(s.procs, InOpCount(), p, q);
    SumUpdate(s.procs, Unused(budget), p, q);
    BeginAccounts(budget, s);
    SumCountNonNegative(s.procs);
    SameCommitters(s.procs, p, q);
  }

  lemma CheckTable(c: Config, s: State, p: nat, b: nat, v: Block, s': State)
    requires Table(c.budget, s) && DoCheck(c, s, p, b, v) == Next(s')
    ensures Table(c.budget, s')
    ensures s' == s.(procs := s.procs[p := s'.procs[p]]) && s'.procs[p].InOp? && s.procs[p].InOp? && s'.procs[p].op == s.procs[p].op
  {
    SumUpdate(s.procs, InOpCount(), p, s'.procs[p]);
    SumUpdate(s.procs, Unused(c.budget), p, s'.procs[p]);
    SameCommitters(s.procs, p, s'.procs[p]);
  }

  /** The block an operation is about to log has room: it was reserved. */
  lemma AppendFits(budget: nat, s: State, p: nat)
    requires Table(budget, s) && p < |s.procs| && s.procs[p].InOp? && s.procs[p].pending.Holding?
    ensures s.boot == Up && !s.committing && |Absorb(s.lh, s.procs[p].pending.block)| <= Room(budget)
  {
    var me := s.procs[p];
    var b := me.pending.block;
    assert OpOk(budget, s.lh, me);
    if s.outstanding == 0 { NobodyIn(s); }
    forall i | 0 <= i < |s.procs| ensures Unused(budget)(s.procs[i]) >= 0 {
      assert OpOk(budget, s.lh, s.procs[i]);
    }
    SumBounds(s.procs, Unused(budget), p);
    assert b !in me.logged ==> |me.logged + {b}| == |me.logged| + 1;
  }

  lemma AppendTable(budget: nat, s: State, p: nat, s': State)
    requires Table(budget, s) && DoAppend(s, p) == Next(s')
    ensures Table(budget, s') && s.boot == Up && !s.committing
    ensures forall i :: 0 <= i < |s'.procs| ==> !s'.procs[i].Committer?
  {
    var me, q := s.procs[p], s'.procs[p];
    var b := me.pending.block;
    AppendFits(budget, s, p);
    assert OpOk(budget, s.lh, me);
    SumUpdate(s.procs, InOpCount(), p, q);
    SumUpdate(s.procs, Unused(budget), p, q);
    SameCommitters(s.procs, p, q);
    assert !AnyCommitter(s.procs);
    if s.outstanding == 0 { NobodyIn(s); }
    assert b !in me.logged ==> |me.logged + {b}| == |me.logged| + 1;
    assert b in me.logged ==> me.logged + {b} == me.logged;
    forall i | 0 <= i < |s'.procs| ensures OpOk(budget, s'.lh, s'.procs[i]) {
      assert OpOk(budget, s.lh, s.procs[i]);
    }
  }

  lemma EndTable(budget: nat, s: State, p: nat, s': State)
    requires Table(budget, s) && DoEnd(s, p) == Next(s')
    ensures Table(budget, s') && s.boot == Up && !s.committing
  {
    var q := s'.procs[p];
    assert OpOk(budget, s.lh, s.procs[p]);
    SumUpdate(s.procs, InOpCount(), p, q);
    SumUpdate(s.procs, Unused(budget), p, q);
    if s.outstanding == 0 { NobodyIn(s); }
    assert forall i :: 0 <= i < |s.procs| ==> !s.procs[i].Committer?;
    if s'.committing { assert s'.procs[p].Committer?; }
    forall i | 0 <= i < |s'.procs| ensures OpOk(budget, s'.lh, s'.procs[i]) {
      assert OpOk(budget, s.lh, s.procs[i]);
    }
  }

  /** A committer moves on; the list stays, or is emptied. */
  lemma TickTable(budget: nat, s: State, p: nat, s': State)
    requires Table(budget, s) && p < |s.procs| && s.procs[p].Committer?
    requires |s'.procs| == |s.procs| && s'.procs == s.procs[p := s'.procs[p]] && s'.procs[p].Committer?
    requires s'.outstanding == s.outstanding && s'.committing == s.committing && s'.boot == s.boot
    requires s'.lh == [] || (s'.lh == s.lh && s'.procs[p].phase != Finishing)
    ensures Table(budget, s') && s.boot == Up && s.committing
    ensures forall i :: 0 <= i < |s'.procs| && s'.procs[i].Committer? ==> i == p
  {
    var q := s'.procs[p];
    SumUpdate(s.procs, InOpCount(), p, q);
    SumUpdate(s.procs, Unused(budget), p, q);
    assert AnyCommitter(s.procs) && AnyCommitter(s'.procs);
    NobodyIn(s);
    forall i | 0 <= i < |s'.procs| ensures OpOk(budget, s'.lh, s'.procs[i]) {
      assert OpOk(budget, s.lh, s.procs[i]);
    }
  }

  lemma FinishTable(budget: nat, s: State, p: nat, s': State)
    requires Table(budget, s) && p < |s.procs| && s.procs[p] == Committer(Finishing)
    requires s' == s.(committing := false, procs := s.procs[p := Idle])
    ensures Table(budget, s') && s.boot == Up && s.lh == []
    ensures forall i :: 0 <= i < |s'.procs| ==> !s'.procs[i].Committer?
  {
    assert AnyCommitter(s.procs);
    SumUpdate(s.procs, InOpCount(), p, Idle);
    SumUpdate(s.procs, Unused(budget), p, Idle);
    forall i | 0 <= i < |s'.procs| ensures OpOk(budget, s'.lh, s'.procs[i]) {
      assert OpOk(budget, s.lh, s.procs[i]);
    }
  }

  /** What a tick does to the table, whatever it writes. */
  lemma TickShape(c: Config, s: State, p: nat, s': State)
    requires DoTick(c, s, p) == Next(s')
    ensures p < |s.procs| && s.procs[p].Committer?
    ensures if s.procs[p].phase == Finishing then s' == s.(committing := false, procs := s.procs[p := Idle])
            else
              && |s'.procs| == |s.procs| && s'.procs == s.procs[p := s'.procs[p]] && s'.procs[p].Committer?
              && s'.outstanding == s.outstanding && s'.committing == s.committing && s'.boot == s.boot
              && (s'.lh == [] || (s'.lh == s.lh && s'.procs[p].phase != Finishing))
  {
    hide PutHeader, View;
  }

  lemma DoTickTable(c: Config, s: State, p: nat, s': State)
    requires Table(c.budget, s) && DoTick(c, s, p) == Next(s')
    ensures Table(c.budget, s')
  {
    hide DoTick, Table;
    TickShape(c, s, p, s');
    if s.procs[p].phase == Finishing {
      FinishTable(c.budget, s, p, s');
    } else {
      TickTable(c.budget, s, p, s');
    }
  }

  lemma BootTable(c: Config, s: State, s': State)
    requires Table(c.budget, s) && DoBootTick(c, s) == Next(s')
    ensures Table(c.budget, s')
  {
    hide PutHeader, View;
    NobodyAround(s);
    SumZero(s.procs, Unused(c.budget));
    assert s'.procs == s.procs && s'.committing == s.committing && s'.outstanding == s.outstanding;
    assert s'.boot == Up ==> s'.lh == [];
  }

  lemma RebootTable(budget: nat, disk: Disk, nproc: nat, nextOp: nat)
    ensures Table(budget, Rebooted(disk, nproc, nextOp))
  {
    var s := Rebooted(disk, nproc, nextOp);
    SumZero(s.procs, InOpCount());
    SumZero(s.procs, Unused(budget));
  }

  /** Every step keeps the table, wherever the log lies. */
  lemma TableKeeps(c: Config, s: State, step: Step, s': State)
    requires c.budget <= MAXOPBLOCKS && Table(c.budget, s) && Do(c, s, step) == Next(s')
    ensures Table(c.budget, s')
  {
    match step
    case Begin(p) => BeginTable(c.budget, s, p, s');
    case Check(p, b, v) => CheckTable(c, s, p, b, v, s');
    case Append(p) => AppendTable(c.budget, s, p, s');
    case End(p) => EndTable(c.budget, s, p, s');
    case Tick(p) => DoTickTable(c, s, p, s');
    case BootTick => BootTable(c, s, s');
    case Fetch(b) =>
    case Evict(b) =>
    case Crash => RebootTable(c.budget, s.disk, |s.procs|, s.nextOp);
  }

  // ----- Whole runs -----

  lemma {:induction false} RunTable(c: Config, d: Disk, nproc: nat, steps: seq<Step>)
    requires c.budget <= MAXOPBLOCKS && Run(c, Rebooted(d, nproc, 0), steps).Next?
    ensures Table(c.budget, Run(c, Rebooted(d, nproc, 0), steps).s)
  {
    hide Table, Do;
    if steps == [] {
      RebootTable(c.budget, d, nproc, 0);
    } else {
      var before, step := steps[..|steps| - 1], steps[|steps| - 1];
      RunTable(c, d, nproc, before);
      TableKeeps(c, Run(c, Rebooted(d, nproc, 0), before).s, step, Run(c, Rebooted(d, nproc, 0), steps).s);
    }
  }

  /** The array block[] has room for every append, and what is in it is there once. */
  lemma Reserved(budget: nat, s: State)
    requires Table(budget, s) && budget <= MAXOPBLOCKS && s.boot == Up
    ensures Distinct(s.lh) && |s.lh| + Sum(s.procs, Unused(budget)) <= LOGSIZE && |s.lh| <= LOGSIZE
  {
    UnusedNonNegative(budget, s);
  }

  lemma EndNeverPanics(budget: nat, s: State, p: nat)
    requires Table(budget, s)
    ensures DoEnd(s, p) != Panic
  {
    if s.committing { NobodyIn(s); }
  }

  lemma AppendNeverPanics(budget: nat, s: State, p: nat)
    requires Table(budget, s) && budget <= MAXOPBLOCKS
    ensures DoAppend(s, p) != Panic
  {
    if p < |s.procs| && s.procs[p].InOp? && s.procs[p].pending.Holding? {
      AppendFits(budget, s, p);
    }
  }

  /**
   In every run of operations of at most MAXOPBLOCKS blocks, over any layout and any disk, crashes
   and recovery included: while the system is up the list and all that is still reserved fit block[],
   and no block is listed twice; a committer is alone, with no operation outstanding; end_op's
   panic("log.committing") and an overrun of block[] are out of reach.
   */
  lemma ReservationHolds(c: Config, d: Disk, nproc: nat, steps: seq<Step>)
    requires c.budget <= MAXOPBLOCKS && Run(c, Rebooted(d, nproc, 0), steps).Next?
    ensures var s := Run(c, Rebooted(d, nproc, 0), steps).s;
            && (s.boot == Up ==> Distinct(s.lh) && |s.lh| + Sum(s.procs, Unused(c.budget)) <= LOGSIZE && |s.lh| <= LOGSIZE)
            && (s.committing ==> s.outstanding == 0 && forall i :: 0 <= i < |s.procs| ==> !s.procs[i].InOp?)
            && (forall i, j :: 0 <= i < |s.procs| && 0 <= j < |s.procs| && s.procs[i].Committer? && s.procs[j].Committer? ==> i == j)
            && (forall p: nat :: DoEnd(s, p) != Panic && DoAppend(s, p) != Panic)
  {
    RunTable(c, d, nproc, steps);
    var s := Run(c, Rebooted(d, nproc, 0), steps).s;
    hide Run, DoEnd, DoAppend;
    if s.boot == Up { Reserved(c.budget, s); }
    if s.committing { NobodyIn(s); }
    forall p: nat ensures DoEnd(s, p) != Panic && DoAppend(s, p) != Panic {
      EndNeverPanics(c.budget, s, p);
      AppendNeverPanics(c.budget, s, p);
    }
  }
}

/**
 What follows from the log's invariant, and where its guarantees stop: the log never
 outgrows its area and no panic is reachable exactly when operations log at most nine
 distinct blocks each, one fewer than MAXOPBLOCKS allows.
 */
module LogTheorems {
  import opened Blocks
  import opened LogLayout
  import opened LogMachine
  import opened LogTable
  import opened LogRefinement
  import LogSpec

  // ----- Only installation writes home blocks -----

  predicate Installs(s: State, step: Step, b: nat) {
    || (step.Tick? && step.p < |s.procs| && s.procs[step.p].Committer? && s.procs[step.p].phase.Installing?
        && s.procs[step.p].phase.tail < |s.lh| && s.lh[s.procs[step.p].phase.tail] == b)
    || (step.BootTick? && s.boot.Replaying? && s.boot.tail < |s.lh| && s.lh[s.boot.tail] == b)
  }

  lemma WhoTicksHome(c: Config, s: State, p: nat, s': State, b: nat)
    requires Shape(c, s) && DoTick(c, s, p) == Next(s') && c.l.Home(b)
    ensures |s'.disk| == |s.disk|
    ensures s'.disk[b] != s.disk[b] ==> Installs(s, Tick(p), b) && s'.disk[b] == View(s, c.l.Slot(s.procs[p].phase.tail))
  {
  }

  lemma WhoBootsHome(c: Config, s: State, s': State, b: nat)
    requires Shape(c, s) && DoBootTick(c, s) == Next(s') && c.l.Home(b)
    ensures |s'.disk| == |s.disk|
    ensures s'.disk[b] != s.disk[b] ==> Installs(s, BootTick, b) && s'.disk[b] == View(s, c.l.Slot(s.boot.tail))
  {
  }

  lemma LogHoldsDurable(c: Config, s: State, d: Disk, t: nat)
    requires Shape(c, s) && |d| == c.l.nblocks && Copying(c, s, d, t) && t < |s.lh|
    requires forall b | b in s.dirty :: b in s.lh
    ensures View(s, c.l.Slot(t)) == d[s.lh[t]]
  {
    assert c.l.Home(s.lh[t]);
    assert c.l.Slot(t) !in s.lh;
  }

  /** A home block on disk changes only when install_trans reaches it, and then to its durable contents. */
  lemma HomeWrites(c: Config, s: State, step: Step, s': State, init: Disk, a: LogSpec.Spec, b: nat)
    requires Inv(c, s, init, a) && Do(c, s, step) == Next(s') && c.l.Home(b)
    requires |s'.disk| == |s.disk| && s'.disk[b] != s.disk[b]
    ensures Installs(s, step, b) && s'.disk[b] == LogSpec.Durable(init, a)[b]
  {
    var d, m := LogSpec.Durable(init, a), LogSpec.Visible(init, a);
    if step.Tick? {
      WhoTicksHome(c, s, step.p, s', b);
      assert PhaseOk(c, s, d, m, s.procs[step.p].phase);
      LogHoldsDurable(c, s, d, s.procs[step.p].phase.tail);
    } else {
      assert step.BootTick?;
      WhoBootsHome(c, s, s', b);
      LogHoldsDurable(c, s, d, s.boot.tail);
    }
  }

  // ----- Panics -----

  lemma CanWriteHead(c: Config, s: State, lh: seq<nat>)
    requires Shape(c, s) && GoodList(c.l, lh)
    ensures WriteHead(c, s.(lh := lh)).Next?
  {
    forall i | 0 <= i < |lh| ensures lh[i] < U32 { assert c.l.Home(lh[i]); }
  }

  lemma TickNeverPanics(c: Config, s: State, p: nat)
    requires Shape(c, s)
    ensures DoTick(c, s, p) != Panic
  {
    CanWriteHead(c, s, s.lh);
    CanWriteHead(c, s, []);
    assert s.(lh := s.lh) == s;
  }

  lemma BootNeverPanics(c: Config, s: State, d: Disk, m: Disk)
    requires Shape(c, s) && |d| == |m| == c.l.nblocks && BootOk(c, s, d, m)
    ensures DoBootTick(c, s) != Panic
  {
    CanWriteHead(c, s, []);
  }

  lemma CheckNeverPanics(c: Config, s: State, p: nat, b: nat, v: Block)
    requires Accounts(c, s) && c.Bound() < LOGSIZE && c.Bound() < c.l.size - 1
    ensures DoCheck(c, s, p, b, v) != Panic
  {
    if s.boot == Up { UnusedNonNegative(c.budget, s); } else { NobodyAround(s); }
    if s.outstanding == 0 { NobodyIn(s); }
    SumCountNonNegative(s.procs);
  }

  lemma StepNeverPanics(c: Config, s: State, step: Step, init: Disk, a: LogSpec.Spec)
    requires Inv(c, s, init, a) && c.Bound() < LOGSIZE && c.Bound() < c.l.size - 1
    ensures Do(c, s, step) != Panic
  {
    match step
    case Check(p, b, v) => CheckNeverPanics(c, s, p, b, v);
    case Append(p) => AppendNeverPanics(c.budget, s, p);
    case End(p) => EndNeverPanics(c.budget, s, p);
    case Tick(p) => TickNeverPanics(c, s, p);
    case BootTick => BootNeverPanics(c, s, LogSpec.Durable(init, a), LogSpec.Visible(init, a));
    case _ =>
  }

  lemma {:induction false} RunNeverPanics(c: Config, d: Disk, nproc: nat, steps: seq<Step>)
    requires c.Valid() && GoodDisk(c.l, d) && c.Bound() < LOGSIZE && c.Bound() < c.l.size - 1
    ensures Run(c, Rebooted(d, nproc, 0), steps) != Panic
  {
    if steps != [] {
      var start := Rebooted(d, nproc, 0);
      var before := steps[..|steps| - 1];
      RunNeverPanics(c, d, nproc, before);
      if Run(c, start, before).Next? {
        RunSimulates(c, d, nproc, before);
        StepNeverPanics(c, Run(c, start, before).s, steps[|steps| - 1],
                        Recover(c.l, d), LogSpec.After(Events(c, start, before)));
      }
    }
  }

  // ----- Ten blocks are one too many -----

  /** Runs of an arbitrary step function, so that sequencing can be argued without looking inside a step. */
  function RunOf(f: (State, Step) -> Outcome, s: State, steps: seq<Step>): Outcome {
    if steps == [] then Next(s)
    else
      var o := RunOf(f, s, steps[..|steps| - 1]);
      if o.Next? then f(o.s, steps[|steps| - 1]) else o
  }

  function Stepper(c: Config): (State, Step) -> Outcome { (s: State, x: Step) => Do(c, s, x) }

  lemma {:induction false} RunIsRunOf(c: Config, s: State, steps: seq<Step>)
    ensures Run(c, s, steps) == RunOf(Stepper(c), s, steps)
  {
    if steps != [] {
      RunIsRunOf(c, s, steps[..|steps| - 1]);
    }
  }

  lemma RunNone(f: (State, Step) -> Outcome, s: State)
    ensures RunOf(f, s, []) == Next(s)
  {
  }

  lemma RunSnoc(f: (State, Step) -> Outcome, s: State, xs: seq<Step>, t: State, x: Step)
    requires RunOf(f, s, xs) == Next(t)
    ensures RunOf(f, s, xs + [x]) == f(t, x)
  {
    assert (xs + [x])[..|xs|] == xs;
  }

  lemma {:induction false} RunConcat(f: (State, Step) -> Outcome, s: State, xs: seq<Step>, t: State, ys: seq<Step>)
    requires RunOf(f, s, xs) == Next(t)
    ensures RunOf(f, s, xs + ys) == RunOf(f, t, ys)
  {
    if ys == [] {
      assert xs + ys == xs;
    } else {
      var front := ys[..|ys| - 1];
      RunConcat(f, s, xs, t, front);
      assert (xs + ys)[..|xs + ys| - 1] == xs + front;
    }
  }

  /** t is reached from s in k steps of f. */
  ghost predicate Reach(f: (State, Step) -> Outcome, s: State, t: State, k: nat)
    decreases k
  {
    if k == 0 then s == t else exists u, x :: Reach(f, s, u, k - 1) && f(u, x) == Next(t)
  }

  lemma ReachStep(f: (State, Step) -> Outcome, s: State, t: State, k: nat, x: Step, u: State)
    requires Reach(f, s, t, k) && f(t, x) == Next(u)
    ensures Reach(f, s, u, k + 1)
  {
  }

  lemma {:induction false} ReachRuns(f: (State, Step) -> Outcome, s: State, t: State, k: nat) returns (steps: seq<Step>)
    requires Reach(f, s, t, k)
    ensures RunOf(f, s, steps) == Next(t)
    decreases k
  {
    if k == 0 {
      steps := [];
    } else {
      var u, x :| Reach(f, s, u, k - 1) && f(u, x) == Next(t);
      steps := ReachRuns(f, s, u, k - 1);
      RunSnoc(f, s, steps, u, x);
      steps := steps + [x];
    }
  }

  ghost predicate NobodyHolds(ps: seq<Proc>) {
    forall q :: 0 <= q < |ps| && ps[q].InOp? ==> ps[q].pending.Nothing?
  }

  /** Process p may log the new block x in s. */
  ghost predicate CanWrite(c: Config, s: State, p: nat, x: nat) {
    && s.boot == Up && s.outstanding == 3 && !s.committing && NobodyHolds(s.procs)
    && p < |s.procs| && s.procs[p].InOp? && |s.procs[p].logged + {x}| <= c.budget && c.l.Home(x)
    && |s.lh| < LOGSIZE && |s.lh| < c.l.size - 1
    && (forall y | y in s.lh :: y < x)
  }

  function Checked(s: State, p: nat, x: nat): State
    requires p < |s.procs| && s.procs[p].InOp?
  {
    s.(procs := s.procs[p := s.procs[p].(pending := Holding(x, ZeroBlock()))])
  }

  function Wrote(s: State, p: nat, x: nat): State
    requires p < |s.procs| && s.procs[p].InOp?
  {
    s.(lh := s.lh + [x], cache := s.cache[x := ZeroBlock()], dirty := s.dirty + {x},
       procs := s.procs[p := InOp(s.procs[p].op, s.procs[p].logged + {x}, Nothing)])
  }

  /** The two halves of an unhindered log_write. */
  ghost predicate Writes(c: Config, f: (State, Step) -> Outcome) {
    forall s: State, p: nat, x: nat {:trigger f(s, Check(p, x, ZeroBlock()))} :: CanWrite(c, s, p, x) ==>
      && f(s, Check(p, x, ZeroBlock())) == Next(Checked(s, p, x))
      && f(Checked(s, p, x), Append(p)) == Next(Wrote(s, p, x))
  }

  lemma DoWrites(c: Config)
    ensures Writes(c, Stepper(c))
  {
    forall s: State, p: nat, x: nat | CanWrite(c, s, p, x)
      ensures Do(c, s, Check(p, x, ZeroBlock())) == Next(Checked(s, p, x))
      ensures Do(c, Checked(s, p, x), Append(p)) == Next(Wrote(s, p, x))
    {
      assert !Locked(s, x);
    }
  }

  /** Three operations have logged n[0], n[1] and n[2] blocks of zeros, all numbered below b; the disk is still d. */
  ghost predicate Crowded(c: Config, s: State, d: Disk, b: nat, n: seq<nat>) {
    && s.disk == d && (forall x | x in s.lh :: c.l.Home(x) && x in s.cache && s.cache[x] == ZeroBlock())
    && s.boot == Up && !s.committing && s.outstanding == 3 && NobodyHolds(s.procs)
    && |n| == |s.procs| == 3 && |s.lh| == n[0] + n[1] + n[2]
    && (forall x | x in s.lh :: x < b)
    && (forall i :: 0 <= i < 3 ==> s.procs[i].InOp? && |s.procs[i].logged| <= n[i])
  }

  lemma OneMore(c: Config, d: Disk, s: State, p: nat, b: nat, n: seq<nat>)
    requires Crowded(c, s, d, b, n) && p < 3 && n[p] < c.budget && c.l.Home(b)
    requires n[0] + n[1] + n[2] < LOGSIZE && n[0] + n[1] + n[2] < c.l.size - 1
    ensures CanWrite(c, s, p, b) && Crowded(c, Wrote(s, p, b), d, b + 1, n[p := n[p] + 1])
  {
    assert |s.procs[p].logged + {b}| <= |s.procs[p].logged| + 1;
  }

  /** A run that left the machine crowded goes on with one more log_write by process p. */
  lemma FillOne(c: Config, d: Disk, f: (State, Step) -> Outcome, s: State, t: State, j: nat, p: nat, b: nat, n: seq<nat>)
    returns (u: State)
    requires Writes(c, f) && Reach(f, s, t, j) && Crowded(c, t, d, b, n) && p < 3 && n[p] < c.budget && c.l.Home(b)
    requires n[0] + n[1] + n[2] < LOGSIZE && n[0] + n[1] + n[2] < c.l.size - 1
    ensures Reach(f, s, u, j + 2) && Crowded(c, u, d, b + 1, n[p := n[p] + 1])
  {
    OneMore(c, d, t, p, b, n);
    u := Wrote(t, p, b);
    ReachStep(f, s, t, j, Check(p, b, ZeroBlock()), Checked(t, p, b));
    ReachStep(f, s, Checked(t, p, b), j + 1, Append(p), u);
  }

  /** ... and with k of them, to the blocks b, b+1, ..., b+k-1. */
  lemma {:induction false} Fill(c: Config, d: Disk, f: (State, Step) -> Outcome, s: State, t: State, j: nat, p: nat, b: nat, k: nat,
                                n: seq<nat>)
    returns (i: nat, u: State)
    requires Writes(c, f) && Reach(f, s, t, j) && Crowded(c, t, d, b, n) && p < 3
    requires n[p] + k <= c.budget && n[0] + n[1] + n[2] + k <= LOGSIZE && n[0] + n[1] + n[2] + k < c.l.size
    requires forall x: nat :: b <= x < b + k ==> c.l.Home(x)
    ensures Reach(f, s, u, i) && Crowded(c, u, d, b + k, n[p := n[p] + k])
    decreases k
  {
    if k == 0 {
      assert n[p := n[p] + 0] == n;
      i, u := j, t;
    } else {
      var n' := n[p := n[p] + 1];
      var t' := FillOne(c, d, f, s, t, j, p, b, n);
      i, u := Fill(c, d, f, s, t', j + 2, p, b + 1, k - 1, n');
      assert n'[p := n'[p] + (k - 1)] == n[p := n[p] + k];
    }
  }

  /** Up, with nothing logged and nobody running. */
  ghost predicate Fresh(s: State) {
    s.boot == Up && s.lh == [] && s.outstanding == 0 && !s.committing && s.procs == seq(3, _ => Idle)
  }

  /** The log is empty on both disks, and they agree at home. */
  ghost predicate SameHome(l: Layout, d: Disk, d': Disk) {
    && |d| == |d'| == l.nblocks && l.start < l.nblocks && Count(d[l.start]) == 0 && Count(d'[l.start]) == 0
    && forall b: nat | l.Home(b) :: d'[b] == d[b]
  }

  /** Recovery of an empty log, in two steps. */
  lemma BootEmpty(c: Config, d: Disk) returns (s1: State, s2: State)
    requires c.l.Valid() && |d| == c.l.nblocks && Count(d[c.l.start]) == 0
    ensures Do(c, Rebooted(d, 3, 0), BootTick) == Next(s1) && Do(c, s1, BootTick) == Next(s2) && Fresh(s2)
    ensures SameHome(c.l, d, s2.disk)
  {
    s1 := DoBootTick(c, Rebooted(d, 3, 0)).s;
    s2 := DoBootTick(c, s1).s;
  }

  lemma Begin3(c: Config, d: Disk, s: State, b: nat) returns (s1: State, s2: State, u: State)
    requires Fresh(s) && s.disk == d
    ensures Do(c, s, Begin(0)) == Next(s1) && Do(c, s1, Begin(1)) == Next(s2) && Do(c, s2, Begin(2)) == Next(u)
    ensures Crowded(c, u, d, b, [0, 0, 0])
  {
    s1 := DoBegin(s, 0).s;
    s2 := DoBegin(s1, 1).s;
    u := DoBegin(s2, 2).s;
  }

  lemma TwoMore(f: (State, Step) -> Outcome, s: State, s0: State, k: nat, x0: Step, s1: State, x1: Step, s2: State)
    returns (k': nat)
    requires Reach(f, s, s0, k) && f(s0, x0) == Next(s1) && f(s1, x1) == Next(s2)
    ensures Reach(f, s, s2, k')
  {
    ReachStep(f, s, s0, k, x0, s1);
    ReachStep(f, s, s1, k + 1, x1, s2);
    k' := k + 2;
  }

  /** Three operations of n0, n1 and n2 blocks run side by side until all have logged theirs. */
  lemma CrowdReached(c: Config, d: Disk, n0: nat, n1: nat, n2: nat) returns (steps: seq<Step>, d': Disk, u: State)
    requires c.l.Valid() && |d| == c.l.nblocks && Count(d[c.l.start]) == 0
    requires n0 <= c.budget && n1 <= c.budget && n2 <= c.budget && n0 + n1 + n2 < LOGSIZE && n0 + n1 + n2 < c.l.size
    requires c.l.start + c.l.size + n0 + n1 + n2 <= c.l.nblocks
    ensures RunOf(Stepper(c), Rebooted(d, 3, 0), steps) == Next(u) && SameHome(c.l, d, d')
    ensures Crowded(c, u, d', c.l.start + c.l.size + n0 + n1 + n2, [n0, n1, n2])
  {
    var b := c.l.start + c.l.size;
    DoWrites(c);
    var s1, s2 := BootEmpty(c, d);
    d' := s2.disk;
    var s3, s4, s5 := Begin3(c, d', s2, b);
    steps, u := CrowdSteps(c, d', Stepper(c), Rebooted(d, 3, 0), s1, s2, s3, s4, s5, b, n0, n1, n2);
  }

  lemma CrowdSteps(c: Config, d: Disk, f: (State, Step) -> Outcome, s: State, s1: State, s2: State, s3: State, s4: State,
                   s5: State, b: nat, n0: nat, n1: nat, n2: nat)
    returns (steps: seq<Step>, u: State)
    requires f(s, BootTick) == Next(s1) && f(s1, BootTick) == Next(s2)
    requires f(s2, Begin(0)) == Next(s3) && f(s3, Begin(1)) == Next(s4) && f(s4, Begin(2)) == Next(s5)
    requires Writes(c, f) && Crowded(c, s5, d, b, [0, 0, 0])
    requires n0 <= c.budget && n1 <= c.budget && n2 <= c.budget && n0 + n1 + n2 < LOGSIZE && n0 + n1 + n2 < c.l.size
    requires forall x: nat :: b <= x < b + n0 + n1 + n2 ==> c.l.Home(x)
    ensures RunOf(f, s, steps) == Next(u) && Crowded(c, u, d, b + n0 + n1 + n2, [n0, n1, n2])
  {
    var k := TwoMore(f, s, s, 0, BootTick, s1, BootTick, s2);
    k := TwoMore(f, s, s2, k, Begin(0), s3, Begin(1), s4);
    ReachStep(f, s, s4, k, Begin(2), s5);
    k, u := CrowdFills(c, d, f, s, k + 1, s5, b, n0, n1, n2);
    steps := ReachRuns(f, s, u, k);
  }

  lemma CrowdFills(c: Config, d: Disk, f: (State, Step) -> Outcome, s: State, j: nat, s0: State, b: nat, n0: nat, n1: nat, n2: nat)
    returns (k: nat, u: State)
    requires Writes(c, f) && Reach(f, s, s0, j) && Crowded(c, s0, d, b, [0, 0, 0])
    requires n0 <= c.budget && n1 <= c.budget && n2 <= c.budget && n0 + n1 + n2 < LOGSIZE && n0 + n1 + n2 < c.l.size
    requires forall x: nat :: b <= x < b + n0 + n1 + n2 ==> c.l.Home(x)
    ensures Reach(f, s, u, k) && Crowded(c, u, d, b + n0 + n1 + n2, [n0, n1, n2])
  {
    assert [0, 0, 0][0 := 0 + n0] == [n0, 0, 0] && [n0, 0, 0][1 := 0 + n1] == [n0, n1, 0] && [n0, n1, 0][2 := 0 + n2] == [n0, n1, n2];
    k, u := Fill(c, d, f, s, s0, j, 0, b, n0, [0, 0, 0]);
    k, u := Fill(c, d, f, s, u, k, 1, b + n0, n1, [n0, 0, 0]);
    k, u := Fill(c, d, f, s, u, k, 2, b + n0 + n1, n2, [n0, n1, 0]);
  }

  lemma TenthBlockPanics(c: Config, d: Disk, s: State, b: nat, n: seq<nat>)
    requires Crowded(c, s, d, b, n) && n[0] + n[1] + n[2] == 29 && n[2] <= 9 && c.budget == 10 && c.l.size == 30 && c.l.Home(b)
    ensures Stepper(c)(s, Check(2, b, ZeroBlock())) == Panic
  {
    assert |s.procs[2].logged + {b}| <= |s.procs[2].logged| + 1;
    assert !Locked(s, b);
  }

  /** With a ten-block budget the shipped log (nlog == LOGSIZE) panics on a run within the budget. */
  lemma TenBlocksPanic(c: Config, d: Disk) returns (steps: seq<Step>)
    requires c.l.Valid() && c.l.size == LOGSIZE && c.l.start + c.l.size + LOGSIZE <= c.l.nblocks && c.budget == MAXOPBLOCKS
    requires |d| == c.l.nblocks && Count(d[c.l.start]) == 0
    ensures Run(c, Rebooted(d, 3, 0), steps) == Panic
  {
    var x := c.l.start + c.l.size + 29;
    var xs, d', s := CrowdReached(c, d, 10, 10, 9);
    TenthBlockPanics(c, d', s, x, [10, 10, 9]);
    steps := xs + [Check(2, x, ZeroBlock())];
    RunSnoc(Stepper(c), Rebooted(d, 3, 0), xs, s, Check(2, x, ZeroBlock()));
    RunIsRunOf(c, Rebooted(d, 3, 0), steps);
  }

  /** Two log_writes whose length tests both precede either append. */
  lemma Race(c: Config, d: Disk, s: State, x: nat, y: nat) returns (s1: State, s2: State, s3: State, u: State)
    requires Crowded(c, s, d, x, [9, 9, 10]) && c.budget == MAXOPBLOCKS && c.l.size == LOGSIZE
    requires x < y && c.l.Home(x) && c.l.Home(y)
    ensures Do(c, s, Check(0, x, ZeroBlock())) == Next(s1) && Do(c, s1, Check(1, y, ZeroBlock())) == Next(s2)
    ensures Do(c, s2, Append(0)) == Next(s3) && Do(c, s3, Append(1)) == Next(u) && |u.lh| == c.l.size
    ensures Crowded(c, u, d, y + 1, [10, 10, 10])
  {
    assert !Locked(s, x);
    s1 := DoCheck(c, s, 0, x, ZeroBlock()).s;
    assert !Locked(s1, y);
    s2 := DoCheck(c, s1, 1, y, ZeroBlock()).s;
    s3 := DoAppend(s2, 0).s;
    u := DoAppend(s3, 1).s;
  }

  /** Operation 2 commits, and t of the 30 blocks are in the log, or past its end: then the first block after it is zero. */
  ghost predicate Spilling(c: Config, d: Disk, s: State, t: nat) {
    && |s.procs| == 3 && s.procs[2] == Committer(WritingLog(t)) && |s.lh| == LOGSIZE && |s.disk| == |d| == c.l.nblocks
    && c.l.start < c.l.nblocks && s.disk[c.l.start] == d[c.l.start]
    && (forall x | x in s.lh :: c.l.Home(x) && x in s.cache && s.cache[x] == ZeroBlock())
    && (t == LOGSIZE && c.l.Slot(LOGSIZE - 1) < c.l.nblocks ==> s.disk[c.l.Slot(LOGSIZE - 1)] == ZeroBlock())
  }

  /** All three end; the last one out commits. */
  lemma End3(c: Config, d: Disk, s: State, b: nat) returns (s1: State, s2: State, u: State)
    requires Crowded(c, s, d, b, [10, 10, 10]) && |d| == c.l.nblocks && c.l.start < c.l.nblocks
    ensures Do(c, s, End(0)) == Next(s1) && Do(c, s1, End(1)) == Next(s2) && Do(c, s2, End(2)) == Next(u)
    ensures Spilling(c, d, u, 0)
  {
    s1 := DoEnd(s, 0).s;
    s2 := DoEnd(s1, 1).s;
    u := DoEnd(s2, 2).s;
  }

  lemma SpillOne(c: Config, d: Disk, s: State, t: nat) returns (u: State)
    requires Spilling(c, d, s, t) && t < LOGSIZE && c.l.start + 1 + LOGSIZE <= c.l.nblocks
    ensures Do(c, s, Tick(2)) == Next(u) && Spilling(c, d, u, t + 1)
  {
    assert s.lh[t] in s.lh;
    u := DoTick(c, s, 2).s;
  }

  lemma {:induction false} Spill(c: Config, d: Disk, f: (State, Step) -> Outcome, s: State, s0: State, j: nat, t: nat)
    returns (k: nat, u: State)
    requires f == Stepper(c) && Reach(f, s, s0, j) && Spilling(c, d, s0, t) && t <= LOGSIZE && c.l.start + 1 + LOGSIZE <= c.l.nblocks
    ensures Reach(f, s, u, k) && Spilling(c, d, u, LOGSIZE)
    decreases LOGSIZE - t
  {
    hide Spilling, Do, Reach;
    if t == LOGSIZE {
      k, u := j, s0;
    } else {
      var s1 := SpillOne(c, d, s0, t);
      ReachStep(f, s, s0, j, Tick(2), s1);
      k, u := Spill(c, d, f, s, s1, j + 1, t + 1);
    }
  }

  lemma {:induction false} RunReaches(f: (State, Step) -> Outcome, s: State, steps: seq<Step>, t: State)
    requires RunOf(f, s, steps) == Next(t)
    ensures Reach(f, s, t, |steps|)
    decreases |steps|
  {
    if steps != [] {
      var front := steps[..|steps| - 1];
      RunReaches(f, s, front, RunOf(f, s, front).s);
      ReachStep(f, s, RunOf(f, s, front).s, |front|, steps[|steps| - 1], t);
    }
  }

  /**
   Worse, log_write tests the length before taking the lock, so two processes can both pass the
   test: the log then holds one block more than its area.
   */
  lemma Overrun(c: Config, d: Disk) returns (steps: seq<Step>, d': Disk, u: State)
    requires c.l.Valid() && c.l.size == LOGSIZE && c.l.start + c.l.size + LOGSIZE <= c.l.nblocks && c.budget == MAXOPBLOCKS
    requires |d| == c.l.nblocks && Count(d[c.l.start]) == 0
    ensures RunOf(Stepper(c), Rebooted(d, 3, 0), steps) == Next(u) && SameHome(c.l, d, d')
    ensures Crowded(c, u, d', c.l.start + c.l.size + 30, [10, 10, 10]) && |u.lh| == c.l.size
  {
    hide Do, RunOf, Run, Rebooted, Crowded, SameHome;
    var x := c.l.start + c.l.size + 28;
    var xs, s;
    xs, d', s := CrowdReached(c, d, 9, 9, 10);
    var s1, s2, s3;
    s1, s2, s3, u := Race(c, d', s, x, x + 1);
    steps := FourMore(Stepper(c), Rebooted(d, 3, 0), xs, s, Check(0, x, ZeroBlock()), s1, Check(1, x + 1, ZeroBlock()), s2,
                      Append(0), s3, Append(1), u);
  }

  /** The three operations of an overrun end, and the last one writes the log. */
  lemma SpillReached(c: Config, d: Disk) returns (steps: seq<Step>, d': Disk, u: State)
    requires c.l.Valid() && c.l.size == LOGSIZE && c.l.start + c.l.size + LOGSIZE <= c.l.nblocks && c.budget == MAXOPBLOCKS
    requires |d| == c.l.nblocks && Count(d[c.l.start]) == 0
    ensures RunOf(Stepper(c), Rebooted(d, 3, 0), steps) == Next(u) && SameHome(c.l, d, d') && Spilling(c, d', u, LOGSIZE)
  {
    hide Do, RunOf, Run, Rebooted, Reach, Spilling;
    var f, s := Stepper(c), Rebooted(d, 3, 0);
    var xs, s0;
    xs, d', s0 := Overrun(c, d);
    RunReaches(f, s, xs, s0);
    var s1, s2, s3 := End3(c, d', s0, c.l.start + c.l.size + 30);
    var k := TwoMore(f, s, s0, |xs|, End(0), s1, End(1), s2);
    ReachStep(f, s, s2, k, End(2), s3);
    k, u := Spill(c, d', f, s, s3, k + 1, 0);
    steps := ReachRuns(f, s, u, k);
  }

  /**
   Committing then writes the last block past the log area, over a home block (the first inode
   block, as mkfs lays the disk out): with the header still empty, recovery finds that block changed
   although nothing was committed.
   */
  lemma TenBlocksOverrun(c: Config, d: Disk) returns (steps: seq<Step>)
    requires c.l.Valid() && c.l.size == LOGSIZE && c.l.start + c.l.size + LOGSIZE <= c.l.nblocks && c.budget == MAXOPBLOCKS
    requires |d| == c.l.nblocks && Count(d[c.l.start]) == 0
    ensures Run(c, Rebooted(d, 3, 0), steps).Next?
    ensures var s, after := Run(c, Rebooted(d, 3, 0), steps).s, c.l.start + c.l.size;
            && |s.lh| == c.l.size && c.l.Home(after)
            && GoodDisk(c.l, d) && GoodDisk(c.l, s.disk) && Entries(s.disk[c.l.start]) == []
            && Recover(c.l, d)[after] == d[after] && Recover(c.l, s.disk)[after] == ZeroBlock()
  {
    hide Do, RunOf, Rebooted;
    var d', u;
    steps, d', u := SpillReached(c, d);
    RunIsRunOf(c, Rebooted(d, 3, 0), steps);
    assert Entries(d[c.l.start]) == [] && Entries(u.disk[c.l.start]) == [];
    RecoverMeaning(c.l, d);
    RecoverMeaning(c.l, u.disk);
  }

  lemma FourMore(f: (State, Step) -> Outcome, s: State, xs: seq<Step>, s0: State, x0: Step, s1: State, x1: Step, s2: State,
                 x2: Step, s3: State, x3: Step, s4: State)
    returns (steps: seq<Step>)
    requires RunOf(f, s, xs) == Next(s0)
    requires f(s0, x0) == Next(s1) && f(s1, x1) == Next(s2) && f(s2, x2) == Next(s3) && f(s3, x3) == Next(s4)
    ensures RunOf(f, s, steps) == Next(s4)
  {
    RunSnoc(f, s, xs, s0, x0);
    RunSnoc(f, s, xs + [x0], s1, x1);
    RunSnoc(f, s, xs + [x0] + [x1], s2, x2);
    RunSnoc(f, s, xs + [x0] + [x1] + [x2], s3, x3);
    steps := xs + [x0] + [x1] + [x2] + [x3];
  }

  // ----- Recovery runs to its end -----

  function Boots(k: nat): (r: seq<Step>)
    ensures |r| == k && forall i :: 0 <= i < k ==> r[i] == BootTick
  {
    seq(k, _ => BootTick)
  }

  function BootWork(s: State): nat {
    match s.boot
    case ReadingHead => LOGSIZE + 2
    case Replaying(t) => if t <= LOGSIZE then LOGSIZE - t + 1 else 0
    case Up => 0
  }

  /** Nothing is left in the log, and every home block is on the disk itself. */
  ghost predicate Settled(c: Config, s: State, d: Disk) {
    s.lh == [] && |s.disk| == |d| == c.l.nblocks && forall b: nat | c.l.Home(b) :: s.disk[b] == d[b]
  }

  lemma BootAdvances(c: Config, s: State, init: Disk, a: LogSpec.Spec) returns (s': State)
    requires Inv(c, s, init, a) && s.boot != Up
    ensures DoBootTick(c, s) == Next(s') && BootWork(s') < BootWork(s) && Inv(c, s', init, a)
    ensures s'.boot == Up ==> Settled(c, s', LogSpec.Durable(init, a))
  {
    NobodyAround(s);
    BootNeverPanics(c, s, LogSpec.Durable(init, a), LogSpec.Visible(init, a));
    s' := DoBootTick(c, s).s;
    BootOkTick(c, s, s', init, a);
  }

  /** Left alone after a crash, recovery comes up, with every home block durable on the disk itself. */
  lemma {:induction false} RecoveryCompletes(c: Config, s: State, init: Disk, a: LogSpec.Spec) returns (k: nat, u: State)
    requires Inv(c, s, init, a) && s.boot != Up
    ensures RunOf(Stepper(c), s, Boots(k)) == Next(u) && u.boot == Up && k <= BootWork(s)
    ensures Inv(c, u, init, a) && Settled(c, u, LogSpec.Durable(init, a))
    decreases BootWork(s)
  {
    hide Inv, RunOf, DoBootTick, Settled;
    var f := Stepper(c);
    var s' := BootAdvances(c, s, init, a);
    RunNone(f, s);
    RunSnoc(f, s, [], s, BootTick);
    assert [] + [BootTick] == [BootTick];
    if s'.boot == Up {
      k, u := 1, s';
      assert Boots(1) == [BootTick];
    } else {
      var k';
      k', u := RecoveryCompletes(c, s', init, a);
      k := k' + 1;
      RunConcat(f, s, [BootTick], s', Boots(k'));
      assert [BootTick] + Boots(k') == Boots(k);
    }
  }

  /** No run of operations of this budget panics. */
  ghost predicate PanicFree(c: Config) {
    forall d: Disk, nproc: nat, steps: seq<Step> :: GoodDisk(c.l, d) ==> Run(c, Rebooted(d, nproc, 0), steps) != Panic
  }

  /** As shipped (nlog == LOGSIZE), the log is panic-free exactly for budgets below MAXOPBLOCKS. */
  lemma PanicFreeExactly(c: Config)
    requires c.l.Valid() && c.l.size == LOGSIZE && c.l.start + c.l.size + LOGSIZE <= c.l.nblocks
    requires c.budget <= MAXOPBLOCKS
    ensures PanicFree(c) <==> c.budget < MAXOPBLOCKS
  {
    if c.budget < MAXOPBLOCKS {
      forall d: Disk, nproc: nat, steps: seq<Step> | GoodDisk(c.l, d)
        ensures Run(c, Rebooted(d, nproc, 0), steps) != Panic
      {
        RunNeverPanics(c, d, nproc, steps);
      }
    } else {
      var d := BlankDisk(c.l.nblocks);
      ZeroWords();
      assert Entries(d[c.l.start]) == [];
      var steps := TenBlocksPanic(c, d);
    }
  }
}

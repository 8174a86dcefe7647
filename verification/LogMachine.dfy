/**
 The log as it runs: any number of processes between begin_op and end_op, the buffer
 cache filling and evicting underneath them, the last end_op committing one disk write
 at a time, and a crash possible between any two writes, during recovery as well.
 */
module LogMachine {
  import opened Blocks
  import opened LogLayout
  import LogSpec

  /** The longest log that operations held to `budget` blocks can build up. */
  function Room(budget: nat): nat { 2 * budget + MAXOPBLOCKS }

  /** `budget` is how many distinct blocks each operation is held to. */
  datatype Config = Config(l: Layout, budget: nat) {
    predicate Valid() {
      l.Valid() && budget <= MAXOPBLOCKS && Bound() <= l.size - 1
    }

    function Bound(): nat { Room(budget) }
  }

  datatype Pending = Nothing | Holding(block: nat, value: Block)

  /** Where a committer stands; Installing(|lh|) is about to erase the header. */
  datatype Phase = WritingLog(tail: nat) | Installing(tail: nat) | Finishing

  datatype Proc =
    | Idle
    | InOp(op: nat, logged: set<nat>, pending: Pending)
    | Committer(phase: Phase)

  datatype Boot = ReadingHead | Replaying(tail: nat) | Up

  datatype State = State(
    disk: Disk,
    cache: map<nat, Block>,    // valid buffers
    dirty: set<nat>,           // those with B_DIRTY: never evicted
    lh: seq<nat>,              // log.lh.block[0..n)
    outstanding: int,
    committing: bool,
    procs: seq<Proc>,
    boot: Boot,
    nextOp: nat)               // label of the next operation

  datatype Step =
    | Begin(p: nat)
    | Check(p: nat, block: nat, value: Block)  // log_write up to acquire(&log.lock)
    | Append(p: nat)                           // the rest of log_write
    | End(p: nat)
    | Tick(p: nat)                             // one disk write of commit()
    | BootTick                                 // one step of recover_from_log()
    | Fetch(block: nat)
    | Evict(block: nat)
    | Crash

  datatype Outcome = Next(s: State) | Blocked | Panic

  // ----- The code, one atomic step at a time -----

  function View(s: State, b: nat): Block {
    if b in s.cache then s.cache[b] else if b < |s.disk| then s.disk[b] else ZeroBlock()
  }

  /** bwrite: the buffer reaches the disk and is clean again. */
  function WriteBack(s: State, b: nat, v: Block): Outcome {
    if b < |s.disk| then
      Next(s.(disk := s.disk[b := v], cache := s.cache[b := v], dirty := s.dirty - {b}))
    else Panic
  }

  function WriteHead(c: Config, s: State): Outcome {
    if Encodable(s.lh) then WriteBack(s, c.l.start, PutHeader(View(s, c.l.start), s.lh)) else Panic
  }

  function WriteLogBlock(c: Config, s: State, t: nat): Outcome
    requires t < |s.lh|
  {
    WriteBack(s, c.l.Slot(t), View(s, s.lh[t]))
  }

  function InstallBlock(c: Config, s: State, t: nat): Outcome
    requires t < |s.lh|
  {
    WriteBack(s, s.lh[t], View(s, c.l.Slot(t)))
  }

  function DoBegin(s: State, p: nat): Outcome {
    if s.boot != Up || p >= |s.procs| || !s.procs[p].Idle? then Blocked
    else if s.committing then Blocked
    else if |s.lh| + (s.outstanding + 1) * MAXOPBLOCKS > LOGSIZE then Blocked
    else Next(s.(outstanding := s.outstanding + 1,
                 procs := s.procs[p := InOp(s.nextOp, {}, Nothing)],
                 nextOp := s.nextOp + 1))
  }

  predicate Locked(s: State, b: nat) {
    exists q :: 0 <= q < |s.procs| && s.procs[q].InOp? && s.procs[q].pending.Holding? && s.procs[q].pending.block == b
  }

  function DoCheck(c: Config, s: State, p: nat, b: nat, v: Block): Outcome {
    if p >= |s.procs| || !s.procs[p].InOp? || s.procs[p].pending.Holding? || Locked(s, b) then Blocked
    else if !c.l.Home(b) || |s.procs[p].logged + {b}| > c.budget then Blocked  // not a client of this budget
    else if |s.lh| >= LOGSIZE || |s.lh| >= c.l.size - 1 then Panic
    else if s.outstanding < 1 then Panic
    else Next(s.(procs := s.procs[p := s.procs[p].(pending := Holding(b, v))]))
  }

  function DoAppend(s: State, p: nat): Outcome {
    if p >= |s.procs| || !s.procs[p].InOp? || s.procs[p].pending.Nothing? then Blocked
    else
      var me := s.procs[p];
      var lh' := Absorb(s.lh, me.pending.block);
      if |lh'| > LOGSIZE then Panic  // block[] overrun
      else Next(s.(lh := lh',
                   cache := s.cache[me.pending.block := me.pending.value],
                   dirty := s.dirty + {me.pending.block},
                   procs := s.procs[p := InOp(me.op, me.logged + {me.pending.block}, Nothing)]))
  }

  function DoEnd(s: State, p: nat): Outcome {
    if p >= |s.procs| || !s.procs[p].InOp? || s.procs[p].pending.Holding? then Blocked
    else if s.committing then Panic
    else if s.outstanding - 1 == 0 then
      Next(s.(outstanding := 0, committing := true,
              procs := s.procs[p := Committer(if |s.lh| > 0 then WritingLog(0) else Finishing)]))
    else Next(s.(outstanding := s.outstanding - 1, procs := s.procs[p := Idle]))
  }

  function Into(o: Outcome, p: nat, phase: Phase): Outcome {
    if o.Next? && p < |o.s.procs| then Next(o.s.(procs := o.s.procs[p := Committer(phase)])) else o
  }

  function DoTick(c: Config, s: State, p: nat): Outcome {
    if p >= |s.procs| || !s.procs[p].Committer? then Blocked
    else match s.procs[p].phase
      case WritingLog(t) =>
        if t < |s.lh| then Into(WriteLogBlock(c, s, t), p, WritingLog(t + 1))
        else Into(WriteHead(c, s), p, Installing(0))
      case Installing(t) =>
        if t < |s.lh| then Into(InstallBlock(c, s, t), p, Installing(t + 1))
        else Into(WriteHead(c, s.(lh := [])), p, Finishing)
      case Finishing =>
        Next(s.(committing := false, procs := s.procs[p := Idle]))
  }

  function At(o: Outcome, boot: Boot): Outcome {
    if o.Next? then Next(o.s.(boot := boot)) else o
  }

  function DoBootTick(c: Config, s: State): Outcome {
    match s.boot
    case ReadingHead =>
      var h := View(s, c.l.start);
      if Count(h) > LOGSIZE then Panic else Next(s.(lh := Entries(h), boot := Replaying(0)))
    case Replaying(t) =>
      if t < |s.lh| then At(InstallBlock(c, s, t), Replaying(t + 1))
      else At(WriteHead(c, s.(lh := [])), Up)
    case Up => Blocked
  }

  /** The machine comes up with nothing but its disk. */
  function Rebooted(disk: Disk, nproc: nat, nextOp: nat): State {
    State(disk, map[], {}, [], 0, false, seq(nproc, _ => Idle), ReadingHead, nextOp)
  }

  function Do(c: Config, s: State, step: Step): Outcome {
    match step
    case Begin(p) => DoBegin(s, p)
    case Check(p, b, v) => DoCheck(c, s, p, b, v)
    case Append(p) => DoAppend(s, p)
    case End(p) => DoEnd(s, p)
    case Tick(p) => DoTick(c, s, p)
    case BootTick => DoBootTick(c, s)
    case Fetch(b) =>
      if b < |s.disk| && b !in s.cache then Next(s.(cache := s.cache[b := s.disk[b]])) else Blocked
    case Evict(b) =>
      if b in s.cache && b !in s.dirty then Next(s.(cache := s.cache - {b})) else Blocked
    case Crash => Next(Rebooted(s.disk, |s.procs|, s.nextOp))
  }

  function Run(c: Config, s: State, steps: seq<Step>): Outcome {
    if steps == [] then Next(s)
    else
      var o := Run(c, s, steps[..|steps| - 1]);
      if o.Next? then Do(c, o.s, steps[|steps| - 1]) else o
  }

  /** What the specification sees of a step. */
  function EventOf(s: State, step: Step): LogSpec.Event {
    match step
    case Begin(p) => LogSpec.Begin(s.nextOp)
    case Append(p) =>
      if p < |s.procs| && s.procs[p].InOp? && s.procs[p].pending.Holding? then
        LogSpec.Write(LogSpec.Update(s.procs[p].op, s.procs[p].pending.block, s.procs[p].pending.value))
      else LogSpec.Silent
    case End(p) =>
      if p < |s.procs| && s.procs[p].InOp? then LogSpec.End(s.procs[p].op) else LogSpec.Silent
    case Tick(p) =>
      if p < |s.procs| && s.procs[p] == Committer(WritingLog(|s.lh|)) then LogSpec.Commit else LogSpec.Silent
    case Crash => LogSpec.Crash
    case _ => LogSpec.Silent
  }

  // ----- Sums over the process table -----

  function Sum(ps: seq<Proc>, f: Proc -> int): int {
    if ps == [] then 0 else f(ps[0]) + Sum(ps[1..], f)
  }

  lemma SumUpdate(ps: seq<Proc>, f: Proc -> int, p: nat, x: Proc)
    requires p < |ps|
    ensures Sum(ps[p := x], f) == Sum(ps, f) - f(ps[p]) + f(x)
  {
    if p > 0 {
      assert ps[p := x][1..] == ps[1..][p - 1 := x];
      SumUpdate(ps[1..], f, p - 1, x);
    } else {
      assert ps[p := x][1..] == ps[1..];
    }
  }

  lemma SumBounds(ps: seq<Proc>, f: Proc -> int, p: nat)
    requires p < |ps|
    requires forall i :: 0 <= i < |ps| ==> f(ps[i]) >= 0
    ensures Sum(ps, f) >= f(ps[p])
  {
    if p > 0 {
      SumBounds(ps[1..], f, p - 1);
    } else if |ps| > 1 {
      SumBounds(ps[1..], f, 0);
    }
  }

  lemma SumZero(ps: seq<Proc>, f: Proc -> int)
    requires forall i :: 0 <= i < |ps| ==> f(ps[i]) == 0
    ensures Sum(ps, f) == 0
  {
  }

  /** Pointwise at most k times another sum, pointwise. */
  lemma SumScale(ps: seq<Proc>, f: Proc -> int, g: Proc -> int, k: nat)
    requires forall i :: 0 <= i < |ps| ==> f(ps[i]) <= k * g(ps[i])
    ensures Sum(ps, f) <= k * Sum(ps, g)
  {
    if ps != [] {
      SumScale(ps[1..], f, g, k);
    }
  }

  function InOpCount(): Proc -> int { (q: Proc) => if q.InOp? then 1 else 0 }

  /** Blocks the operation may still add. */
  function Unused(budget: nat): Proc -> int { (q: Proc) => if q.InOp? then budget - |q.logged| else 0 }
}

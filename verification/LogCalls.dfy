/**
 What the callers of the log asked for, read off the steps of a run: the events of the specification
 are the calls, with the arguments the callers gave.
 */
module LogCalls {
  import opened Blocks
  import opened LogLayout
  import opened LogMachine
  import opened LogRefinement
  import LogSpec

  /** Process p has called log_write for block b with contents v, and nothing has come of it yet. */
  predicate Called(steps: seq<Step>, p: nat, b: nat, v: Block) {
    steps != [] &&
    var last := steps[|steps| - 1];
    if last.Crash? || last == Append(p) then false
    else if last.Check? && last.p == p then last == Check(p, b, v)
    else Called(steps[..|steps| - 1], p, b, v)
  }

  /** Process p is between begin_op and end_op. */
  predicate Inside(steps: seq<Step>, p: nat) {
    steps != [] &&
    var last := steps[|steps| - 1];
    last == Begin(p) || (!last.Crash? && last != End(p) && Inside(steps[..|steps| - 1], p))
  }

  /** Operations are numbered in the order of their begin_op. */
  function Begun(steps: seq<Step>): nat {
    if steps == [] then 0 else Begun(steps[..|steps| - 1]) + if steps[|steps| - 1].Begin? then 1 else 0
  }

  /** The number of p's latest operation. */
  function Latest(steps: seq<Step>, p: nat): nat {
    if steps == [] then 0
    else if steps[|steps| - 1] == Begin(p) then Begun(steps[..|steps| - 1])
    else Latest(steps[..|steps| - 1], p)
  }

  /** What the machine has for process p is what it called. */
  ghost predicate Heard(s: State, steps: seq<Step>, p: nat) {
    && s.nextOp == Begun(steps)
    && (Inside(steps, p) <==> p < |s.procs| && s.procs[p].InOp?)
    && (Inside(steps, p) ==> s.procs[p].op == Latest(steps, p))
    && (forall b: nat, v: Block :: Called(steps, p, b, v) <==> p < |s.procs| && s.procs[p].InOp? && s.procs[p].pending == Holding(b, v))
  }

  /** What a step does to the entry of process p. */
  ghost predicate Moves(s: State, step: Step, s': State, p: nat) {
    && |s'.procs| == |s.procs| && s'.nextOp == s.nextOp + (if step.Begin? then 1 else 0)
    && (p < |s.procs| ==>
          var x, x' := s.procs[p], s'.procs[p];
          if step.Crash? then x'.Idle?
          else if step == Begin(p) then x.Idle? && x' == InOp(s.nextOp, {}, Nothing)
          else if step.Check? && step.p == p then x.InOp? && x' == x.(pending := Holding(step.block, step.value))
          else if step == Append(p) then x.InOp? && x'.InOp? && x' == InOp(x.op, x'.logged, Nothing)
          else if step == End(p) then x.InOp? && x.pending.Nothing? && !x'.InOp?
          else if step == Tick(p) then !x.InOp? && !x'.InOp?
          else x' == x)
    && (step == Begin(p) || (step.Check? && step.p == p) || step == Append(p) || step == End(p) ==> p < |s.procs|)
  }

  lemma TickMoves(c: Config, s: State, q: nat, s': State, p: nat)
    requires DoTick(c, s, q) == Next(s')
    ensures Moves(s, Tick(q), s', p)
  {
    hide PutHeader, View;
  }

  lemma BootMoves(c: Config, s: State, s': State, p: nat)
    requires DoBootTick(c, s) == Next(s')
    ensures Moves(s, BootTick, s', p)
  {
    hide PutHeader, View;
  }

  lemma StepMoves(c: Config, s: State, step: Step, s': State, p: nat)
    requires Do(c, s, step) == Next(s')
    ensures Moves(s, step, s', p)
  {
    hide DoTick, DoBootTick, Absorb;
    match step
    case Tick(q) => TickMoves(c, s, q, s', p);
    case BootTick => BootMoves(c, s, s', p);
    case _ =>
  }

  lemma StepHeard(s: State, steps: seq<Step>, step: Step, s': State, p: nat)
    requires Moves(s, step, s', p) && Heard(s, steps, p)
    ensures Heard(s', steps + [step], p)
  {
    var all := steps + [step];
    assert all[..|all| - 1] == steps && all[|all| - 1] == step;
  }

  lemma {:induction false} RunHeard(c: Config, d: Disk, nproc: nat, steps: seq<Step>, p: nat)
    requires Run(c, Rebooted(d, nproc, 0), steps).Next?
    ensures Heard(Run(c, Rebooted(d, nproc, 0), steps).s, steps, p)
  {
    if steps != [] {
      var start, before, step := Rebooted(d, nproc, 0), steps[..|steps| - 1], steps[|steps| - 1];
      RunHeard(c, d, nproc, before, p);
      StepMoves(c, Run(c, start, before).s, step, Run(c, start, steps).s, p);
      StepHeard(Run(c, start, before).s, before, step, Run(c, start, steps).s, p);
      assert before + [step] == steps;
    }
  }

  /**
   In every run a log_write takes effect exactly for what its caller gave it: there was a call with a block
   and contents, the event is the write of just those by the caller's operation, and from then on the block
   reads as those contents and every other block as before.
   */
  lemma WritesAsCalled(c: Config, d: Disk, nproc: nat, steps: seq<Step>, p: nat)
    requires Run(c, Rebooted(d, nproc, 0), steps + [Append(p)]).Next?
    ensures Run(c, Rebooted(d, nproc, 0), steps).Next?
    ensures exists b: nat, v: Block :: Called(steps, p, b, v)
    ensures forall b: nat, v: Block :: Called(steps, p, b, v) ==>
      var start, all := Rebooted(d, nproc, 0), steps + [Append(p)];
      var s, s' := Run(c, start, steps).s, Run(c, start, all).s;
      && Inside(steps, p)
      && Events(c, start, all) == Events(c, start, steps) + [LogSpec.Write(LogSpec.Update(Latest(steps, p), b, v))]
      && View(s', b) == v && forall x: nat :: x != b ==> View(s', x) == View(s, x)
  {
    var start, all := Rebooted(d, nproc, 0), steps + [Append(p)];
    assert all[..|all| - 1] == steps;
    RunHeard(c, d, nproc, steps, p);
    var s := Run(c, start, steps).s;
    assert s.procs[p].pending.Holding?;
    assert Called(steps, p, s.procs[p].pending.block, s.procs[p].pending.value);
  }

  /** And end_op ends the caller's operation, begin_op begins the next one. */
  lemma EndsAsCalled(c: Config, d: Disk, nproc: nat, steps: seq<Step>, p: nat)
    requires Run(c, Rebooted(d, nproc, 0), steps).Next?
    ensures var start, all := Rebooted(d, nproc, 0), steps + [End(p)];
      Run(c, start, all).Next? ==>
        Inside(steps, p) && Events(c, start, all) == Events(c, start, steps) + [LogSpec.End(Latest(steps, p))]
    ensures var start, all := Rebooted(d, nproc, 0), steps + [Begin(p)];
      Run(c, start, all).Next? ==>
        !Inside(steps, p) && Events(c, start, all) == Events(c, start, steps) + [LogSpec.Begin(Begun(steps))]
  {
    assert (steps + [End(p)])[..|steps|] == steps && (steps + [Begin(p)])[..|steps|] == steps;
    RunHeard(c, d, nproc, steps, p);
  }
}

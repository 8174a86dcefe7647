/**
 What a caller may rely on once the log is at rest: with no operation running and no commit under way,
 everything that was written since the last crash is in a committed group, and survives the next one.
 */
module LogDurable {
  import opened LogLayout
  import opened LogMachine
  import opened LogTable
  import opened LogRefinement
  import LogSpec

  // ----- The specification -----

  /** Operation `op` began, and there has been no crash since. */
  predicate Unbroken(es: seq<LogSpec.Event>, op: LogSpec.OpId) {
    es != [] &&
    var e := es[|es| - 1];
    e == LogSpec.Begin(op) || (e != LogSpec.Crash && Unbroken(es[..|es| - 1], op))
  }

  /** All that `op` wrote, if it wrote anything, is in one committed group. */
  ghost predicate Committed(es: seq<LogSpec.Event>, op: LogSpec.OpId) {
    LogSpec.WritesBy(es, op) == [] ||
    exists k :: 0 <= k < |LogSpec.After(es).committed| && LogSpec.Of(LogSpec.After(es).committed[k], op) == LogSpec.WritesBy(es, op)
  }

  /** What an unbroken operation wrote is in a committed group, or in the open one. */
  lemma {:induction false} NothingMislaid(es: seq<LogSpec.Event>, op: LogSpec.OpId)
    requires LogSpec.Legal(es) && Unbroken(es, op)
    ensures Committed(es, op) || LogSpec.Of(LogSpec.After(es).current, op) == LogSpec.WritesBy(es, op)
  {
    var before, e := es[..|es| - 1], es[|es| - 1];
    var a, a' := LogSpec.After(before), LogSpec.After(es);
    LogSpec.OperationsAreAtomic(before);
    LogSpec.OperationsAreAtomic(es);
    if e != LogSpec.Begin(op) && op !in a'.active {
      NothingMislaid(before, op);
      assert LogSpec.WritesBy(es, op) == LogSpec.WritesBy(before, op);
      if LogSpec.WritesBy(es, op) == [] {
      } else if Committed(before, op) {
        var k :| 0 <= k < |a.committed| && LogSpec.Of(a.committed[k], op) == LogSpec.WritesBy(before, op);
        assert a'.committed[k] == a.committed[k];
      } else if e == LogSpec.Commit {
        assert a'.committed[|a.committed|] == a.current;
      }
    }
  }

  // ----- The machine -----

  /** The open group has updates only while the list does, and before the header write of its commit. */
  ghost predicate Open(s: State, a: LogSpec.Spec) {
    && (forall i :: 0 <= i < |s.procs| && s.procs[i].Committer? && s.procs[i].phase.WritingLog? ==> s.procs[i].phase.tail <= |s.lh|)
    && (a.current != [] ==>
          && s.boot == Up && s.lh != []
          && forall i :: 0 <= i < |s.procs| && s.procs[i].Committer? ==> s.procs[i].phase.WritingLog?)
  }

  /** Only an operation appends, and there is none while booting or committing. */
  lemma AppendOpen(s: State, p: nat, s': State, a: LogSpec.Spec, e: LogSpec.Event)
    requires Roles(s) && DoAppend(s, p) == Next(s') && Open(s, a)
    ensures Open(s', LogSpec.Apply(a, e))
  {
    if s.boot != Up || s.committing {
      NobodyIn(s);
      assert false;
    }
    assert !AnyCommitter(s.procs);
  }

  lemma TickOpen(c: Config, s: State, p: nat, s': State, a: LogSpec.Spec)
    requires Roles(s) && DoTick(c, s, p) == Next(s') && Open(s, a)
    ensures Open(s', LogSpec.Apply(a, EventOf(s, Tick(p))))
  {
    hide PutHeader, View, Sum;
    assert forall i :: 0 <= i < |s.procs| && s.procs[i].Committer? ==> i == p;
  }

  lemma BootOpen(c: Config, s: State, s': State, a: LogSpec.Spec)
    requires Roles(s) && DoBootTick(c, s) == Next(s') && Open(s, a)
    ensures Open(s', a)
  {
    hide PutHeader, View, Sum;
    assert !AnyCommitter(s.procs);
  }

  lemma OpenKept(c: Config, s: State, step: Step, s': State, a: LogSpec.Spec)
    requires Roles(s) && Do(c, s, step) == Next(s') && Open(s, a)
    ensures Open(s', LogSpec.Apply(a, EventOf(s, step)))
  {
    hide DoAppend, DoTick, DoBootTick, Sum, Roles, PutHeader, View;
    match step
    case Append(p) => AppendOpen(s, p, s', a, EventOf(s, step));
    case Tick(p) => TickOpen(c, s, p, s', a);
    case BootTick => BootOpen(c, s, s', a);
    case _ =>
  }

  lemma {:induction false} RunOpen(c: Config, d: Disk, nproc: nat, steps: seq<Step>)
    requires c.budget <= MAXOPBLOCKS && Run(c, Rebooted(d, nproc, 0), steps).Next?
    ensures Open(Run(c, Rebooted(d, nproc, 0), steps).s, LogSpec.After(Events(c, Rebooted(d, nproc, 0), steps)))
  {
    if steps != [] {
      var start, before, step := Rebooted(d, nproc, 0), steps[..|steps| - 1], steps[|steps| - 1];
      RunOpen(c, d, nproc, before);
      RunTable(c, d, nproc, before);
      var s, es := Run(c, start, before).s, Events(c, start, steps);
      OpenKept(c, s, step, Run(c, start, steps).s, LogSpec.After(Events(c, start, before)));
      assert es[..|es| - 1] == Events(c, start, before);
    }
  }

  /**
   Durability. Whenever the system is up with no operation running and no commit under way, recovering
   the disk yields what reads see, and each operation since the last crash is whole in a committed group.
   */
  lemma AtRestAllIsDurable(c: Config, d: Disk, nproc: nat, steps: seq<Step>)
    requires c.Valid() && GoodDisk(c.l, d) && Run(c, Rebooted(d, nproc, 0), steps).Next?
    ensures var s := Run(c, Rebooted(d, nproc, 0), steps).s;
            var es := Events(c, Rebooted(d, nproc, 0), steps);
            s.boot == Up && s.outstanding == 0 && !s.committing ==>
              && GoodDisk(c.l, s.disk)
              && (forall b: nat | c.l.Home(b) :: Recover(c.l, s.disk)[b] == View(s, b))
              && (forall op {:trigger Unbroken(es, op)} :: Unbroken(es, op) ==> Committed(es, op))
  {
    var s := Run(c, Rebooted(d, nproc, 0), steps).s;
    var es := Events(c, Rebooted(d, nproc, 0), steps);
    if s.boot == Up && s.outstanding == 0 && !s.committing {
      CrashSafety(c, d, nproc, steps);
      RunTable(c, d, nproc, steps);
      RunOpen(c, d, nproc, steps);
      assert LogSpec.After(es).current == [];
      forall op | Unbroken(es, op) ensures Committed(es, op) {
        NothingMislaid(es, op);
      }
    }
  }
}

/**
 What each call of proc.c does to the table, said of the entries before and after it: whom wait reaps, whom exit,
 wakeup and kill make runnable, which entry and pid a child gets; and that no two processes ever share a pid.
 */
module ProcCalls {
  import opened Options
  import opened Proc
  import opened ProcInv

  /** Entry q is the lowest zombie child of p. */
  ghost predicate FirstDead(s: Sys, p: nat, q: nat) {
    && q < |s.procs| && s.procs[q].state == Zombie && s.procs[q].parent == Some(p)
    && forall k :: 0 <= k < q ==> !(s.procs[k].state == Zombie && s.procs[k].parent == Some(p))
  }

  /** Nothing but entry q, the lock and the pages in use is different. */
  ghost predicate OnlyEntry(s: Sys, s': Sys, q: nat) {
    && |s'.procs| == |s.procs| && s'.cpus == s.cpus && s'.nextpid == s.nextpid
    && forall k :: 0 <= k < |s.procs| && k != q ==> s'.procs[k] == s.procs[k]
  }

  ghost predicate SamePages(s: Sys, s': Sys) { s'.stacks == s.stacks && s'.tables == s.tables }

  /** wait by p on CPU c: reap the lowest zombie child; sleep if there are children and none is a zombie; or return. */
  ghost predicate Waited(s: Sys, c: nat, p: nat, s': Sys) {
    && p < |s.procs|
    && (forall q: nat :: FirstDead(s, p, q) ==>
          && OnlyEntry(s, s', q) && s'.lock == s.lock
          && s'.procs[q].state == Unused && s'.procs[q].pid == 0 && s'.procs[q].parent == None && !s'.procs[q].killed
          && s'.procs[q].kstack == None
          && (s.procs[q].kstack.Some? ==> s'.stacks == s.stacks - {s.procs[q].kstack.value})
          && (s.procs[q].pgdir.Some? ==> s'.tables == s.tables - {s.procs[q].pgdir.value}))
    && ((forall q: nat :: !FirstDead(s, p, q)) ==>
          if (exists k :: 0 <= k < |s.procs| && s.procs[k].parent == Some(p)) && !s.procs[p].killed then
            && OnlyEntry(s, s', p) && SamePages(s, s') && s'.lock == Some(c)
            && s'.procs[p] == s.procs[p].(state := Sleeping, chan := Kids(p))
          else s' == s)
  }

  lemma WaitDoes(s: Sys, c: nat)
    requires Do(s, Wait(c)).Some?
    ensures c < |s.cpus| && s.cpus[c].on.Some? && Waited(s, c, s.cpus[c].on.value, Do(s, Wait(c)).value)
  {
    var p := s.cpus[c].on.value;
    var q := FirstZombie(s.procs, p, 0);
    if q < |s.procs| { assert FirstDead(s, p, q); }
    forall k: nat | FirstDead(s, p, k) ensures k == q {
      assert ZombieChild(s.procs[k], p);
    }
  }

  /**
   wait in any run: it does just that, and what it frees is the stack and page table of that one zombie, which no
   other process has and no CPU runs on.
   */
  lemma WaitReaps(s0: Sys, run: seq<Step>, c: nat)
    requires Start(s0) && After(s0, run).Some? && Do(After(s0, run).value, Wait(c)).Some?
    ensures var s, s' := After(s0, run).value, Do(After(s0, run).value, Wait(c)).value;
            && c < |s.cpus| && s.cpus[c].on.Some? && Waited(s, c, s.cpus[c].on.value, s')
            && (forall q: nat :: FirstDead(s, s.cpus[c].on.value, q) ==> SafeToFree(s, q))
  {
    hide Do, Inv, Waited, SafeToFree, Start;
    var s := After(s0, run).value;
    StartInv(s0);
    RunKeeps(s0, run);
    WaitDoes(s, c);
    WaitUnlocked(s, c);
    forall q: nat | FirstDead(s, s.cpus[c].on.value, q) ensures SafeToFree(s, q) {
      ZombieSafe(s, q);
    }
  }

  lemma WaitUnlocked(s: Sys, c: nat)
    requires Do(s, Wait(c)).Some?
    ensures s.lock == None
  {
  }

  // ----- exit, wakeup and kill -----

  ghost predicate HasDead(procs: seq<Proc>, p: nat) {
    exists q :: 0 <= q < |procs| && procs[q].state == Zombie && procs[q].parent == Some(p)
  }

  /** exit by p: a zombie, its children init's; its parent's wait is woken, and init's if it gets a zombie. */
  ghost predicate Exits(s: Sys, c: nat, p: nat, s': Sys) {
    && p < |s.procs| && s' == s.(procs := s'.procs, lock := Some(c)) && |s'.procs| == |s.procs|
    && forall k :: 0 <= k < |s.procs| ==>
         var x := s.procs[k];
         var woken := x.state == Sleeping &&
           ((s.procs[p].parent.Some? && x.chan == Kids(s.procs[p].parent.value)) || (x.chan == Kids(0) && HasDead(s.procs, p)));
         s'.procs[k] == x.(state := if k == p then Zombie else if woken then Runnable else x.state,
                           parent := if x.parent == Some(p) then Some(0) else x.parent)
  }

  lemma ExitDoes(s: Sys, c: nat)
    requires Do(s, Exit(c)).Some?
    ensures c < |s.cpus| && s.cpus[c].on.Some? && Exits(s, c, s.cpus[c].on.value, Do(s, Exit(c)).value)
  {
    ExitNeeds(s, c);
    hide Do, Exited, Wake, Orphaned, GivenAway, HasDead;
    var p := s.cpus[c].on.value;
    var woken := match s.procs[p].parent case None => s.procs case Some(q) => Wake(s.procs, Kids(q));
    ExitedIs(s.procs, p, woken);
    GivenIs(woken, p);
    assert HasDead(woken, p) <==> HasDead(s.procs, p) by { DeadStay(s.procs, woken, p); }
  }

  lemma ExitNeeds(s: Sys, c: nat)
    requires Do(s, Exit(c)).Some?
    ensures c < |s.cpus| && s.cpus[c].on.Some? && s.cpus[c].on.value < |s.procs|
    ensures Do(s, Exit(c)) == Some(s.(procs := Exited(s.procs, s.cpus[c].on.value), lock := Some(c)))
  {
    hide Exited;
  }

  lemma ExitedIs(procs: seq<Proc>, p: nat, woken: seq<Proc>)
    requires p < |procs| && woken == match procs[p].parent case None => procs case Some(q) => Wake(procs, Kids(q))
    ensures |woken| == |procs| && Exited(procs, p) == GivenAway(woken, p)[p := GivenAway(woken, p)[p].(state := Zombie)]
  {
  }

  lemma GivenIs(procs: seq<Proc>, p: nat)
    ensures forall k :: 0 <= k < |procs| ==>
      var x := procs[k];
      GivenAway(procs, p)[k] == x.(state := if x.state == Sleeping && x.chan == Kids(0) && HasDead(procs, p) then Runnable else x.state,
                                   parent := if x.parent == Some(p) then Some(0) else x.parent)
  {
    if HasDead(procs, p) {
      var q :| 0 <= q < |procs| && procs[q].state == Zombie && procs[q].parent == Some(p);
      assert ZombieChild(procs[q], p);
    }
  }

  lemma DeadStay(procs: seq<Proc>, procs': seq<Proc>, p: nat)
    requires |procs'| == |procs| && forall k :: 0 <= k < |procs| ==>
      procs'[k].parent == procs[k].parent && (procs'[k].state == Zombie <==> procs[k].state == Zombie)
    ensures HasDead(procs', p) <==> HasDead(procs, p)
  {
  }

  /** kill marks its target, and makes it runnable if it sleeps, whatever it sleeps on. */
  lemma KillDoes(s: Sys, c: nat, q: nat)
    requires Do(s, Kill(c, q)).Some?
    ensures var s' := Do(s, Kill(c, q)).value;
            && q < |s.procs| && OnlyEntry(s, s', q) && SamePages(s, s') && s'.lock == s.lock
            && s'.procs[q].killed && s'.procs[q].state == (if s.procs[q].state == Sleeping then Runnable else s.procs[q].state)
            && s'.procs[q] == s.procs[q].(killed := true, state := s'.procs[q].state)
  {
  }

  // ----- fork -----

  /** Entry n is the lowest unused one. */
  ghost predicate FirstFree(s: Sys, n: nat) {
    n < |s.procs| && s.procs[n].state == Unused && forall k :: 0 <= k < n ==> s.procs[k].state != Unused
  }

  lemma AllocNeeds(s: Sys, c: nat)
    requires Do(s, AllocProc(c)).Some?
    ensures c < |s.cpus| && s.cpus[c].on.Some? && Runs(s, c, s.cpus[c].on.value) && s.lock == None && s.procs[s.cpus[c].on.value].fork == None
  {
  }

  /** allocproc: the lowest unused entry, with the next pid. */
  lemma AllocDoes(s: Sys, c: nat, n: nat)
    requires Inv(s) && Do(s, AllocProc(c)).Some? && FirstFree(s, n)
    ensures var s', p := Do(s, AllocProc(c)).value, s.cpus[c].on.value;
            && n != p && |s'.procs| == |s.procs| && s'.procs[p] == s.procs[p].(fork := Some(n)) && s'.nextpid == s.nextpid + 1
            && s'.procs[n] == s.procs[n].(state := Embryo, pid := s.nextpid, maker := Some(p)) && s' == s.(procs := s'.procs, nextpid := s'.nextpid)
            && s.procs[n].parent == None && s.procs[n].kstack == None
            && forall k :: 0 <= k < |s.procs| && k != p && k != n ==> s'.procs[k] == s.procs[k]
  {
    hide CpusOk, TablesOk;
    assert FirstUnused(s.procs, 0) == n;
    assert ParentOk(s.procs, n);
  }

  /** A fork that gets its pages, nobody else moving: a runnable child of p, with its own pid, stack and page table. */
  lemma ForkDoes(s: Sys, c: nat, n: nat, k: nat, d: nat)
    requires Inv(s) && Do(s, AllocProc(c)).Some? && FirstFree(s, n) && k !in s.stacks && d !in s.tables
    ensures var p := s.cpus[c].on.value;
            match After(s, [AllocProc(c), KStack(c, Some(k)), CopyVm(c, Some(d)), Publish(c)])
            case None => false
            case Some(s') =>
              && s'.procs == s.procs[n := s.procs[n].(state := Runnable, pid := s.nextpid, parent := Some(p), kstack := Some(k), pgdir := Some(d),
                                                     maker := None)]
              && s' == s.(procs := s'.procs, nextpid := s.nextpid + 1, stacks := s.stacks + {k}, tables := s.tables + {d})
  {
    hide Inv, After, Do, FirstUnused;
    AllocNeeds(s, c);
    var p := s.cpus[c].on.value;
    AllocDoes(s, c, n);
    var s1 := Do(s, AllocProc(c)).value;
    var s2 := Put(s1, n, s1.procs[n].(kstack := Some(k))).(stacks := s.stacks + {k});
    var s3 := Put(s2, n, s2.procs[n].(pgdir := Some(d), parent := Some(p))).(tables := s.tables + {d});
    var s4 := Put(Put(s3, n, s3.procs[n].(state := Runnable, maker := None)), p, s3.procs[p].(fork := None));
    StackGot(s1, c, p, n, k);
    TableGot(s2, c, p, n, d);
    ChildOut(s3, c, p, n);
    InTurn(s, AllocProc(c), s1, KStack(c, Some(k)), s2, CopyVm(c, Some(d)), s3, Publish(c), s4);
  }

  lemma StackGot(s: Sys, c: nat, p: nat, n: nat, k: nat)
    requires Runs(s, c, p) && n < |s.procs| && s.procs[p].fork == Some(n) && s.procs[n].kstack == None && k !in s.stacks
    ensures Do(s, KStack(c, Some(k))) == Some(Put(s, n, s.procs[n].(kstack := Some(k))).(stacks := s.stacks + {k}))
  {
  }

  lemma TableGot(s: Sys, c: nat, p: nat, n: nat, d: nat)
    requires Runs(s, c, p) && n < |s.procs| && s.procs[p].fork == Some(n) && s.procs[n].kstack.Some? && s.procs[n].parent == None && d !in s.tables
    ensures Do(s, CopyVm(c, Some(d))) == Some(Put(s, n, s.procs[n].(pgdir := Some(d), parent := Some(p))).(tables := s.tables + {d}))
  {
  }

  lemma ChildOut(s: Sys, c: nat, p: nat, n: nat)
    requires Runs(s, c, p) && s.lock == None && n < |s.procs| && s.procs[p].fork == Some(n) && s.procs[n].parent.Some?
    ensures Do(s, Publish(c)) == Some(Put(Put(s, n, s.procs[n].(state := Runnable, maker := None)), p, s.procs[p].(fork := None)))
  {
  }

  lemma InTurn(s: Sys, a: Step, s1: Sys, b: Step, s2: Sys, c: Step, s3: Sys, d: Step, s4: Sys)
    requires Do(s, a) == Some(s1) && Do(s1, b) == Some(s2) && Do(s2, c) == Some(s3) && Do(s3, d) == Some(s4)
    ensures After(s, [a, b, c, d]) == Some(s4)
  {
    hide Do;
    assert [a, b, c, d][1..] == [b, c, d] && [b, c, d][1..] == [c, d] && [c, d][1..] == [d];
    assert After(s3, [d]) == Some(s4);
    assert After(s2, [c, d]) == Some(s4);
    assert After(s1, [b, c, d]) == Some(s4);
  }

  /** A fork without a stack, or without a page table, leaves an unused entry and all pages as they were; only a pid is gone. */
  lemma ForkFails(s: Sys, c: nat, n: nat, k: nat)
    requires Inv(s) && Do(s, AllocProc(c)).Some? && FirstFree(s, n) && k !in s.stacks
    ensures var x := s.procs[n].(pid := s.nextpid, maker := None);
            && After(s, [AllocProc(c), KStack(c, None)]) == Some(s.(procs := s.procs[n := x], nextpid := s.nextpid + 1))
            && After(s, [AllocProc(c), KStack(c, Some(k)), CopyVm(c, None)]) ==
                 Some(s.(procs := s.procs[n := x.(pgdir := None)], nextpid := s.nextpid + 1))
  {
    hide Inv, After, Do, FirstUnused;
    AllocNeeds(s, c);
    var p := s.cpus[c].on.value;
    AllocDoes(s, c, n);
    var s1 := Do(s, AllocProc(c)).value;
    var s2 := Put(s1, n, s1.procs[n].(kstack := Some(k))).(stacks := s.stacks + {k});
    StackGot(s1, c, p, n, k);
    PagesNotGot(s1, c, p, n);
    PagesNotGot(s2, c, p, n);
    var u1 := Do(s1, KStack(c, None)).value;
    var u2 := Do(s2, CopyVm(c, None)).value;
    assert u1.procs == s.procs[n := s.procs[n].(pid := s.nextpid, maker := None)];
    assert u2.procs == s.procs[n := s.procs[n].(pid := s.nextpid, maker := None, pgdir := None)];
    assert s.stacks + {k} - {k} == s.stacks;
    InTwo(s, AllocProc(c), s1, KStack(c, None), u1);
    InTwo(s1, KStack(c, Some(k)), s2, CopyVm(c, None), u2);
    var run := [AllocProc(c), KStack(c, Some(k)), CopyVm(c, None)];
    assert run[1..] == [KStack(c, Some(k)), CopyVm(c, None)];
    First(s, run, s1);
  }

  lemma PagesNotGot(s: Sys, c: nat, p: nat, n: nat)
    requires Runs(s, c, p) && n < |s.procs| && n != p && s.procs[p].fork == Some(n) && s.procs[n].parent == None
    ensures if s.procs[n].kstack == None then
              Do(s, KStack(c, None)) ==
                Some(Put(Put(s, n, s.procs[n].(state := Unused, maker := None)), p, s.procs[p].(fork := None)))
            else
              Do(s, CopyVm(c, None)) ==
                Some(Put(Put(s, n, s.procs[n].(state := Unused, kstack := None, pgdir := None, maker := None)), p, s.procs[p].(fork := None))
                       .(stacks := s.stacks - {s.procs[n].kstack.value}))
  {
  }

  lemma First(s: Sys, run: seq<Step>, s1: Sys)
    requires run != [] && Do(s, run[0]) == Some(s1)
    ensures After(s, run) == After(s1, run[1..])
  {
    hide Do;
  }

  lemma InTwo(s: Sys, a: Step, s1: Sys, b: Step, s2: Sys)
    requires Do(s, a) == Some(s1) && Do(s1, b) == Some(s2)
    ensures After(s, [a, b]) == Some(s2)
  {
    hide Do;
    assert [a, b][1..] == [b];
    assert After(s1, [b]) == Some(s2);
  }

  // ----- Pids -----

  /** Entries in use have different pids, all handed out already. */
  ghost predicate PidsOk(s: Sys) {
    && (forall p :: 0 <= p < |s.procs| && s.procs[p].state != Unused ==> 0 < s.procs[p].pid < s.nextpid)
    && (forall p, q :: 0 <= p < q < |s.procs| && s.procs[p].state != Unused && s.procs[q].state != Unused ==> s.procs[p].pid != s.procs[q].pid)
  }

  /** Nobody in use is new or has another pid. */
  ghost predicate PidsSame(s: Sys, s': Sys) {
    && s'.nextpid == s.nextpid && |s'.procs| == |s.procs|
    && forall k :: 0 <= k < |s.procs| && s'.procs[k].state != Unused ==> s.procs[k].state != Unused && s'.procs[k].pid == s.procs[k].pid
  }

  lemma StepPids(s: Sys, a: Step)
    requires Inv(s) && Do(s, a).Some? && !a.AllocProc?
    ensures PidsSame(s, Do(s, a).value)
  {
    hide CpusOk, ParentsOk, StacksOk, TablesOk, Exited;
    if s.cpus[a.c].on.Some? && s.cpus[a.c].on.value < |s.procs| { assert ForkOk(s.procs, s.cpus[a.c].on.value); }
    if a.Exit? { ExitDoes(s, a.c); }
  }

  lemma PidsKept(s: Sys, a: Step)
    requires Inv(s) && PidsOk(s) && Do(s, a).Some?
    ensures PidsOk(Do(s, a).value)
  {
    hide Inv;
    if a.AllocProc? {
      var n := FirstUnused(s.procs, 0);
      AllocDoes(s, a.c, n);
    } else {
      StepPids(s, a);
    }
    hide Do;
  }

  /** In every run no two processes, zombies and embryos included, have the same pid. */
  lemma {:induction false} RunPids(s: Sys, run: seq<Step>)
    requires Inv(s) && PidsOk(s) && After(s, run).Some?
    ensures PidsOk(After(s, run).value)
    decreases |run|
  {
    hide Inv, Do, PidsOk;
    if run != [] {
      StepKeeps(s, run[0]);
      PidsKept(s, run[0]);
      RunPids(Do(s, run[0]).value, run[1..]);
    }
  }

  lemma PidsDiffer(s0: Sys, run: seq<Step>)
    requires Start(s0) && After(s0, run).Some?
    ensures PidsOk(After(s0, run).value)
  {
    hide Inv, Do;
    StartInv(s0);
    RunPids(s0, run);
  }

  // ----- Sleeping, waking, and the scheduler -----

  /** wakeup makes runnable exactly those that sleep on the channel. */
  lemma WakeupDoes(s: Sys, c: nat, chan: Chan)
    requires Do(s, Wakeup(c, chan)).Some?
    ensures var s' := Do(s, Wakeup(c, chan)).value;
            && s' == s.(procs := s'.procs) && |s'.procs| == |s.procs|
            && forall k :: 0 <= k < |s.procs| ==>
                 s'.procs[k] == if s.procs[k].state == Sleeping && s.procs[k].chan == chan then s.procs[k].(state := Runnable) else s.procs[k]
  {
  }

  /** The four steps from a process that stops to its CPU's scheduler with the lock free again. */
  function Away(c: nat, stop: Step): seq<Step> { [stop, Switch(c), Clear(c), Release(c)] }

  /** yield and sleep, up to where others can run: the process is runnable, or asleep on the channel, and its CPU idle. */
  lemma StopsRunning(s: Sys, c: nat, chan: Chan)
    requires CpusOk(s) && s.lock == None && c < |s.cpus| && s.cpus[c].on.Some? && s.procs[s.cpus[c].on.value].fork == None && chan.Other?
    ensures var p := s.cpus[c].on.value;
            var idle := s.(cpus := s.cpus[c := Cpu(None, None)]);
            && After(s, Away(c, Yield(c))) == Some(Put(idle, p, s.procs[p].(state := Runnable)))
            && After(s, Away(c, Sleep(c, chan))) == Some(Put(idle, p, s.procs[p].(state := Sleeping, chan := chan)))
  {
    var p := s.cpus[c].on.value;
    var x, y := s.procs[p].(state := Runnable), s.procs[p].(state := Sleeping, chan := chan);
    assert Runs(s, c, p) && s.cpus[c] == Cpu(Some(p), Some(p));
    Stops(s, c, p, chan);
    hide CpusOk, After, Do, Runs;
    ToScheduler(s, c, p, x, Yield(c));
    ToScheduler(s, c, p, y, Sleep(c, chan));
  }

  lemma Stops(s: Sys, c: nat, p: nat, chan: Chan)
    requires Runs(s, c, p) && s.lock == None && s.procs[p].fork == None && chan.Other?
    ensures Do(s, Yield(c)) == Some(Put(s, p, s.procs[p].(state := Runnable)).(lock := Some(c)))
    ensures Do(s, Sleep(c, chan)) == Some(Put(s, p, s.procs[p].(state := Sleeping, chan := chan)).(lock := Some(c)))
  {
  }

  lemma ToScheduler(s: Sys, c: nat, p: nat, x: Proc, stop: Step)
    requires c < |s.cpus| && p < |s.procs| && s.lock == None && s.cpus[c] == Cpu(Some(p), Some(p)) && x.state != Running
    requires Do(s, stop) == Some(Put(s, p, x).(lock := Some(c)))
    ensures After(s, Away(c, stop)) == Some(Put(s.(cpus := s.cpus[c := Cpu(None, None)]), p, x))
  {
    hide Do;
    var s1 := Put(s, p, x).(lock := Some(c));
    var s2 := PutCpu(s1, c, Cpu(Some(p), None));
    var s3 := PutCpu(s2, c, Cpu(None, None));
    var s4 := s3.(lock := None);
    Switches(s1, c, p);
    Clears(s2, c, p);
    Releases(s3, c);
    InTurn(s, stop, s1, Switch(c), s2, Clear(c), s3, Release(c), s4);
    assert s4 == Put(s.(cpus := s.cpus[c := Cpu(None, None)]), p, x);
  }

  lemma Switches(s: Sys, c: nat, p: nat)
    requires c < |s.cpus| && p < |s.procs| && s.lock == Some(c) && s.cpus[c] == Cpu(Some(p), Some(p)) && s.procs[p].state != Running
    ensures Do(s, Switch(c)) == Some(PutCpu(s, c, Cpu(Some(p), None)))
  {
  }

  lemma Clears(s: Sys, c: nat, p: nat)
    requires c < |s.cpus| && s.lock == Some(c) && s.cpus[c] == Cpu(Some(p), None)
    ensures Do(s, Clear(c)) == Some(PutCpu(s, c, Cpu(None, None)))
  {
  }

  lemma Releases(s: Sys, c: nat)
    requires c < |s.cpus| && s.lock == Some(c) && s.cpus[c] == Cpu(None, None)
    ensures Do(s, Release(c)) == Some(s.(lock := None))
  {
  }

  /** An idle CPU can take any runnable process, which then runs on it. */
  lemma StartsRunning(s: Sys, c: nat, p: nat)
    requires s.lock == None && c < |s.cpus| && s.cpus[c] == Cpu(None, None) && p < |s.procs| && s.procs[p].state == Runnable
    ensures After(s, [Acquire(c), Pick(c, p), Release(c)]) ==
            Some(Put(s.(cpus := s.cpus[c := Cpu(Some(p), Some(p))]), p, s.procs[p].(state := Running)))
  {
    var s1 := s.(lock := Some(c));
    var s2 := PutCpu(Put(s1, p, s.procs[p].(state := Running)), c, Cpu(Some(p), Some(p)));
    var s3 := s2.(lock := None);
    assert Do(s, Acquire(c)) == Some(s1);
    assert Do(s1, Pick(c, p)) == Some(s2);
    assert Do(s2, Release(c)) == Some(s3);
    hide Do;
    InTwo(s1, Pick(c, p), s2, Release(c), s3);
    var run := [Acquire(c), Pick(c, p), Release(c)];
    assert run[1..] == [Pick(c, p), Release(c)];
    First(s, run, s1);
  }
}

/**
 The process table of proc.c and the CPUs that run its processes. A step is one critical
 section under ptable.lock, or the part of one up to a context switch: the lock stays held
 from a process through swtch into the scheduler, and from the scheduler into a process.
 */
module Proc {
  import opened Options

  datatype PState = Unused | Embryo | Sleeping | Runnable | Running | Zombie

  /** What a process can sleep on: itself, in wait, or anything else. */
  datatype Chan = Kids(p: nat) | Other(id: nat)

  /** struct proc. `fork` is the child that the process is in the middle of making, `maker` the other way round. */
  datatype Proc = Proc(state: PState, pid: nat, parent: Option<nat>, chan: Chan, killed: bool,
                       kstack: Option<nat>, pgdir: Option<nat>, fork: Option<nat>, maker: Option<nat>) {
    predicate Alive() { state.Sleeping? || state.Runnable? || state.Running? }
    predicate Live() { Alive() || state.Zombie? }

    /** pgdir is a page table of its own, and not what an earlier process left there: from copyuvm on, which gives an embryo its parent. */
    predicate HasDir() { Live() || (state.Embryo? && parent.Some?) }
  }

  /** struct cpu: its proc field, and the process on whose kernel stack it runs (None for the scheduler's). */
  datatype Cpu = Cpu(proc: Option<nat>, on: Option<nat>)

  /** stacks and tables are the pages handed out as kernel stacks and page tables. Process 0 is init. */
  datatype Sys = Sys(procs: seq<Proc>, cpus: seq<Cpu>, lock: Option<nat>, nextpid: nat, stacks: set<nat>, tables: set<nat>)

  const INIT: nat := 0

  // ----- Loops over the table -----

  /** wakeup1. */
  function Wake(procs: seq<Proc>, chan: Chan): (r: seq<Proc>)
    ensures |r| == |procs|
    ensures forall i :: 0 <= i < |r| ==>
      r[i] == if procs[i].state == Sleeping && procs[i].chan == chan then procs[i].(state := Runnable) else procs[i]
  {
    seq(|procs|, i requires 0 <= i < |procs| =>
      if procs[i].state == Sleeping && procs[i].chan == chan then procs[i].(state := Runnable) else procs[i])
  }

  /** exit's loop without its wakeups: the children of p go to init. */
  function Orphaned(procs: seq<Proc>, p: nat): (r: seq<Proc>)
    ensures |r| == |procs|
    ensures forall i :: 0 <= i < |r| ==>
      r[i] == if procs[i].parent == Some(p) then procs[i].(parent := Some(INIT)) else procs[i]
  {
    seq(|procs|, i requires 0 <= i < |procs| =>
      if procs[i].parent == Some(p) then procs[i].(parent := Some(INIT)) else procs[i])
  }

  predicate ZombieChild(x: Proc, p: nat) { x.parent == Some(p) && x.state == Zombie }

  /** The first process from i on that satisfies one of the two tests; |procs| if there is none. */
  function FirstUnused(procs: seq<Proc>, i: nat): (r: nat)
    requires i <= |procs|
    ensures i <= r <= |procs| && (r < |procs| ==> procs[r].state == Unused)
    ensures forall k :: i <= k < r ==> procs[k].state != Unused
    decreases |procs| - i
  {
    if i == |procs| || procs[i].state == Unused then i else FirstUnused(procs, i + 1)
  }

  function FirstZombie(procs: seq<Proc>, p: nat, i: nat): (r: nat)
    requires i <= |procs|
    ensures i <= r <= |procs| && (r < |procs| ==> ZombieChild(procs[r], p))
    ensures forall k :: i <= k < r ==> !ZombieChild(procs[k], p)
    decreases |procs| - i
  {
    if i == |procs| || ZombieChild(procs[i], p) then i else FirstZombie(procs, p, i + 1)
  }

  ghost predicate HasKids(procs: seq<Proc>, p: nat) {
    exists i :: 0 <= i < |procs| && procs[i].parent == Some(p)
  }

  /** exit's loop: the children of p go to init, which is woken if one of them is a zombie. */
  function GivenAway(procs: seq<Proc>, p: nat): (r: seq<Proc>)
    ensures |r| == |procs|
  {
    var orphaned := Orphaned(procs, p);
    if exists i :: 0 <= i < |procs| && ZombieChild(procs[i], p) then Wake(orphaned, Kids(INIT)) else orphaned
  }

  /** All that exit does to the table. */
  function Exited(procs: seq<Proc>, p: nat): (r: seq<Proc>)
    requires p < |procs|
    ensures |r| == |procs|
  {
    var woken := match procs[p].parent case None => procs case Some(q) => Wake(procs, Kids(q));
    var given := GivenAway(woken, p);
    given[p := given[p].(state := Zombie)]
  }

  /** The ptable as the object that these loops run over. */
  class Table {
    var procs: seq<Proc>

    method Wakeup1(chan: Chan)
      modifies this
      ensures procs == Wake(old(procs), chan)
    {
      var i := 0;
      while i < |procs|
        invariant i <= |procs| == |old(procs)|
        invariant forall k :: 0 <= k < i ==> procs[k] == Wake(old(procs), chan)[k]
        invariant forall k :: i <= k < |procs| ==> procs[k] == old(procs)[k]
      {
        if procs[i].state == Sleeping && procs[i].chan == chan {
          procs := procs[i := procs[i].(state := Runnable)];
        }
        i := i + 1;
      }
    }

    /** allocproc's search. */
    method FindUnused() returns (i: nat)
      ensures i == FirstUnused(procs, 0)
    {
      i := 0;
      while i < |procs| && procs[i].state != Unused
        invariant i <= |procs| && FirstUnused(procs, i) == FirstUnused(procs, 0)
      {
        i := i + 1;
      }
    }

    method GiveAway(p: nat)
      modifies this
      ensures procs == GivenAway(old(procs), p)
    {
      ghost var told := false;
      var i := 0;
      while i < |procs|
        invariant i <= |procs| == |old(procs)|
        invariant told <==> exists k :: 0 <= k < i && ZombieChild(old(procs)[k], p)
        invariant forall k :: 0 <= k < |procs| ==> procs[k] == Given(old(procs)[k], p, told, k < i)
      {
        if procs[i].parent == Some(p) {
          procs := procs[i := procs[i].(parent := Some(INIT))];
          if procs[i].state == Zombie {
            told := true;
            Wakeup1(Kids(INIT));
          }
        }
        i := i + 1;
      }
    }

    /** exit, from acquire to sched. */
    method Exit(p: nat)
      requires p < |procs|
      modifies this
      ensures procs == Exited(old(procs), p)
    {
      if procs[p].parent.Some? {
        Wakeup1(Kids(procs[p].parent.value));
      }
      GiveAway(p);
      procs := procs[p := procs[p].(state := Zombie)];
    }

    /** wait's scan. */
    method FindZombie(p: nat) returns (i: nat, havekids: bool)
      ensures i == FirstZombie(procs, p, 0) && (i == |procs| ==> (havekids <==> HasKids(procs, p)))
    {
      i, havekids := 0, false;
      while i < |procs|
        invariant i <= |procs| && FirstZombie(procs, p, i) == FirstZombie(procs, p, 0)
        invariant havekids <==> exists k :: 0 <= k < i && procs[k].parent == Some(p)
      {
        if procs[i].parent == Some(p) {
          havekids := true;
          if procs[i].state == Zombie {
            return;
          }
        }
        i := i + 1;
      }
    }
  }

  /** One entry in the middle of exit's loop. */
  function Given(x: Proc, p: nat, told: bool, seen: bool): Proc {
    var y := if seen && x.parent == Some(p) then x.(parent := Some(INIT)) else x;
    if told && y.state == Sleeping && y.chan == Kids(INIT) then y.(state := Runnable) else y
  }

  // ----- The machine -----

  datatype Step =
    | AllocProc(c: nat)                 // fork: an entry is taken
    | KStack(c: nat, k: Option<nat>)    // fork: kalloc answers
    | CopyVm(c: nat, d: Option<nat>)    // fork: copyuvm answers
    | Publish(c: nat)                   // fork: the child becomes runnable
    | Yield(c: nat)
    | Sleep(c: nat, chan: Chan)
    | Exit(c: nat)
    | Wait(c: nat)
    | Wakeup(c: nat, chan: Chan)
    | Kill(c: nat, p: nat)
    | Switch(c: nat)                    // sched: from the process to the scheduler
    | Clear(c: nat)                     // scheduler: c->proc = 0
    | Pick(c: nat, p: nat)              // scheduler: c->proc = p, and over to it
    | Acquire(c: nat)                   // scheduler
    | Release(c: nat)                   // scheduler, or a process that is back from sched

  function Put(s: Sys, p: nat, x: Proc): Sys
    requires p < |s.procs|
  {
    s.(procs := s.procs[p := x])
  }

  function PutCpu(s: Sys, c: nat, x: Cpu): Sys
    requires c < |s.cpus|
  {
    s.(cpus := s.cpus[c := x])
  }

  /** CPU c runs process p, which is not in a critical section of the table. */
  predicate Runs(s: Sys, c: nat, p: nat) {
    c < |s.cpus| && p < |s.procs| && s.cpus[c].on == Some(p) && s.procs[p].state == Running && s.lock != Some(c)
  }

  // What is left of an entry: by allocproc without a stack, by fork without a page table, and by wait. Some fields stay.
  function NoStack(x: Proc): Proc { x.(state := Unused, maker := None) }
  function NoDir(x: Proc): Proc { x.(state := Unused, kstack := None, pgdir := None, maker := None) }
  function Buried(x: Proc): Proc { x.(state := Unused, pid := 0, parent := None, killed := false, kstack := None) }

  ghost function Do(s: Sys, a: Step): Option<Sys> {
    if a.c >= |s.cpus| then None else
    var c := a.c;
    var on := s.cpus[c].on;
    if a.Switch? then
      if s.lock == Some(c) && on.Some? && on.value < |s.procs| && s.procs[on.value].state != Running
      then Some(PutCpu(s, c, s.cpus[c].(on := None))) else None
    else if a.Clear? then
      if s.lock == Some(c) && on == None && s.cpus[c].proc.Some? then Some(PutCpu(s, c, Cpu(None, None))) else None
    else if a.Pick? then
      if s.lock == Some(c) && s.cpus[c] == Cpu(None, None) && a.p < |s.procs| && s.procs[a.p].state == Runnable
      then Some(PutCpu(Put(s, a.p, s.procs[a.p].(state := Running)), c, Cpu(Some(a.p), Some(a.p)))) else None
    else if a.Acquire? then
      if s.lock == None && s.cpus[c] == Cpu(None, None) then Some(s.(lock := Some(c))) else None
    else if a.Release? then
      if s.lock == Some(c) && (s.cpus[c] == Cpu(None, None) || (on.Some? && on.value < |s.procs| && s.procs[on.value].state == Running))
      then Some(s.(lock := None)) else None
    else if on.Some? && Runs(s, c, on.value) then ByProcess(s, a, on.value)
    else None
  }

  /** What a running process can do. */
  ghost function ByProcess(s: Sys, a: Step, p: nat): Option<Sys>
    requires p < |s.procs|
  {
    var x := s.procs[p];
    match a
    case AllocProc(c) =>
      var np := FirstUnused(s.procs, 0);
      if s.lock != None || x.fork != None || np == |s.procs| then None
      else Some(Put(Put(s, np, s.procs[np].(state := Embryo, pid := s.nextpid, maker := Some(p))), p, x.(fork := Some(np))).(nextpid := s.nextpid + 1))
    case KStack(c, k) =>
      if x.fork == None || x.fork.value >= |s.procs| || s.procs[x.fork.value].kstack != None || (k.Some? && k.value in s.stacks) then None
      else
        var np := x.fork.value;
        if k.Some? then Some(Put(s, np, s.procs[np].(kstack := k)).(stacks := s.stacks + {k.value}))
        else Some(Put(Put(s, np, NoStack(s.procs[np])), p, x.(fork := None)))
    case CopyVm(c, d) =>
      if x.fork == None || x.fork.value >= |s.procs| || s.procs[x.fork.value].kstack == None || s.procs[x.fork.value].parent != None
        || (d.Some? && d.value in s.tables) then None
      else
        var np := x.fork.value;
        if d.Some? then Some(Put(s, np, s.procs[np].(pgdir := d, parent := Some(p))).(tables := s.tables + {d.value}))
        else Some(Put(Put(s, np, NoDir(s.procs[np])), p, x.(fork := None)).(stacks := s.stacks - {s.procs[np].kstack.value}))
    case Publish(c) =>
      if s.lock != None || x.fork == None || x.fork.value >= |s.procs| || s.procs[x.fork.value].parent == None then None
      else
        var np := x.fork.value;
        Some(Put(Put(s, np, s.procs[np].(state := Runnable, maker := None)), p, x.(fork := None)))
    case Yield(c) => if s.lock != None then None else Some(Put(s, p, x.(state := Runnable)).(lock := Some(c)))
    case Sleep(c, chan) =>
      if s.lock != None || x.fork != None || !chan.Other? then None    // only wait sleeps on a process
      else Some(Put(s, p, x.(state := Sleeping, chan := chan)).(lock := Some(c)))
    case Exit(c) =>
      if s.lock != None || x.fork != None || p == INIT then None else Some(s.(procs := Exited(s.procs, p), lock := Some(c)))
    case Wait(c) =>
      if s.lock != None || x.fork != None then None
      else
        var q := FirstZombie(s.procs, p, 0);
        if q < |s.procs| then Some(Reaped(s, q))
        else if !HasKids(s.procs, p) || x.killed then Some(s)
        else Some(Put(s, p, x.(state := Sleeping, chan := Kids(p))).(lock := Some(c)))
    case Wakeup(c, chan) => if s.lock != None then None else Some(s.(procs := Wake(s.procs, chan)))
    case Kill(c, q) =>
      if s.lock != None || q >= |s.procs| then None
      else
        var y := s.procs[q].(killed := true);
        Some(Put(s, q, if y.state == Sleeping then y.(state := Runnable) else y))
    case _ => None
  }

  /** wait, having found zombie q: its stack and page table are freed and its entry given up. */
  function Reaped(s: Sys, q: nat): Sys
    requires q < |s.procs|
  {
    var y := s.procs[q];
    Put(s, q, Buried(y)).(stacks := s.stacks - (if y.kstack.Some? then {y.kstack.value} else {}),
                         tables := s.tables - (if y.pgdir.Some? then {y.pgdir.value} else {}))
  }
}

/**
 What every interleaving of the process table's critical sections keeps: who runs where, who
 is whose parent, and which stacks and page tables are in use.
 */
module ProcInv {
  import opened Options
  import opened Proc

  // ----- The invariant -----

  ghost predicate OnSomeCpu(s: Sys, p: nat) {
    exists c :: 0 <= c < |s.cpus| && s.cpus[c].proc == Some(p)
  }

  /** A CPU's proc field names a running process of its own, but for the holder of the lock, who may be switching. */
  ghost predicate CpusOk(s: Sys) {
    && (s.lock.Some? ==> s.lock.value < |s.cpus|)
    && (forall c :: 0 <= c < |s.cpus| && s.cpus[c].proc.Some? ==> s.cpus[c].proc.value < |s.procs|)
    && (forall c :: 0 <= c < |s.cpus| && s.cpus[c].on.Some? ==> s.cpus[c].on == s.cpus[c].proc)
    && (forall c :: 0 <= c < |s.cpus| && s.cpus[c].proc.Some? && s.lock != Some(c) ==>
          s.cpus[c].on == s.cpus[c].proc && s.procs[s.cpus[c].proc.value].state == Running)
    && (forall c :: 0 <= c < |s.cpus| && s.cpus[c].proc.Some? && s.cpus[c].on == None ==> s.procs[s.cpus[c].proc.value].state != Running)
    && (forall b, c :: 0 <= b < c < |s.cpus| && s.cpus[b].proc.Some? ==> s.cpus[b].proc != s.cpus[c].proc)
    && (forall p :: 0 <= p < |s.procs| && s.procs[p].state == Running ==> OnSomeCpu(s, p))
  }

  /** The parent of a process other than init is alive. An unused entry has none. */
  predicate ParentOk(procs: seq<Proc>, p: nat)
    requires p < |procs|
  {
    && (procs[p].Live() && p != INIT ==>
          procs[p].parent.Some? && procs[p].parent.value < |procs| && procs[procs[p].parent.value].Alive())
    && (procs[p].state == Unused ==> procs[p].parent == None)
  }

  /** Init is alive, and so is the parent of every other process, zombies included. */
  ghost predicate ParentsOk(s: Sys) {
    INIT < |s.procs| && s.procs[INIT].Alive() && forall p :: 0 <= p < |s.procs| ==> ParentOk(s.procs, p)
  }

  /** The child that p is making is an embryo, and p is its maker. */
  predicate ForkOk(procs: seq<Proc>, p: nat)
    requires p < |procs|
  {
    procs[p].fork.Some? ==>
      && procs[p].Alive() && procs[p].fork.value < |procs|
      && procs[procs[p].fork.value].state == Embryo && procs[procs[p].fork.value].maker == Some(p)
  }

  /** An embryo has a maker, who will be its parent. */
  predicate EmbryoOk(procs: seq<Proc>, p: nat)
    requires p < |procs|
  {
    procs[p].state == Embryo ==>
      && procs[p].fork == None && procs[p].maker.Some? && procs[p].maker.value < |procs| && procs[procs[p].maker.value].fork == Some(p)
      && (procs[p].parent == None || procs[p].parent == procs[p].maker)
  }

  ghost predicate ForksOk(s: Sys) {
    (forall p :: 0 <= p < |s.procs| ==> ForkOk(s.procs, p)) && (forall p :: 0 <= p < |s.procs| ==> EmbryoOk(s.procs, p))
  }

  /** Whose stack k is, and whose page table d is. */
  ghost function StackOf(procs: seq<Proc>, k: nat): nat {
    if exists p :: 0 <= p < |procs| && procs[p].kstack == Some(k) then var p :| 0 <= p < |procs| && procs[p].kstack == Some(k); p else |procs|
  }

  /** d is the page table of x. */
  predicate Maps(x: Proc, d: nat) { x.HasDir() && x.pgdir == Some(d) }

  ghost function TableOf(procs: seq<Proc>, d: nat): nat {
    if exists p :: 0 <= p < |procs| && Maps(procs[p], d) then var p :| 0 <= p < |procs| && Maps(procs[p], d); p else |procs|
  }

  /** Every page in use as a stack is one process's, and every live process has one. */
  ghost predicate StacksOk(s: Sys) {
    && (forall p :: 0 <= p < |s.procs| && s.procs[p].kstack.Some? ==> s.procs[p].kstack.value in s.stacks)
    && (forall p, q :: 0 <= p < q < |s.procs| && s.procs[p].kstack.Some? ==> s.procs[p].kstack != s.procs[q].kstack)
    && (forall k {:trigger StackOf(s.procs, k)} | k in s.stacks :: StackOf(s.procs, k) < |s.procs| && s.procs[StackOf(s.procs, k)].kstack == Some(k))
    && (forall p :: 0 <= p < |s.procs| ==>
          && (s.procs[p].Live() ==> s.procs[p].kstack.Some?) && (s.procs[p].state == Unused ==> s.procs[p].kstack == None)
          && (s.procs[p].HasDir() ==> s.procs[p].kstack.Some?))
  }

  /** The same for page tables; what is left in other entries does not matter. */
  ghost predicate TablesOk(s: Sys) {
    && (forall p :: 0 <= p < |s.procs| && s.procs[p].HasDir() ==> s.procs[p].pgdir.Some? && s.procs[p].pgdir.value in s.tables)
    && (forall p, q :: 0 <= p < q < |s.procs| && s.procs[p].HasDir() && s.procs[q].HasDir() ==> s.procs[p].pgdir != s.procs[q].pgdir)
    && (forall d {:trigger TableOf(s.procs, d)} | d in s.tables :: TableOf(s.procs, d) < |s.procs| && Maps(s.procs[TableOf(s.procs, d)], d))
  }

  ghost predicate Rest(s: Sys) { ParentsOk(s) && ForksOk(s) && StacksOk(s) && TablesOk(s) }

  ghost predicate Inv(s: Sys) { CpusOk(s) && Rest(s) }

  // ----- Who runs where -----

  /** The CPUs, the lock, and who is running stay the same. */
  lemma CpusSame(s: Sys, s': Sys)
    requires CpusOk(s) && s'.cpus == s.cpus && s'.lock == s.lock && |s'.procs| == |s.procs|
    requires forall p :: 0 <= p < |s.procs| ==> (s'.procs[p].state == Running <==> s.procs[p].state == Running)
    ensures CpusOk(s')
  {
    forall p | 0 <= p < |s.procs| && s'.procs[p].state == Running ensures OnSomeCpu(s', p) {
      assert OnSomeCpu(s, p);
    }
  }

  /** Process p, running on c, takes the lock and stops running; it is still on its stack. */
  lemma CpusStop(s: Sys, s': Sys, c: nat, p: nat)
    requires CpusOk(s) && s.lock == None && c < |s.cpus| && p < |s.procs| && s.cpus[c].on == Some(p)
    requires s'.cpus == s.cpus && s'.lock == Some(c) && |s'.procs| == |s.procs|
    requires forall q :: 0 <= q < |s.procs| ==> (s'.procs[q].state == Running <==> s.procs[q].state == Running && q != p)
    ensures CpusOk(s')
  {
    forall q | 0 <= q < |s.procs| && s'.procs[q].state == Running ensures OnSomeCpu(s', q) {
      assert OnSomeCpu(s, q);
    }
  }

  lemma CpusSwitch(s: Sys, s': Sys, c: nat)
    requires CpusOk(s) && s.lock == Some(c) && c < |s.cpus| && s.cpus[c].on.Some? && s.cpus[c].on.value < |s.procs|
    requires s.procs[s.cpus[c].on.value].state != Running && s' == PutCpu(s, c, s.cpus[c].(on := None))
    ensures CpusOk(s')
  {
    forall q | 0 <= q < |s.procs| && s'.procs[q].state == Running ensures OnSomeCpu(s', q) {
      var b :| 0 <= b < |s.cpus| && s.cpus[b].proc == Some(q);
      assert s'.cpus[b].proc == Some(q);
    }
  }

  lemma CpusClear(s: Sys, s': Sys, c: nat)
    requires CpusOk(s) && s.lock == Some(c) && c < |s.cpus| && s.cpus[c].on == None && s.cpus[c].proc.Some?
    requires s' == PutCpu(s, c, Cpu(None, None))
    ensures CpusOk(s')
  {
    forall q | 0 <= q < |s.procs| && s'.procs[q].state == Running ensures OnSomeCpu(s', q) {
      var b :| 0 <= b < |s.cpus| && s.cpus[b].proc == Some(q);
      assert s'.cpus[b].proc == Some(q);
    }
  }

  lemma CpusPick(s: Sys, s': Sys, c: nat, p: nat)
    requires CpusOk(s) && s.lock == Some(c) && c < |s.cpus| && s.cpus[c] == Cpu(None, None)
    requires p < |s.procs| && s.procs[p].state == Runnable
    requires s' == PutCpu(Put(s, p, s.procs[p].(state := Running)), c, Cpu(Some(p), Some(p)))
    ensures CpusOk(s')
  {
    forall q | 0 <= q < |s.procs| && s'.procs[q].state == Running ensures OnSomeCpu(s', q) {
      if q == p {
        assert s'.cpus[c].proc == Some(p);
      } else {
        var b :| 0 <= b < |s.cpus| && s.cpus[b].proc == Some(q);
        assert s'.cpus[b].proc == Some(q);
      }
    }
  }

  lemma CpusLock(s: Sys, s': Sys, c: nat)
    requires CpusOk(s) && c < |s.cpus| && s' == s.(lock := s'.lock)
    requires || (s.lock == None && s'.lock == Some(c))
             || (s.lock == Some(c) && s'.lock == None
                 && (s.cpus[c].proc == None || (s.cpus[c].on.Some? && s.cpus[c].on.value < |s.procs| && s.procs[s.cpus[c].on.value].state == Running)))
    ensures CpusOk(s')
  {
    forall q | 0 <= q < |s.procs| && s'.procs[q].state == Running ensures OnSomeCpu(s', q) {
      assert OnSomeCpu(s, q);
    }
  }

  // ----- Changes among the living -----

  /** Entries change only in how an alive process waits: its state, channel and killed flag. */
  ghost predicate Restless(procs: seq<Proc>, procs': seq<Proc>) {
    && |procs'| == |procs|
    && forall i :: 0 <= i < |procs| ==>
         && procs'[i] == procs[i].(state := procs'[i].state, chan := procs'[i].chan, killed := procs'[i].killed)
         && (procs'[i].state == procs[i].state || (procs[i].Alive() && procs'[i].Alive()))
  }

  lemma RestlessParents(s: Sys, s': Sys)
    requires ParentsOk(s) && Restless(s.procs, s'.procs)
    ensures ParentsOk(s')
  {
    forall i | 0 <= i < |s.procs| ensures ParentOk(s'.procs, i) {
      assert ParentOk(s.procs, i);
    }
  }

  lemma RestlessForks(s: Sys, s': Sys)
    requires ForksOk(s) && Restless(s.procs, s'.procs)
    ensures ForksOk(s')
  {
    forall i | 0 <= i < |s.procs| ensures ForkOk(s'.procs, i) && EmbryoOk(s'.procs, i) {
      assert ForkOk(s.procs, i) && EmbryoOk(s.procs, i);
    }
  }

  lemma RestlessStacks(s: Sys, s': Sys)
    requires StacksOk(s) && Restless(s.procs, s'.procs) && s'.stacks == s.stacks
    ensures StacksOk(s')
  {
    forall k {:trigger StackOf(s'.procs, k)} | k in s'.stacks
      ensures StackOf(s'.procs, k) < |s'.procs| && s'.procs[StackOf(s'.procs, k)].kstack == Some(k)
    {
      assert s'.procs[StackOf(s.procs, k)].kstack == Some(k);
    }
  }

  lemma RestlessTables(s: Sys, s': Sys)
    requires TablesOk(s) && Restless(s.procs, s'.procs) && s'.tables == s.tables
    ensures TablesOk(s')
  {
    forall d {:trigger TableOf(s'.procs, d)} | d in s'.tables
      ensures TableOf(s'.procs, d) < |s'.procs| && Maps(s'.procs[TableOf(s'.procs, d)], d)
    {
      assert Maps(s'.procs[TableOf(s.procs, d)], d);
    }
  }

  lemma RestlessKept(s: Sys, s': Sys)
    requires Rest(s) && Restless(s.procs, s'.procs) && s'.stacks == s.stacks && s'.tables == s.tables
    ensures Rest(s')
  {
    hide ParentsOk, ForksOk, StacksOk, TablesOk, Restless;
    RestlessParents(s, s');
    RestlessForks(s, s');
    RestlessStacks(s, s');
    RestlessTables(s, s');
  }

  /** An entry is given up, whatever else is left in it. */
  predicate Emptied(x: Proc, x': Proc) { x'.state == Unused && x'.kstack == None && x'.parent == None && x'.fork == x.fork }

  // ----- The page sets -----

  /** No stack changes hands. */
  lemma StacksSame(s: Sys, s': Sys)
    requires StacksOk(s) && s'.stacks == s.stacks && |s'.procs| == |s.procs|
    requires forall p :: 0 <= p < |s.procs| ==> s'.procs[p].kstack == s.procs[p].kstack
    requires forall p :: 0 <= p < |s.procs| ==>
               && (s'.procs[p].Live() ==> s.procs[p].kstack.Some?) && (s'.procs[p].state == Unused ==> s.procs[p].kstack == None)
               && (s'.procs[p].HasDir() ==> s.procs[p].kstack.Some?)
    ensures StacksOk(s')
  {
    forall k {:trigger StackOf(s'.procs, k)} | k in s'.stacks
      ensures StackOf(s'.procs, k) < |s'.procs| && s'.procs[StackOf(s'.procs, k)].kstack == Some(k)
    {
      assert s'.procs[StackOf(s.procs, k)].kstack == Some(k);
    }
  }

  /** Process q gets a stack that was free. */
  lemma StackTaken(s: Sys, s': Sys, q: nat, k: nat)
    requires StacksOk(s) && q < |s.procs| && s.procs[q].kstack == None && s.procs[q].state == Embryo && k !in s.stacks
    requires s'.stacks == s.stacks + {k} && s'.procs == s.procs[q := s.procs[q].(kstack := Some(k))]
    ensures StacksOk(s')
  {
    forall j {:trigger StackOf(s'.procs, j)} | j in s'.stacks
      ensures StackOf(s'.procs, j) < |s'.procs| && s'.procs[StackOf(s'.procs, j)].kstack == Some(j)
    {
      assert s'.procs[if j == k then q else StackOf(s.procs, j)].kstack == Some(j);
    }
  }

  /** Process q gives its stack back. */
  lemma StackFreed(s: Sys, s': Sys, q: nat)
    requires StacksOk(s) && q < |s.procs| && |s'.procs| == |s.procs| && s'.procs == s.procs[q := s'.procs[q]] && Emptied(s.procs[q], s'.procs[q])
    requires s'.stacks == s.stacks - (if s.procs[q].kstack.Some? then {s.procs[q].kstack.value} else {})
    ensures StacksOk(s')
  {
    forall j {:trigger StackOf(s'.procs, j)} | j in s'.stacks
      ensures StackOf(s'.procs, j) < |s'.procs| && s'.procs[StackOf(s'.procs, j)].kstack == Some(j)
    {
      assert s'.procs[StackOf(s.procs, j)].kstack == Some(j);
    }
  }

  lemma TablesSame(s: Sys, s': Sys)
    requires TablesOk(s) && s'.tables == s.tables && |s'.procs| == |s.procs|
    requires forall p :: 0 <= p < |s.procs| ==> s'.procs[p].pgdir == s.procs[p].pgdir && (s'.procs[p].HasDir() <==> s.procs[p].HasDir())
    ensures TablesOk(s')
  {
    forall d {:trigger TableOf(s'.procs, d)} | d in s'.tables
      ensures TableOf(s'.procs, d) < |s'.procs| && Maps(s'.procs[TableOf(s'.procs, d)], d)
    {
      assert Maps(s'.procs[TableOf(s.procs, d)], d);
    }
  }

  lemma TableTaken(s: Sys, s': Sys, q: nat, d: nat, x: Proc)
    requires TablesOk(s) && q < |s.procs| && !s.procs[q].HasDir() && d !in s.tables
    requires s'.tables == s.tables + {d} && s'.procs == s.procs[q := x] && x.pgdir == Some(d) && x.HasDir()
    ensures TablesOk(s')
  {
    forall j {:trigger TableOf(s'.procs, j)} | j in s'.tables
      ensures TableOf(s'.procs, j) < |s'.procs| && Maps(s'.procs[TableOf(s'.procs, j)], j)
    {
      assert Maps(s'.procs[if j == d then q else TableOf(s.procs, j)], j);
    }
  }

  lemma TableFreed(s: Sys, s': Sys, q: nat)
    requires TablesOk(s) && q < |s.procs| && |s'.procs| == |s.procs| && s'.procs == s.procs[q := s'.procs[q]] && Emptied(s.procs[q], s'.procs[q])
    requires s'.tables == s.tables - (if s.procs[q].HasDir() && s.procs[q].pgdir.Some? then {s.procs[q].pgdir.value} else {})
    ensures TablesOk(s')
  {
    forall j {:trigger TableOf(s'.procs, j)} | j in s'.tables
      ensures TableOf(s'.procs, j) < |s'.procs| && Maps(s'.procs[TableOf(s'.procs, j)], j)
    {
      assert Maps(s'.procs[TableOf(s.procs, j)], j);
    }
  }

  // ----- fork -----

  lemma AllocKept(s: Sys, s': Sys, p: nat, np: nat)
    requires ParentsOk(s) && ForksOk(s) && p < |s.procs| && np < |s.procs| && s.procs[p].Alive() && s.procs[p].fork == None
    requires s.procs[np].state == Unused
    requires s'.procs == s.procs[np := s.procs[np].(state := Embryo, pid := s.nextpid, maker := Some(p))][p := s.procs[p].(fork := Some(np))]
    ensures ParentsOk(s') && ForksOk(s')
  {
    forall i | 0 <= i < |s.procs| ensures ParentOk(s'.procs, i) && ForkOk(s'.procs, i) && EmbryoOk(s'.procs, i) {
      assert ParentOk(s.procs, i) && ForkOk(s.procs, i) && EmbryoOk(s.procs, i);
      assert EmbryoOk(s.procs, p) && ParentOk(s.procs, np) && ForkOk(s.procs, np);
    }
  }

  /** The embryo np of p gets its parent with its page table. */
  lemma CopyKept(s: Sys, s': Sys, p: nat, np: nat, x: Proc)
    requires ParentsOk(s) && ForksOk(s) && p < |s.procs| && np < |s.procs| && s.procs[p].fork == Some(np)
    requires s'.procs == s.procs[np := x]
    requires x == s.procs[np].(kstack := x.kstack, pgdir := x.pgdir, parent := x.parent)
    requires x.parent == Some(p) || x.parent == s.procs[np].parent
    ensures ParentsOk(s') && ForksOk(s')
  {
    assert ForkOk(s.procs, p) && s'.procs[INIT].Alive();
    forall i | 0 <= i < |s.procs| ensures ParentOk(s'.procs, i) && ForkOk(s'.procs, i) && EmbryoOk(s'.procs, i) {
      assert ParentOk(s.procs, i) && ForkOk(s.procs, i) && EmbryoOk(s.procs, i);
      assert ForkOk(s.procs, p);
    }
  }

  /** fork fails: the embryo's entry is free again. */
  lemma AbortKept(s: Sys, s': Sys, p: nat, np: nat)
    requires ParentsOk(s) && ForksOk(s) && p < |s.procs| && np < |s.procs| && s.procs[p].fork == Some(np)
    requires |s'.procs| == |s.procs| && s'.procs == s.procs[np := s'.procs[np]][p := s.procs[p].(fork := None)] && p != np
    requires Emptied(s.procs[np], s'.procs[np])
    ensures ParentsOk(s') && ForksOk(s')
  {
    assert ForkOk(s.procs, p) && s'.procs[INIT].Alive();
    forall i | 0 <= i < |s.procs| ensures ParentOk(s'.procs, i) && ForkOk(s'.procs, i) && EmbryoOk(s'.procs, i) {
      assert ParentOk(s.procs, i) && ForkOk(s.procs, i) && EmbryoOk(s.procs, i);
      assert ForkOk(s.procs, p) && EmbryoOk(s.procs, np);
    }
  }

  lemma PublishKept(s: Sys, s': Sys, p: nat, np: nat)
    requires ParentsOk(s) && ForksOk(s) && p < |s.procs| && np < |s.procs| && s.procs[p].fork == Some(np)
    requires s.procs[np].parent.Some?
    requires s'.procs == s.procs[np := s.procs[np].(state := Runnable, maker := None)][p := s.procs[p].(fork := None)]
    ensures ParentsOk(s') && ForksOk(s')
  {
    assert ForkOk(s.procs, p) && s'.procs[INIT].Alive();
    forall i | 0 <= i < |s.procs| ensures ParentOk(s'.procs, i) && ForkOk(s'.procs, i) && EmbryoOk(s'.procs, i) {
      assert ParentOk(s.procs, i) && ForkOk(s.procs, i) && EmbryoOk(s.procs, i);
      assert ForkOk(s.procs, p) && EmbryoOk(s.procs, np);
    }
  }

  // ----- exit and wait -----

  lemma OrphanKept(s: Sys, s': Sys, p: nat)
    requires ParentsOk(s) && ForksOk(s) && p < |s.procs| && s.procs[p].fork == None && p != INIT && s'.procs == Orphaned(s.procs, p)
    ensures ParentsOk(s') && ForksOk(s') && forall i :: 0 <= i < |s'.procs| ==> s'.procs[i].parent != Some(p)
  {
    forall i | 0 <= i < |s.procs| ensures ParentOk(s'.procs, i) && ForkOk(s'.procs, i) && EmbryoOk(s'.procs, i) {
      assert ParentOk(s.procs, i) && ForkOk(s.procs, i) && EmbryoOk(s.procs, i);
      if s.procs[i].maker.Some? && s.procs[i].maker.value < |s.procs| { assert ForkOk(s.procs, s.procs[i].maker.value); }
    }
  }

  lemma ZombieKept(s: Sys, s': Sys, p: nat)
    requires ParentsOk(s) && ForksOk(s) && p < |s.procs| && s.procs[p].fork == None && p != INIT && s.procs[p].Alive()
    requires forall i :: 0 <= i < |s.procs| ==> s.procs[i].parent != Some(p)
    requires s'.procs == s.procs[p := s.procs[p].(state := Zombie)]
    ensures ParentsOk(s') && ForksOk(s')
  {
    forall i | 0 <= i < |s.procs| ensures ParentOk(s'.procs, i) && ForkOk(s'.procs, i) && EmbryoOk(s'.procs, i) {
      assert ParentOk(s.procs, i) && ForkOk(s.procs, i) && EmbryoOk(s.procs, i);
    }
  }

  lemma ReapKept(s: Sys, s': Sys, q: nat)
    requires ParentsOk(s) && ForksOk(s) && q < |s.procs| && s.procs[q].state == Zombie
    requires |s'.procs| == |s.procs| && s'.procs == s.procs[q := s'.procs[q]] && Emptied(s.procs[q], s'.procs[q])
    ensures ParentsOk(s') && ForksOk(s')
  {
    forall i | 0 <= i < |s.procs| ensures ParentOk(s'.procs, i) && ForkOk(s'.procs, i) && EmbryoOk(s'.procs, i) {
      assert ParentOk(s.procs, i) && ForkOk(s.procs, i) && EmbryoOk(s.procs, i);
    }
  }

  // ----- Each step -----

  /** A step of the scheduler, or of a process on its way out of or into it. */
  lemma SchedulerKeeps(s: Sys, a: Step)
    requires Inv(s) && Do(s, a).Some? && (a.Switch? || a.Clear? || a.Pick? || a.Acquire? || a.Release?)
    ensures Inv(Do(s, a).value)
  {
    hide CpusOk, Rest;
    var s' := Do(s, a).value;
    RestlessKept(s, s');
    match a
    case Switch(c) => CpusSwitch(s, s', c);
    case Clear(c) => CpusClear(s, s', c);
    case Pick(c, p) => CpusPick(s, s', c, p);
    case Acquire(c) => CpusLock(s, s', c);
    case Release(c) => CpusLock(s, s', c);
  }

  /** yield, sleep, wakeup and kill. */
  lemma WaitingKeeps(s: Sys, a: Step)
    requires Inv(s) && Do(s, a).Some? && (a.Yield? || a.Sleep? || a.Wakeup? || a.Kill?)
    ensures Inv(Do(s, a).value)
  {
    hide CpusOk, Rest;
    var s' := Do(s, a).value;
    RestlessKept(s, s');
    if a.Yield? || a.Sleep? {
      CpusStop(s, s', a.c, s.cpus[a.c].on.value);
    } else {
      CpusSame(s, s');
    }
  }

  lemma AllocKeeps(s: Sys, a: Step)
    requires Inv(s) && Do(s, a).Some? && a.AllocProc?
    ensures Inv(Do(s, a).value)
  {
    hide CpusOk, ParentsOk, ForksOk, StacksOk, TablesOk;
    var s', p, np := Do(s, a).value, s.cpus[a.c].on.value, FirstUnused(s.procs, 0);
    CpusSame(s, s');
    NoParent(s, np);
    AllocKept(s, s', p, np);
    AllocPages(s, s', p, np);
  }

  lemma AllocPages(s: Sys, s': Sys, p: nat, np: nat)
    requires StacksOk(s) && TablesOk(s) && s'.stacks == s.stacks && s'.tables == s.tables && p < |s.procs| && np < |s.procs|
    requires s.procs[np].state == Unused && s.procs[np].parent == None && s.procs[p].state == Running
    requires s'.procs == s.procs[np := s.procs[np].(state := Embryo, pid := s.nextpid, maker := Some(p))][p := s.procs[p].(fork := Some(np))]
    ensures StacksOk(s') && TablesOk(s')
  {
    StacksSame(s, s');
    TablesSame(s, s');
  }

  lemma NoParent(s: Sys, p: nat)
    requires ParentsOk(s) && p < |s.procs| && s.procs[p].state == Unused
    ensures s.procs[p].parent == None
  {
    assert ParentOk(s.procs, p);
  }

  /** What a forking process and its embryo are like. */
  lemma Forking(s: Sys, p: nat)
    requires Rest(s) && p < |s.procs| && s.procs[p].fork.Some?
    ensures s.procs[p].fork.value < |s.procs| && s.procs[p].fork.value != p && s.procs[p].Alive()
    ensures s.procs[s.procs[p].fork.value].state == Embryo
    ensures s.procs[s.procs[p].fork.value].kstack == None ==> s.procs[s.procs[p].fork.value].parent == None
  {
    assert ForkOk(s.procs, p);
  }

  lemma KStackKeeps(s: Sys, a: Step)
    requires Inv(s) && Do(s, a).Some? && a.KStack?
    ensures Inv(Do(s, a).value)
  {
    hide CpusOk, ParentsOk, ForksOk, StacksOk, TablesOk;
    var s', p := Do(s, a).value, s.cpus[a.c].on.value;
    Forking(s, p);
    var np := s.procs[p].fork.value;
    CpusSame(s, s');
    if a.k.Some? {
      CopyKept(s, s', p, np, s'.procs[np]);
      StackTaken(s, s', np, a.k.value);
      EmbryoTables(s, s', np);
    } else {
      AbortKept(s, s', p, np);
      AbortPages(s, s', p, np);
    }
  }

  lemma EmbryoTables(s: Sys, s': Sys, np: nat)
    requires TablesOk(s) && s'.tables == s.tables && np < |s.procs| && s.procs[np].state == Embryo
    requires |s'.procs| == |s.procs| && s'.procs == s.procs[np := s.procs[np].(kstack := s'.procs[np].kstack)]
    ensures TablesOk(s')
  {
    TablesSame(s, s');
  }

  /** The embryo's pages go back. */
  lemma AbortPages(s: Sys, s': Sys, p: nat, np: nat)
    requires StacksOk(s) && TablesOk(s) && p < |s.procs| && np < |s.procs| && p != np && s.procs[np].state == Embryo && s.procs[np].parent == None
    requires |s'.procs| == |s.procs| && s'.procs == s.procs[np := s'.procs[np]][p := s.procs[p].(fork := None)] && Emptied(s.procs[np], s'.procs[np])
    requires s'.tables == s.tables && s'.stacks == s.stacks - (if s.procs[np].kstack.Some? then {s.procs[np].kstack.value} else {})
    ensures StacksOk(s') && TablesOk(s')
  {
    var s1 := s'.(procs := s.procs[np := s'.procs[np]]);
    StackFreed(s, s1, np);
    TableFreed(s, s1, np);
    StacksSame(s1, s');
    TablesSame(s1, s');
  }

  lemma CopyVmKeeps(s: Sys, a: Step)
    requires Inv(s) && Do(s, a).Some? && a.CopyVm?
    ensures Inv(Do(s, a).value)
  {
    hide CpusOk, ParentsOk, ForksOk, StacksOk, TablesOk;
    var s', p := Do(s, a).value, s.cpus[a.c].on.value;
    Forking(s, p);
    var np := s.procs[p].fork.value;
    CpusSame(s, s');
    if a.d.Some? {
      CopyKept(s, s', p, np, s'.procs[np]);
      TableTaken(s, s', np, a.d.value, s'.procs[np]);
      EmbryoStacks(s, s', np);
    } else {
      AbortKept(s, s', p, np);
      AbortPages(s, s', p, np);
    }
  }

  lemma EmbryoStacks(s: Sys, s': Sys, np: nat)
    requires StacksOk(s) && s'.stacks == s.stacks && np < |s.procs| && s.procs[np].state == Embryo && s.procs[np].kstack.Some?
    requires |s'.procs| == |s.procs|
    requires s'.procs == s.procs[np := s.procs[np].(pgdir := s'.procs[np].pgdir, parent := s'.procs[np].parent)]
    ensures StacksOk(s')
  {
    StacksSame(s, s');
  }

  lemma PublishKeeps(s: Sys, a: Step)
    requires Inv(s) && Do(s, a).Some? && a.Publish?
    ensures Inv(Do(s, a).value)
  {
    hide CpusOk, ParentsOk, ForksOk, StacksOk, TablesOk;
    var s', p := Do(s, a).value, s.cpus[a.c].on.value;
    Forking(s, p);
    var np := s.procs[p].fork.value;
    CpusSame(s, s');
    PublishKept(s, s', p, np);
    PublishPages(s, s', p, np);
  }

  lemma PublishPages(s: Sys, s': Sys, p: nat, np: nat)
    requires StacksOk(s) && TablesOk(s) && p < |s.procs| && np < |s.procs| && p != np && s.procs[np].state == Embryo && s.procs[np].parent.Some?
    requires s'.stacks == s.stacks && s'.tables == s.tables
    requires s'.procs == s.procs[np := s.procs[np].(state := Runnable, maker := None)][p := s.procs[p].(fork := None)]
    ensures StacksOk(s') && TablesOk(s')
  {
    StacksSame(s, s');
    TablesSame(s, s');
  }

  lemma ExitKeeps(s: Sys, a: Step)
    requires Inv(s) && Do(s, a).Some? && a.Exit?
    ensures Inv(Do(s, a).value)
  {
    hide CpusOk, Rest;
    var s', p := Do(s, a).value, s.cpus[a.c].on.value;
    ExitedStates(s.procs, p);
    CpusStop(s, s', a.c, p);
    ExitRest(s, s', p);
  }

  /** exit stops p and lets nobody else start or stop running. */
  lemma ExitedStates(procs: seq<Proc>, p: nat)
    requires p < |procs| && procs[p].state == Running
    ensures var r := Exited(procs, p);
            |r| == |procs| && forall q :: 0 <= q < |procs| ==> (r[q].state == Running <==> procs[q].state == Running && q != p)
  {
  }

  lemma ExitRest(s: Sys, s': Sys, p: nat)
    requires Rest(s) && p < |s.procs| && p != INIT && s.procs[p].state == Running && s.procs[p].fork == None
    requires s'.procs == Exited(s.procs, p) && s'.stacks == s.stacks && s'.tables == s.tables
    ensures Rest(s')
  {
    hide ParentsOk, ForksOk, StacksOk, TablesOk;
    var woken := match s.procs[p].parent case None => s.procs case Some(q) => Wake(s.procs, Kids(q));
    var s1 := s'.(procs := woken);
    RestlessKept(s, s1);
    var s2 := s'.(procs := Orphaned(woken, p));
    OrphanKept(s1, s2, p);
    OrphanPages(s1, s2, p);
    var s3 := s'.(procs := GivenAway(woken, p));
    RestlessKept(s2, s3);
    ZombieKept(s3, s', p);
    ZombiePages(s3, s', p);
  }

  lemma OrphanPages(s: Sys, s': Sys, p: nat)
    requires StacksOk(s) && TablesOk(s) && s'.procs == Orphaned(s.procs, p) && s'.stacks == s.stacks && s'.tables == s.tables
    ensures StacksOk(s') && TablesOk(s')
  {
    StacksSame(s, s');
    TablesSame(s, s');
  }

  lemma ZombiePages(s: Sys, s': Sys, p: nat)
    requires StacksOk(s) && TablesOk(s) && p < |s.procs| && s.procs[p].Alive() && s'.procs == s.procs[p := s.procs[p].(state := Zombie)]
    requires s'.stacks == s.stacks && s'.tables == s.tables
    ensures StacksOk(s') && TablesOk(s')
  {
    StacksSame(s, s');
    TablesSame(s, s');
  }

  lemma WaitKeeps(s: Sys, a: Step)
    requires Inv(s) && Do(s, a).Some? && a.Wait?
    ensures Inv(Do(s, a).value)
  {
    hide CpusOk, ParentsOk, ForksOk, StacksOk, TablesOk;
    var s', p := Do(s, a).value, s.cpus[a.c].on.value;
    var q := FirstZombie(s.procs, p, 0);
    if q < |s.procs| {
      CpusSame(s, s');
      ReapKept(s, s', q);
      StackFreed(s, s', q);
      TableFreed(s, s', q);
    } else if HasKids(s.procs, p) && !s.procs[p].killed {
      RestlessKept(s, s');
      CpusStop(s, s', a.c, p);
    }
  }

  lemma StepKeeps(s: Sys, a: Step)
    requires Inv(s) && Do(s, a).Some?
    ensures Inv(Do(s, a).value)
  {
    hide Inv, Do;
    match a
    case AllocProc(_) => AllocKeeps(s, a);
    case KStack(_, _) => KStackKeeps(s, a);
    case CopyVm(_, _) => CopyVmKeeps(s, a);
    case Publish(_) => PublishKeeps(s, a);
    case Exit(_) => ExitKeeps(s, a);
    case Wait(_) => WaitKeeps(s, a);
    case Yield(_) => WaitingKeeps(s, a);
    case Sleep(_, _) => WaitingKeeps(s, a);
    case Wakeup(_, _) => WaitingKeeps(s, a);
    case Kill(_, _) => WaitingKeeps(s, a);
    case _ => SchedulerKeeps(s, a);
  }

  // ----- Whole runs -----

  /** After userinit: init is runnable, the other entries and the CPUs are idle. */
  ghost predicate Start(s: Sys) {
    && INIT < |s.procs| && s.lock == None && s.nextpid == 2 && s.stacks == {0} && s.tables == {0}
    && s.procs[INIT] == Proc(Runnable, 1, None, Other(0), false, Some(0), Some(0), None, None)
    && (forall p :: 0 < p < |s.procs| ==> s.procs[p] == Proc(Unused, 0, None, Other(0), false, None, None, None, None))
    && (forall c :: 0 <= c < |s.cpus| ==> s.cpus[c] == Cpu(None, None))
  }

  ghost function After(s: Sys, run: seq<Step>): Option<Sys>
    decreases |run|
  {
    if run == [] then Some(s)
    else match Do(s, run[0])
      case None => None
      case Some(s1) => After(s1, run[1..])
  }

  lemma StartInv(s: Sys)
    requires Start(s)
    ensures Inv(s)
  {
    StartPages(s);
    hide StacksOk, TablesOk;
    forall p | 0 <= p < |s.procs| ensures ParentOk(s.procs, p) && ForkOk(s.procs, p) && EmbryoOk(s.procs, p) {
    }
  }

  lemma StartPages(s: Sys)
    requires Start(s)
    ensures StacksOk(s) && TablesOk(s)
  {
    assert s.procs[INIT].kstack == Some(0) && s.procs[INIT].pgdir == Some(0);
    assert StackOf(s.procs, 0) == 0 && TableOf(s.procs, 0) == 0;
  }

  lemma {:induction false} RunKeeps(s: Sys, run: seq<Step>)
    requires Inv(s) && After(s, run).Some?
    ensures Inv(After(s, run).value)
    decreases |run|
  {
    if run != [] {
      StepKeeps(s, run[0]);
      hide Inv, Do;
      RunKeeps(Do(s, run[0]).value, run[1..]);
    }
  }

  /** Whenever ptable.lock is free, a process is running exactly when a CPU's proc field names it, and only one does. */
  lemma RunningIffOnCpu(s0: Sys, run: seq<Step>, p: nat)
    requires Start(s0) && After(s0, run).Some?
    ensures var s := After(s0, run).value;
            s.lock == None && p < |s.procs| ==>
              && (s.procs[p].state == Running <==> OnSomeCpu(s, p))
              && (forall b, c :: 0 <= b < |s.cpus| && 0 <= c < |s.cpus| && s.cpus[b].proc == Some(p) && s.cpus[c].proc == Some(p) ==> b == c)
  {
    StartInv(s0);
    RunKeeps(s0, run);
    hide Rest;
  }

  /** At all times a live process other than init has a parent that is alive: neither a zombie nor an unused entry. */
  lemma ParentsAlive(s0: Sys, run: seq<Step>, p: nat)
    requires Start(s0) && After(s0, run).Some?
    ensures var s := After(s0, run).value;
            0 < p < |s.procs| && s.procs[p].Live() ==>
              s.procs[p].parent.Some? && s.procs[p].parent.value < |s.procs| && s.procs[s.procs[p].parent.value].Alive()
  {
    StartInv(s0);
    RunKeeps(s0, run);
    hide CpusOk, StacksOk, TablesOk;
    var s := After(s0, run).value;
    if p < |s.procs| { assert ParentOk(s.procs, p); }
  }

  /** What wait may free: a zombie's own stack and page table, in use by nobody else and under no CPU. */
  ghost predicate SafeToFree(s: Sys, q: nat)
    requires q < |s.procs|
  {
    && s.procs[q].kstack.Some? && s.procs[q].kstack.value in s.stacks && s.procs[q].pgdir.Some? && s.procs[q].pgdir.value in s.tables
    && (forall p :: 0 <= p < |s.procs| && p != q ==>
          s.procs[p].kstack != s.procs[q].kstack && (s.procs[p].HasDir() ==> s.procs[p].pgdir != s.procs[q].pgdir))
    && (forall c :: 0 <= c < |s.cpus| ==> s.cpus[c].on != Some(q) && s.cpus[c].proc != Some(q))
  }

  /** A wait that frees nothing, or the pages of one zombie that are safe to free. */
  ghost predicate FreesOnce(s: Sys, s': Sys) {
    || (s'.stacks == s.stacks && s'.tables == s.tables)
    || exists q :: 0 <= q < |s.procs| && s.procs[q].state == Zombie && SafeToFree(s, q)
          && s'.stacks == s.stacks - {s.procs[q].kstack.value} && s'.tables == s.tables - {s.procs[q].pgdir.value}
          && s'.procs == s.procs[q := Buried(s.procs[q])]
  }

  lemma WaitStep(s: Sys, c: nat)
    requires Inv(s) && Do(s, Wait(c)).Some?
    ensures FreesOnce(s, Do(s, Wait(c)).value)
  {
    hide Inv;
    var q := FirstZombie(s.procs, s.cpus[c].on.value, 0);
    if q < |s.procs| {
      ZombieSafe(s, q);
    }
  }

  /** wait frees a zombie's stack and page table once, and never while a CPU still runs on that stack. */
  lemma WaitFreesOnce(s0: Sys, run: seq<Step>, c: nat)
    requires Start(s0) && After(s0, run).Some? && Do(After(s0, run).value, Wait(c)).Some?
    ensures var s := After(s0, run).value; FreesOnce(s, Do(s, Wait(c)).value)
  {
    hide Inv, Do, FreesOnce;
    StartInv(s0);
    RunKeeps(s0, run);
    WaitStep(After(s0, run).value, c);
  }

  lemma ZombieSafe(s: Sys, q: nat)
    requires Inv(s) && s.lock == None && q < |s.procs| && s.procs[q].state == Zombie
    ensures SafeToFree(s, q)
  {
    hide ParentsOk, ForksOk;
  }

  /** No page leaks: every stack and page table handed out belongs to an entry of the table. */
  lemma NothingLeaks(s0: Sys, run: seq<Step>)
    requires Start(s0) && After(s0, run).Some?
    ensures var s := After(s0, run).value;
            && (forall k :: k in s.stacks ==> exists p :: 0 <= p < |s.procs| && s.procs[p].kstack == Some(k))
            && (forall d :: d in s.tables ==> exists p :: 0 <= p < |s.procs| && Maps(s.procs[p], d))
  {
    StartInv(s0);
    RunKeeps(s0, run);
    var s := After(s0, run).value;
    forall k | k in s.stacks ensures exists p :: 0 <= p < |s.procs| && s.procs[p].kstack == Some(k) {
      var p := StackOf(s.procs, k);
      assert p < |s.procs| && s.procs[p].kstack == Some(k);
    }
    forall d | d in s.tables ensures exists p :: 0 <= p < |s.procs| && Maps(s.procs[p], d) {
      var p := TableOf(s.procs, d);
      assert p < |s.procs| && Maps(s.procs[p], d);
    }
  }

  // ----- exit meets wait -----

  /** Nobody sleeps in wait with a zombie child; nobody is its own parent, and init has none. */
  ghost predicate Met(procs: seq<Proc>) {
    && (forall p, q :: 0 <= p < |procs| && 0 <= q < |procs| && procs[p].state == Sleeping && procs[p].chan == Kids(p) ==> !ZombieChild(procs[q], p))
    && (forall p :: 0 <= p < |procs| ==> procs[p].parent != Some(p) && (p == INIT ==> procs[p].parent == None))
  }

  lemma ExitMeets(procs: seq<Proc>, p: nat)
    requires Met(procs) && p < |procs| && procs[p].state == Running && p != INIT
    ensures Met(Exited(procs, p))
  {
    var woken := match procs[p].parent case None => procs case Some(q) => Wake(procs, Kids(q));
    var r := Exited(procs, p);
    forall i, j | 0 <= i < |r| && 0 <= j < |r| && r[i].state == Sleeping && r[i].chan == Kids(i) ensures !ZombieChild(r[j], i) {
      assert procs[i].state == Sleeping && procs[i].chan == Kids(i);
      assert !ZombieChild(procs[j], i);
      if j != p && procs[j].parent == Some(p) && procs[j].state == Zombie {
        assert ZombieChild(woken[j], p);
      }
    }
  }

  /** Nothing but a sleep in wait, an exit and a new parent could break it. */
  lemma MeetsKept(procs: seq<Proc>, procs': seq<Proc>)
    requires Met(procs) && |procs'| == |procs|
    requires forall i :: 0 <= i < |procs| && procs'[i].state == Sleeping && procs'[i].chan == Kids(i) ==> procs[i].state == Sleeping && procs[i].chan == Kids(i)
    requires forall i :: 0 <= i < |procs| && procs'[i].state == Zombie ==> procs[i].state == Zombie && procs'[i].parent == procs[i].parent
    requires forall i :: 0 <= i < |procs| && procs'[i].parent != procs[i].parent ==> procs'[i].parent != Some(i) && i != INIT
    ensures Met(procs')
  {
  }

  lemma InitAlive(s: Sys)
    requires Inv(s)
    ensures INIT < |s.procs| && s.procs[INIT].Alive()
  {
  }

  lemma InvRest(s: Sys)
    requires Inv(s)
    ensures Rest(s)
  {
  }

  /** The steps of fork: the child is neither its parent nor init. */
  lemma ForkMeets(s: Sys, a: Step)
    requires Inv(s) && Met(s.procs) && Do(s, a).Some? && (a.KStack? || a.CopyVm? || a.Publish?)
    ensures Met(Do(s, a).value.procs)
  {
    hide Inv, Rest, Met, MeetsAt;
    InitAlive(s);
    InvRest(s);
    var p := s.cpus[a.c].on.value;
    Forking(s, p);
    var procs', np := Do(s, a).value.procs, s.procs[p].fork.value;
    assert procs' == s.procs[np := procs'[np]][p := procs'[p]];
    assert MeetsAt(s.procs[np], procs'[np], np) && MeetsAt(s.procs[p], procs'[p], p) by { MeetsForks(s, a, p, np); }
    TwoMeet(s.procs, procs', p, np);
  }

  lemma MeetsForks(s: Sys, a: Step, p: nat, np: nat)
    requires Inv(s) && Do(s, a).Some? && (a.KStack? || a.CopyVm? || a.Publish?)
    requires s.cpus[a.c].on == Some(p) && p < |s.procs| && s.procs[p].fork == Some(np) && np < |s.procs|
    ensures |Do(s, a).value.procs| == |s.procs|
    ensures MeetsAt(s.procs[np], Do(s, a).value.procs[np], np) && MeetsAt(s.procs[p], Do(s, a).value.procs[p], p)
  {
    hide Inv, Rest;
    InitAlive(s);
    InvRest(s);
    Forking(s, p);
  }

  lemma AllocMeets(s: Sys, a: Step)
    requires Inv(s) && Met(s.procs) && Do(s, a).Some? && a.AllocProc?
    ensures Met(Do(s, a).value.procs)
  {
    hide Inv, Met;
    InitAlive(s);
    MeetsKept(s.procs, Do(s, a).value.procs);
  }

  /** One entry changes so that nothing is missed. */
  predicate MeetsAt(x: Proc, x': Proc, i: nat) {
    && (x'.state == Sleeping && x'.chan == Kids(i) ==> x.state == Sleeping && x.chan == Kids(i))
    && (x'.state == Zombie ==> x.state == Zombie && x'.parent == x.parent)
    && (x'.parent != x.parent ==> x'.parent != Some(i) && i != INIT)
  }

  lemma TwoMeet(procs: seq<Proc>, procs': seq<Proc>, p: nat, q: nat)
    requires Met(procs) && |procs'| == |procs| && p < |procs| && q < |procs| && procs' == procs[q := procs'[q]][p := procs'[p]]
    requires MeetsAt(procs[q], procs'[q], q) && MeetsAt(procs[p], procs'[p], p)
    ensures Met(procs')
  {
    hide Met;
    MeetsKept(procs, procs');
  }

  lemma SleepMeets(procs: seq<Proc>, p: nat)
    requires Met(procs) && p < |procs| && FirstZombie(procs, p, 0) == |procs|
    ensures Met(procs[p := procs[p].(state := Sleeping, chan := Kids(p))])
  {
    assert forall q :: 0 <= q < |procs| ==> !ZombieChild(procs[q], p);
  }

  lemma WaitMeets(s: Sys, c: nat)
    requires Inv(s) && Met(s.procs) && Do(s, Wait(c)).Some?
    ensures Met(Do(s, Wait(c)).value.procs)
  {
    hide Inv, Met;
    InitAlive(s);
    var p := s.cpus[c].on.value;
    if FirstZombie(s.procs, p, 0) == |s.procs| {
      SleepMeets(s.procs, p);
    } else {
      MeetsKept(s.procs, Do(s, Wait(c)).value.procs);
    }
  }

  lemma StepMeets(s: Sys, a: Step)
    requires Inv(s) && Met(s.procs) && Do(s, a).Some?
    ensures Met(Do(s, a).value.procs)
  {
    hide Met, Inv;
    if a.Exit? {
      ExitMeets(s.procs, s.cpus[a.c].on.value);
    } else if a.Wait? {
      WaitMeets(s, a.c);
    } else if a.AllocProc? {
      AllocMeets(s, a);
    } else if a.KStack? || a.CopyVm? || a.Publish? {
      ForkMeets(s, a);
    } else {
      MeetsKept(s.procs, Do(s, a).value.procs);
    }
  }

  lemma {:induction false} RunMeets(s: Sys, run: seq<Step>)
    requires Inv(s) && Met(s.procs) && After(s, run).Some?
    ensures Met(After(s, run).value.procs)
    decreases |run|
  {
    if run != [] {
      StepMeets(s, run[0]);
      StepKeeps(s, run[0]);
      hide Do, Inv, Met;
      RunMeets(Do(s, run[0]).value, run[1..]);
    }
  }

  /** The handshake of exit and wait: at no time does a process sleep in wait while it has a zombie child. */
  lemma ExitWaitHandshake(s0: Sys, run: seq<Step>, p: nat, q: nat)
    requires Start(s0) && After(s0, run).Some?
    ensures var s := After(s0, run).value;
            p < |s.procs| && q < |s.procs| && s.procs[p].state == Sleeping && s.procs[p].chan == Kids(p) ==> !ZombieChild(s.procs[q], p)
  {
    StartInv(s0);
    hide Inv;
    RunMeets(s0, run);
  }
}

/**
 sleeplock.c over the sleep and wakeup of proc.c, as an instance of `SleepWake`: a machine whose steps are single lock
 operations and updates, taken by any number of processes in any order. The sleep lock is
 guarded by the spinlock lk; sleeping and waking are guarded by ptable.lock.
 */
module SleepLock {
  import opened Options
  import W = SleepWake

  /** Where a process is in acquiresleep, sleep, releasesleep and wakeup. */
  datatype Pc =
    | Idle       // outside
    | Enter      // acquiresleep: about to acquire lk
    | Test       // holds lk: while (lk->locked)
    | Sleep0     // sleep: holds lk, about to acquire ptable.lock
    | Sleep1     // holds both, about to release lk
    | Sleep2     // holds ptable.lock, about to go to sleep
    | Asleep     // switched out
    | Woken      // back, holds ptable.lock, about to release it
    | Retake     // about to acquire lk again
    | Holder     // has the sleep lock
    | Leave      // releasesleep: about to acquire lk
    | Clear      // holds lk: locked = 0
    | Wake0      // wakeup: holds lk, about to acquire ptable.lock
    | Wake1      // holds both: wakeup1
    | Wake2      // about to release ptable.lock
    | Done       // about to release lk

  datatype State = State(pc: seq<Pc>, run: seq<W.Run>, lk: Option<nat>, ptable: Option<nat>, locked: bool)

  /** A step of process p, or kill, which makes it runnable if it sleeps. */
  datatype Step = Go(p: nat) | Kill(p: nat)

  /** wakeup1 on the lock's channel: every sleeper becomes runnable. */
  function WakeAll(run: seq<W.Run>): (r: seq<W.Run>)
    ensures |r| == |run|
    ensures forall i :: 0 <= i < |run| ==> r[i] == if run[i] == W.Sleeping then W.Runnable else run[i]
  {
    seq(|run|, i requires 0 <= i < |run| => if run[i] == W.Sleeping then W.Runnable else run[i])
  }

  /** The next place in the code. */
  function To(pc: Pc, locked: bool): Pc {
    match pc
    case Idle => Enter
    case Enter => Test
    case Test => if locked then Sleep0 else Holder
    case Sleep0 => Sleep1
    case Sleep1 => Sleep2
    case Sleep2 => Asleep
    case Asleep => Woken
    case Woken => Retake
    case Retake => Test
    case Holder => Leave
    case Leave => Clear
    case Clear => Wake0
    case Wake0 => Wake1
    case Wake1 => Wake2
    case Wake2 => Done
    case Done => Idle
  }

  // What going there does to the spinlocks.
  predicate TakesLk(pc: Pc) { pc.Enter? || pc.Retake? || pc.Leave? }
  predicate DropsLk(pc: Pc, locked: bool) { (pc.Test? && !locked) || pc.Sleep1? || pc.Done? }
  predicate TakesPtable(pc: Pc) { pc.Sleep0? || pc.Wake0? || pc.Asleep? }
  predicate DropsPtable(pc: Pc) { pc.Sleep2? || pc.Woken? || pc.Wake2? }

  /** Process p goes on from where it is. */
  function Moved(s: State, p: nat): State
    requires p < |s.pc| == |s.run|
  {
    var pc := s.pc[p];
    State(
      s.pc[p := To(pc, s.locked)],
      if pc.Sleep2? then s.run[p := W.Sleeping] else if pc.Asleep? then s.run[p := W.Running] else if pc.Wake1? then WakeAll(s.run) else s.run,
      if TakesLk(pc) then Some(p) else if DropsLk(pc, s.locked) then None else s.lk,
      if TakesPtable(pc) then Some(p) else if DropsPtable(pc) then None else s.ptable,
      if pc.Test? then true else if pc.Clear? then false else s.locked)
  }

  /** The scheduler resumes a runnable process holding ptable.lock; otherwise a process waits for the locks it takes. */
  function Do(s: State, a: Step): Option<State>
    requires |s.pc| == |s.run|
  {
    if a.p >= |s.pc| then None else
    match a
    case Go(p) =>
      if (TakesLk(s.pc[p]) && s.lk != None) || (TakesPtable(s.pc[p]) && s.ptable != None) || s.run[p] == W.Sleeping then None
      else Some(Moved(s, p))
    case Kill(p) =>
      if s.run[p] == W.Sleeping && s.ptable == None then Some(s.(run := s.run[p := W.Runnable])) else None
  }

  // ----- The invariant -----

  predicate HoldsLk(pc: Pc) { pc.Test? || pc.Sleep0? || pc.Sleep1? || pc.Clear? || pc.Wake0? || pc.Wake1? || pc.Wake2? || pc.Done? }
  predicate HoldsPtable(pc: Pc) { pc.Sleep1? || pc.Sleep2? || pc.Woken? || pc.Wake1? || pc.Wake2? }
  predicate HasLock(pc: Pc) { pc.Holder? || pc.Leave? || pc.Clear? }
  predicate WillWake(pc: Pc) { pc.Wake0? || pc.Wake1? }

  /** The spinlocks are held by whom they say. */
  ghost predicate Locks(s: State) {
    && (s.lk.Some? ==> s.lk.value < |s.pc|) && (s.ptable.Some? ==> s.ptable.value < |s.pc|)
    && (forall p :: 0 <= p < |s.pc| ==> (HoldsLk(s.pc[p]) <==> s.lk == Some(p)))
    && (forall p :: 0 <= p < |s.pc| ==> (HoldsPtable(s.pc[p]) <==> s.ptable == Some(p)))
  }

  /** A process is off the CPU exactly while it is inside sleep. */
  ghost predicate Runs(s: State) {
    |s.pc| == |s.run| && forall p :: 0 <= p < |s.pc| ==> (s.run[p] != W.Running <==> s.pc[p] == Asleep)
  }

  /** The sleep lock has one holder when it is locked and none when it is not. */
  ghost predicate Mutex(s: State) {
    && (forall p, q :: 0 <= p < q < |s.pc| ==> !(HasLock(s.pc[p]) && HasLock(s.pc[q])))
    && (forall p :: 0 <= p < |s.pc| && HasLock(s.pc[p]) ==> s.locked)
    && (s.locked ==> exists p :: 0 <= p < |s.pc| && HasLock(s.pc[p]))
  }

  /** Some process has cleared `locked` and has yet to wake the sleepers. */
  ghost predicate WakePending(s: State) {
    exists q :: 0 <= q < |s.pc| && WillWake(s.pc[q])
  }

  /** Whoever has found the lock taken, and is on the way to sleep or asleep, will be woken. */
  ghost predicate Promise(s: State)
    requires |s.pc| == |s.run|
  {
    && (forall p :: 0 <= p < |s.pc| && (s.pc[p].Sleep0? || s.pc[p].Sleep1?) ==> s.locked)
    && (forall p :: 0 <= p < |s.pc| && (s.pc[p].Sleep2? || s.run[p] == W.Sleeping) ==> s.locked || WakePending(s))
  }

  ghost predicate Inv(s: State) { Runs(s) && Locks(s) && Mutex(s) && Promise(s) }

  /** The tables agree: what is held at a place is what was taken on the way there. */
  lemma Places(pc: Pc, locked: bool)
    ensures HoldsLk(To(pc, locked)) <==> TakesLk(pc) || (HoldsLk(pc) && !DropsLk(pc, locked))
    ensures HoldsPtable(To(pc, locked)) <==> TakesPtable(pc) || (HoldsPtable(pc) && !DropsPtable(pc))
    ensures DropsLk(pc, locked) ==> HoldsLk(pc) && !TakesLk(pc)
    ensures DropsPtable(pc) ==> HoldsPtable(pc) && !TakesPtable(pc)
  {
  }

  lemma LockPlaces(pc: Pc, locked: bool)
    ensures HasLock(To(pc, locked)) <==> (pc.Test? && !locked) || (HasLock(pc) && !pc.Clear?)
    ensures (pc.Clear? ==> HasLock(pc)) && (pc.Test? ==> !HasLock(pc)) && (pc.Test? || pc.Clear? ==> HoldsLk(pc))
    ensures pc.Sleep0? || pc.Sleep1? ==> HoldsLk(pc)
    ensures pc.Sleep2? || pc.Wake1? ==> HoldsPtable(pc)
    ensures WillWake(To(pc, locked)) <==> pc.Clear? || pc.Wake0?
    ensures To(pc, locked) == Asleep <==> pc.Sleep2?
    ensures To(pc, locked).Sleep0? || To(pc, locked).Sleep1? <==> (pc.Test? && locked) || pc.Sleep0?
    ensures To(pc, locked).Sleep2? <==> pc.Sleep1?
  {
  }

  lemma LocksKept(s: State, a: Step)
    requires |s.pc| == |s.run| && Locks(s) && Do(s, a).Some?
    ensures Locks(Do(s, a).value)
  {
    hide To, HoldsLk, HoldsPtable, TakesLk, TakesPtable, DropsLk, DropsPtable;
    if a.Go? { Places(s.pc[a.p], s.locked); }
  }

  lemma RunsKept(s: State, a: Step)
    requires Runs(s) && Do(s, a).Some?
    ensures Runs(Do(s, a).value)
  {
    hide To, TakesLk, TakesPtable, DropsLk, DropsPtable;
    if a.Go? { LockPlaces(s.pc[a.p], s.locked); }
  }

  lemma MutexKept(s: State, a: Step)
    requires |s.pc| == |s.run| && Mutex(s) && Do(s, a).Some?
    ensures Mutex(Do(s, a).value)
  {
    hide To, HasLock, TakesLk, TakesPtable, DropsLk, DropsPtable;
    var s' := Do(s, a).value;
    if a.Go? { LockPlaces(s.pc[a.p], s.locked); }
    if s.locked {
      var q :| 0 <= q < |s.pc| && HasLock(s.pc[q]);
      assert s'.locked ==> HasLock(s'.pc[q]);
    } else if a.Go? {
      assert s.pc[a.p].Test? ==> HasLock(s'.pc[a.p]);
    }
  }

  lemma SoonKept(s: State, a: Step)
    requires Inv(s) && Do(s, a).Some?
    ensures var s' := Do(s, a).value;
            forall p :: 0 <= p < |s'.pc| && (s'.pc[p].Sleep0? || s'.pc[p].Sleep1?) ==> s'.locked
  {
    hide To, HoldsLk, HoldsPtable, TakesLk, TakesPtable, DropsLk, DropsPtable, Mutex, WakePending;
    var s' := Do(s, a).value;
    if a.Go? { LockPlaces(s.pc[a.p], s.locked); }
    forall p | 0 <= p < |s'.pc| && (s'.pc[p].Sleep0? || s'.pc[p].Sleep1?) ensures s'.locked {
      LockPlaces(s.pc[p], s.locked);
    }
  }

  lemma PendingKept(s: State, a: Step)
    requires |s.pc| == |s.run| && Do(s, a).Some? && WakePending(s) && !(a.Go? && a.p < |s.pc| && s.pc[a.p].Wake1?)
    ensures WakePending(Do(s, a).value)
  {
    var q :| 0 <= q < |s.pc| && WillWake(s.pc[q]);
    if a.Go? { LockPlaces(s.pc[a.p], s.locked); }
    hide To, TakesLk, TakesPtable, DropsLk, DropsPtable;
    assert WillWake(Do(s, a).value.pc[q]);
  }

  lemma LaterKept(s: State, a: Step)
    requires Inv(s) && Do(s, a).Some?
    ensures var s' := Do(s, a).value;
            && |s'.pc| == |s.pc| == |s'.run|
            && forall p :: 0 <= p < |s'.pc| && (s'.pc[p].Sleep2? || s'.run[p] == W.Sleeping) ==> s'.locked || WakePending(s')
  {
    hide To, HoldsLk, HoldsPtable, TakesLk, TakesPtable, DropsLk, DropsPtable, Mutex, WakePending;
    var s' := Do(s, a).value;
    if a.Go? { LockPlaces(s.pc[a.p], s.locked); }
    if a.Go? && s.pc[a.p].Clear? {
      Pending(s', a.p);
    } else if WakePending(s) && !(a.Go? && s.pc[a.p].Wake1?) {
      PendingKept(s, a);
    } else {
      forall p | 0 <= p < |s'.pc| && (s'.pc[p].Sleep2? || s'.run[p] == W.Sleeping) ensures s'.locked {
        LockPlaces(s.pc[p], s.locked);
      }
    }
  }

  lemma Pending(s: State, q: nat)
    requires q < |s.pc| && WillWake(s.pc[q])
    ensures WakePending(s)
  {
  }

  lemma StepKeeps(s: State, a: Step)
    requires Inv(s) && Do(s, a).Some?
    ensures Inv(Do(s, a).value)
  {
    RunsKept(s, a);
    LocksKept(s, a);
    MutexKept(s, a);
    SoonKept(s, a);
    LaterKept(s, a);
    hide Do, Mutex, Locks, Runs, WakePending;
  }

  // ----- Whole runs -----

  /** n processes outside, the lock free. */
  function Start(n: nat): State {
    State(seq(n, _ => Idle), seq(n, _ => W.Running), None, None, false)
  }

  /** The state after a sequence of steps; None if one of them is not possible. */
  function After(s: State, run: seq<Step>): Option<State>
    requires |s.pc| == |s.run|
    decreases |run|
  {
    if run == [] then Some(s)
    else match Do(s, run[0])
      case None => None
      case Some(s1) => After(s1, run[1..])
  }

  lemma {:induction false} RunKeeps(s: State, run: seq<Step>)
    requires Inv(s) && After(s, run).Some?
    ensures Inv(After(s, run).value)
    decreases |run|
  {
    if run != [] {
      StepKeeps(s, run[0]);
      RunKeeps(Do(s, run[0]).value, run[1..]);
    }
  }

  /** In every interleaving at most one process has the lock. */
  lemma OneHolder(n: nat, run: seq<Step>, p: nat, q: nat)
    requires After(Start(n), run).Some?
    ensures var s := After(Start(n), run).value;
            p < |s.pc| && q < |s.pc| && HasLock(s.pc[p]) && HasLock(s.pc[q]) ==> p == q
  {
    StartInv(n);
    RunKeeps(Start(n), run);
  }

  /** Everyone who has found the lock taken is asleep by now, and no one sleeps after. */
  ghost predicate MissesNone(s: State, q: nat)
    requires |s.pc| == |s.run|
  {
    && (forall p :: 0 <= p < |s.pc| ==> !s.pc[p].Sleep0? && !s.pc[p].Sleep1? && !s.pc[p].Sleep2?)
    && Do(s, Go(q)).Some? && var s' := Do(s, Go(q)).value;
       |s'.run| == |s.run| && forall p :: 0 <= p < |s'.run| ==> s'.run[p] != W.Sleeping && (s.run[p] == W.Sleeping ==> s'.run[p] == W.Runnable)
  }

  lemma WakesAll(s: State, q: nat)
    requires Inv(s) && q < |s.pc| && s.pc[q] == Wake1 && W.Inv(Abs(s))
    requires forall p :: 0 <= p <= |s.pc| && W.Between(Abs(s).pc[p]) ==> Abs(s).pc[p].lk != LK
    ensures MissesNone(s, q)
  {
    hide Mutex, Promise, W.Inv, W.Woken, Do, Inv;
    WakesOne(s, q, q);
    forall p | 0 <= p < |s.pc| ensures !s.pc[p].Sleep0? && !s.pc[p].Sleep1? && !s.pc[p].Sleep2? {
      assert Abs(s).pc[p] == PcOf(s.pc[p]);
    }
    forall p | 0 <= p < |s.pc|
      ensures |Do(s, Go(q)).value.run| == |s.run| && Do(s, Go(q)).value.run[p] != W.Sleeping
      ensures s.run[p] == W.Sleeping ==> Do(s, Go(q)).value.run[p] == W.Runnable
    {
      WakesOne(s, p, q);
    }
  }

  /**
   No lost wakeup: the general law, at this lock and this channel. When releasesleep comes to wakeup1,
   no process is between its test of the lock and its sleep; all that found it taken are asleep, and
   wakeup1 makes them runnable.
   */
  lemma NoLostWakeup(n: nat, run: seq<Step>, q: nat)
    requires After(Start(n), run).Some?
    requires var s := After(Start(n), run).value; q < |s.pc| && s.pc[q] == Wake1
    ensures var s := After(Start(n), run).value; |s.pc| == |s.run| && MissesNone(s, q)
  {
    hide W.After, Do, W.Inv;
    StartInv(n);
    RunKeeps(Start(n), run);
    var s := After(Start(n), run).value;
    var g := RunInstance(n, run);
    W.RunKeeps(n + 1, g);
    W.HolderWakes(n + 1, g, q, LK);
    WakesAll(s, q);
  }

  // ----- An instance of the general machine -----

  const LK := 1                        // lk->lk among the locks
  const CHAN := 1                      // lk among the channels

  function PcOf(pc: Pc): W.Pc {
    match pc
    case Sleep0 => W.Decided(CHAN, LK)
    case Sleep1 => W.Both(CHAN, LK)
    case Sleep2 => W.Going(CHAN, LK)
    case Asleep => W.Away(CHAN, LK)
    case Woken => W.Back(CHAN, LK)
    case Retake => W.Retaking(LK)
    case Wake0 => W.Calling(CHAN)
    case Wake1 => W.Waking(CHAN, false)
    case Wake2 => W.Leaving
    case _ => W.Out
  }

  function ChanOf(pc: Pc): nat { if pc.Asleep? || pc.Woken? then CHAN else 0 }

  function LocksOf(lk: Option<nat>, ptable: Option<nat>): map<nat, nat> {
    (if lk.Some? then map[LK := lk.value] else map[]) + (if ptable.Some? then map[W.PTABLE := ptable.value] else map[])
  }

  /** The same state among n + 1 processes, the last of which is whoever kills. */
  function Abs(s: State): (w: W.State)
    requires |s.pc| == |s.run|
    ensures W.Sized(w) && |w.pc| == |s.pc| + 1
    ensures forall p :: 0 <= p < |s.pc| ==> w.pc[p] == PcOf(s.pc[p]) && w.run[p] == s.run[p] && w.chan[p] == ChanOf(s.pc[p])
    ensures w.pc[|s.pc|] == W.Out && w.run[|s.pc|] == W.Running && w.chan[|s.pc|] == 0
  {
    var n := |s.pc|;
    W.State(seq(n + 1, i requires 0 <= i <= n => if i < n then PcOf(s.pc[i]) else W.Out), s.run + [W.Running],
            seq(n + 1, i requires 0 <= i <= n => if i < n then ChanOf(s.pc[i]) else 0), LocksOf(s.lk, s.ptable))
  }

  /** The step of the general machine that a step here is, if it is one. */
  function StepOf(pc: Pc, p: nat, locked: bool): seq<W.Step> {
    match pc
    case Idle => []
    case Holder => []
    case Enter => [W.Acquire(p, LK)]
    case Leave => [W.Acquire(p, LK)]
    case Test => [if locked then W.Test(p, CHAN, LK) else W.Release(p, LK)]
    case Clear => [W.Wakeup(p, CHAN)]
    case Done => [W.Release(p, LK)]
    case _ => [W.Go(p)]
  }

  lemma AbsMoved(s: State, p: nat)
    requires Runs(s) && p < |s.pc|
    ensures var pc, w, w' := s.pc[p], Abs(s), Abs(Moved(s, p));
            && w'.pc == w.pc[p := PcOf(To(pc, s.locked))] && w'.chan == w.chan[p := ChanOf(To(pc, s.locked))]
            && w'.run == if pc.Sleep2? then w.run[p := W.Sleeping] else if pc.Asleep? then w.run[p := W.Running]
                         else if pc.Wake1? then W.WakeOn(w.run, w.chan, CHAN) else w.run
  {
    hide To, PcOf, W.Do;
    if s.pc[p].Wake1? {
      assert forall q :: 0 <= q < |s.pc| && s.run[q] == W.Sleeping ==> ChanOf(s.pc[q]) == CHAN;
    }
  }

  lemma LocksMoved(lk: Option<nat>, ptable: Option<nat>, p: nat)
    ensures LocksOf(Some(p), ptable) == LocksOf(lk, ptable)[LK := p] && LocksOf(None, ptable) == LocksOf(lk, ptable) - {LK}
    ensures LocksOf(lk, Some(p)) == LocksOf(lk, ptable)[W.PTABLE := p] && LocksOf(lk, None) == LocksOf(lk, ptable) - {W.PTABLE}
    ensures LK in LocksOf(lk, ptable) <==> lk.Some?
    ensures W.PTABLE in LocksOf(lk, ptable) <==> ptable.Some?
    ensures lk.Some? ==> LocksOf(lk, ptable)[LK] == lk.value
    ensures ptable.Some? ==> LocksOf(lk, ptable)[W.PTABLE] == ptable.value
  {
  }

  predicate InSleep(pc: Pc) { pc.Sleep0? || pc.Sleep1? || pc.Sleep2? || pc.Asleep? || pc.Woken? || pc.Retake? }
  predicate InWake(pc: Pc) { pc.Wake0? || pc.Wake1? || pc.Wake2? }

  /** A step of a process is a step of the general machine, or none. */
  lemma GoIs(s: State, p: nat)
    requires Inv(s) && p < |s.pc| && Do(s, Go(p)).Some?
    ensures var g := StepOf(s.pc[p], p, s.locked);
            if g == [] then Abs(Moved(s, p)) == Abs(s) else W.Do(Abs(s), g[0]) == Some(Abs(Moved(s, p)))
  {
    hide Mutex, Promise, Abs, LocksOf, Moved, W.Do;
    if InSleep(s.pc[p]) { SleepIs(s, p); } else if InWake(s.pc[p]) { WakeIs(s, p); } else { OutIs(s, p); }
  }

  lemma SleepIs(s: State, p: nat)
    requires Inv(s) && p < |s.pc| && Do(s, Go(p)).Some? && InSleep(s.pc[p])
    ensures W.Do(Abs(s), W.Go(p)) == Some(Abs(Moved(s, p)))
  {
    hide Mutex, Promise, Abs, LocksOf, Locks, Moved, W.Do;
    if s.pc[p].Sleep0? || s.pc[p].Sleep1? || s.pc[p].Sleep2? { FallsAsleep(s, p); } else { ComesBack(s, p); }
  }

  /** What the two machines make of a step, part by part. */
  lemma Parts(s: State, p: nat)
    requires Inv(s) && p < |s.pc|
    ensures W.Do(Abs(s), W.Go(p)) == W.Moved(Abs(s), p)
    ensures Abs(Moved(s, p)).locks == LocksOf(Moved(s, p).lk, Moved(s, p).ptable) && Abs(s).locks == LocksOf(s.lk, s.ptable)
  {
    AbsLocks(s);
    AbsLocks(Moved(s, p));
    hide Mutex, Promise, Abs, LocksOf, Locks;
  }

  lemma FallsAsleep(s: State, p: nat)
    requires Inv(s) && p < |s.pc| && Do(s, Go(p)).Some? && (s.pc[p].Sleep0? || s.pc[p].Sleep1? || s.pc[p].Sleep2?)
    ensures W.Do(Abs(s), W.Go(p)) == Some(Abs(Moved(s, p)))
  {
    AbsMoved(s, p);
    LocksMoved(s.lk, s.ptable, p);
    Parts(s, p);
    SameParts(Abs(s).chan, p);
    hide Mutex, Promise, Abs, LocksOf, Locks, W.Do, Runs;
  }

  lemma ComesBack(s: State, p: nat)
    requires Inv(s) && p < |s.pc| && Do(s, Go(p)).Some? && (s.pc[p].Asleep? || s.pc[p].Woken? || s.pc[p].Retake?)
    ensures W.Do(Abs(s), W.Go(p)) == Some(Abs(Moved(s, p)))
  {
    assert s.run[p] != W.Running <==> s.pc[p] == Asleep;
    AbsMoved(s, p);
    LocksMoved(s.lk, s.ptable, p);
    Parts(s, p);
    SameParts(Abs(s).chan, p);
    hide Mutex, Promise, Abs, LocksOf, Locks, W.Do, Runs;
  }

  lemma WakeIs(s: State, p: nat)
    requires Inv(s) && p < |s.pc| && Do(s, Go(p)).Some? && InWake(s.pc[p])
    ensures W.Do(Abs(s), W.Go(p)) == Some(Abs(Moved(s, p)))
  {
    hide Mutex, Promise, Abs, LocksOf, Locks, Moved, W.Do;
    if s.pc[p].Wake1? {
      Wakes(s, p);
    } else if s.pc[p].Wake0? {
      WakeBegins(s, p);
    } else {
      WakeEnds(s, p);
    }
  }

  lemma Wakes(s: State, p: nat)
    requires Inv(s) && p < |s.pc| && Do(s, Go(p)).Some? && s.pc[p].Wake1?
    ensures W.Do(Abs(s), W.Go(p)) == Some(Abs(Moved(s, p)))
  {
    AbsMoved(s, p);
    Parts(s, p);
    SameParts(Abs(s).chan, p);
    hide Mutex, Promise, Abs, LocksOf, Locks, W.Do, Runs;
  }

  lemma WakeBegins(s: State, p: nat)
    requires Inv(s) && p < |s.pc| && Do(s, Go(p)).Some? && s.pc[p].Wake0?
    ensures W.Do(Abs(s), W.Go(p)) == Some(Abs(Moved(s, p)))
  {
    AbsMoved(s, p);
    LocksMoved(s.lk, s.ptable, p);
    Parts(s, p);
    SameParts(Abs(s).chan, p);
    hide Mutex, Promise, Abs, LocksOf, Locks, W.Do, Runs, W.WakeOn;
  }

  lemma WakeEnds(s: State, p: nat)
    requires Inv(s) && p < |s.pc| && Do(s, Go(p)).Some? && s.pc[p].Wake2?
    ensures W.Do(Abs(s), W.Go(p)) == Some(Abs(Moved(s, p)))
  {
    AbsMoved(s, p);
    LocksMoved(s.lk, s.ptable, p);
    Parts(s, p);
    SameParts(Abs(s).chan, p);
    hide Mutex, Promise, Abs, LocksOf, Locks, W.Do, Runs, W.WakeOn;
  }

  lemma OutIs(s: State, p: nat)
    requires Inv(s) && p < |s.pc| && Do(s, Go(p)).Some? && !InSleep(s.pc[p]) && !InWake(s.pc[p])
    ensures var g := StepOf(s.pc[p], p, s.locked);
            if g == [] then Abs(Moved(s, p)) == Abs(s) else W.Do(Abs(s), g[0]) == Some(Abs(Moved(s, p)))
  {
    assert HoldsLk(s.pc[p]) <==> s.lk == Some(p);
    AbsMoved(s, p);
    LocksMoved(s.lk, s.ptable, p);
    AbsLocks(s);
    AbsLocks(Moved(s, p));
    SameParts(Abs(s).chan, p);
    SameParts(Abs(s).pc, p);
    hide Mutex, Promise, Abs, LocksOf, Locks, Runs;
  }

  lemma SameParts<T>(s: seq<T>, p: nat)
    requires p < |s|
    ensures s[p := s[p]] == s
  {
  }

  lemma AbsLocks(s: State)
    requires |s.pc| == |s.run|
    ensures Abs(s).locks == LocksOf(s.lk, s.ptable)
  {
  }

  /** kill takes ptable.lock for the while. */
  lemma KillIs(s: State, p: nat) returns (g: seq<W.Step>)
    requires Inv(s) && Do(s, Kill(p)).Some?
    ensures W.After(Abs(s), g) == Some(Abs(Do(s, Kill(p)).value))
  {
    var n, w, s' := |s.pc|, Abs(s), Do(s, Kill(p)).value;
    LocksMoved(s.lk, s.ptable, n);
    LocksMoved(s.lk, Some(n), n);
    var w1 := w.(locks := w.locks[W.PTABLE := n]);
    var w2 := w1.(run := w1.run[p := W.Runnable]);
    var w3 := w2.(locks := w2.locks - {W.PTABLE});
    assert w3 == Abs(s') by {
      assert w3.pc == Abs(s').pc && w3.run == Abs(s').run && w3.chan == Abs(s').chan;
    }
    assert W.Do(w, W.Acquire(n, W.PTABLE)) == Some(w1) && W.Do(w1, W.Kill(n, p)) == Some(w2) && W.Do(w2, W.Release(n, W.PTABLE)) == Some(w3);
    W.ThreeMore(w, [], w, W.Acquire(n, W.PTABLE), w1, W.Kill(n, p), w2, W.Release(n, W.PTABLE), w3);
    g := [] + [W.Acquire(n, W.PTABLE), W.Kill(n, p), W.Release(n, W.PTABLE)];
  }

  lemma Instance(s: State, a: Step) returns (g: seq<W.Step>)
    requires Inv(s) && Do(s, a).Some?
    ensures W.After(Abs(s), g) == Some(Abs(Do(s, a).value))
    ensures a.Go? ==> g == StepOf(s.pc[a.p], a.p, s.locked)
  {
    if a.Go? {
      GoIs(s, a.p);
      g := StepOf(s.pc[a.p], a.p, s.locked);
      hide Inv, Moved, W.Do, Abs;
      if g != [] {
        assert g == [g[0]] && g[..0] == [];
      }
    } else {
      g := KillIs(s, a.p);
    }
  }

  /** Every run of the sleep lock is a run of the general machine. */
  lemma {:induction false} RunMaps(s: State, run: seq<Step>) returns (g: seq<W.Step>)
    requires Inv(s) && After(s, run).Some?
    ensures Inv(After(s, run).value) && W.After(Abs(s), g) == Some(Abs(After(s, run).value))
    decreases |run|
  {
    if run == [] {
      g := [];
    } else {
      hide Do, W.Do, Inv, Abs;
      StepKeeps(s, run[0]);
      var s1 := Do(s, run[0]).value;
      var g1 := Instance(s, run[0]);
      var g2 := RunMaps(s1, run[1..]);
      g := g1 + g2;
      W.Concat(Abs(s), g1, Abs(s1), g2);
    }
  }

  lemma RunInstance(n: nat, run: seq<Step>) returns (g: seq<W.Step>)
    requires After(Start(n), run).Some?
    ensures |After(Start(n), run).value.pc| == |After(Start(n), run).value.run| == n
    ensures W.After(W.Start(n + 1), g) == Some(Abs(After(Start(n), run).value))
  {
    StartInv(n);
    var w := Abs(Start(n));
    assert w == W.Start(n + 1) by {
      assert w.pc == W.Start(n + 1).pc && w.run == W.Start(n + 1).run && w.chan == W.Start(n + 1).chan;
    }
    SameSize(Start(n), run);
    g := RunMaps(Start(n), run);
  }

  lemma WakesOne(s: State, p: nat, q: nat)
    requires Inv(s) && q < |s.pc| && p < |s.pc| && s.pc[q] == Wake1 && W.Inv(Abs(s))
    requires !s.pc[p].Sleep0? && !s.pc[p].Sleep1? && !s.pc[p].Sleep2?
    ensures Do(s, Go(q)).Some? && |Do(s, Go(q)).value.run| == |s.run|
    ensures Do(s, Go(q)).value.run[p] != W.Sleeping && (s.run[p] == W.Sleeping ==> Do(s, Go(q)).value.run[p] == W.Runnable)
  {
    hide Mutex, Promise, W.Inv;
    GoIs(s, q);
    W.WakesPast(Abs(s), p, q, CHAN);
  }

  lemma StartInv(n: nat)
    ensures Inv(Start(n))
  {
  }

  /** Some process has the lock, or is on its way to wakeup1. */
  ghost predicate HasWaker(s: State) {
    exists q :: 0 <= q < |s.pc| && (HasLock(s.pc[q]) || WillWake(s.pc[q]))
  }

  lemma Waker(s: State, p: nat)
    requires Inv(s) && p < |s.run| && s.run[p] == W.Sleeping
    ensures HasWaker(s)
  {
    if s.locked {
      var q :| 0 <= q < |s.pc| && HasLock(s.pc[q]);
    } else {
      var q :| 0 <= q < |s.pc| && WillWake(s.pc[q]);
    }
  }

  /** A sleeper has someone to wake it. */
  lemma SleeperHasWaker(n: nat, run: seq<Step>, p: nat)
    requires After(Start(n), run).Some?
    requires var s := After(Start(n), run).value; p < |s.run| && s.run[p] == W.Sleeping
    ensures HasWaker(After(Start(n), run).value)
  {
    StartInv(n);
    RunKeeps(Start(n), run);
    Waker(After(Start(n), run).value, p);
  }

  /** Whoever holds ptable.lock can go on; so can the holder of lk, if that is free; so can anyone awake, if both are. */
  lemma CanGo(s: State, p: nat)
    requires Inv(s) && p < |s.pc| && s.pc[p] != Asleep
    requires HoldsPtable(s.pc[p]) || (s.ptable == None && (HoldsLk(s.pc[p]) || s.lk == None))
    ensures Do(s, Go(p)).Some?
  {
    hide Mutex, Promise, Locks;
  }

  lemma SomeStep(s: State)
    requires Inv(s) && |s.pc| > 0
    ensures exists p: nat :: Do(s, Go(p)).Some?
  {
    hide HoldsLk, HoldsPtable, Do;
    if s.ptable.Some? {
      AwakeHolder(s, s.ptable.value);
      CanGo(s, s.ptable.value);
    } else if s.lk.Some? {
      AwakeHolder(s, s.lk.value);
      CanGo(s, s.lk.value);
    } else if p :| 0 <= p < |s.pc| && s.pc[p] != Asleep {
      CanGo(s, p);
    } else {
      RunnableGoes(s);
    }
  }

  lemma AwakeHolder(s: State, p: nat)
    requires p < |s.pc|
    ensures HoldsLk(s.pc[p]) || HoldsPtable(s.pc[p]) ==> s.pc[p] != Asleep
  {
  }

  lemma RunnableGoes(s: State)
    requires Inv(s) && |s.pc| > 0 && s.lk == None && s.ptable == None && forall p :: 0 <= p < |s.pc| ==> s.pc[p] == Asleep
    ensures Do(s, Go(0)).Some?
  {
    assert s.pc[0] == Asleep && !HasWaker(s);
    if s.run[0] == W.Sleeping { Waker(s, 0); }
  }

  /** Some process can always go on, without a kill from outside: the two spinlocks and the sleepers never lock up. */
  lemma NeverStuck(n: nat, run: seq<Step>)
    requires n > 0 && After(Start(n), run).Some?
    ensures var s := After(Start(n), run).value; |s.pc| == |s.run| && exists p: nat :: Do(s, Go(p)).Some?
  {
    StartInv(n);
    RunKeeps(Start(n), run);
    SameSize(Start(n), run);
    SomeStep(After(Start(n), run).value);
  }

  lemma {:induction false} SameSize(s: State, run: seq<Step>)
    requires |s.pc| == |s.run| && After(s, run).Some?
    ensures |After(s, run).value.pc| == |s.pc|
    decreases |run|
  {
    if run != [] {
      SameSize(Do(s, run[0]).value, run[1..]);
    }
  }
}

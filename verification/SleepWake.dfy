/**
 sleep, wakeup, wakeup1 and kill of proc.c among any number of processes, channels and spinlocks,
 as a machine whose steps are single lock operations and updates, taken in any order. What a
 process does outside these functions is free: it takes and releases any locks, tests any condition
 under any lock and then sleeps on any channel, and wakes any channel. An interrupt handler is one
 more process here.
 */
module SleepWake {
  import opened Options

  const PTABLE := 0                    // ptable.lock among the locks

  /** Where a process is in sleep(chan, lk) and wakeup(chan). */
  datatype Pc =
    | Out                              // in code of its own
    | Decided(chan: nat, lk: nat)      // has tested under lk, which it holds, and goes on to sleep
    | Both(chan: nat, lk: nat)         // sleep: holds lk and ptable.lock
    | Going(chan: nat, lk: nat)        // has let go of lk: about to set its channel and state
    | Away(chan: nat, lk: nat)         // switched out
    | Back(chan: nat, lk: nat)         // switched in again, with ptable.lock
    | Retaking(lk: nat)                // about to acquire lk again
    | Calling(chan: nat)               // wakeup: about to acquire ptable.lock
    | Waking(chan: nat, own: bool)     // wakeup1, with ptable.lock, which is the caller's own or wakeup's
    | Leaving                          // wakeup: about to release ptable.lock

  datatype Run = Running | Sleeping | Runnable

  /** `chan` is p->chan, 0 for none; `locks` has the holder of each lock that is held. */
  datatype State = State(pc: seq<Pc>, run: seq<Run>, chan: seq<nat>, locks: map<nat, nat>)

  datatype Step =
    | Acquire(p: nat, lk: nat)
    | Release(p: nat, lk: nat)
    | Test(p: nat, chan: nat, lk: nat) // the condition, tested under lk, says to sleep
    | Wakeup(p: nat, chan: nat)
    | Wakeup1(p: nat, chan: nat)       // by a caller that has ptable.lock, such as exit
    | Kill(p: nat, q: nat)             // what kill does to q, once it has ptable.lock
    | Go(p: nat)                       // one step further in sleep or wakeup

  predicate Holds(s: State, lk: nat, p: nat) { lk in s.locks && s.locks[lk] == p }

  /** wakeup1's loop. */
  function WakeOn(run: seq<Run>, chan: seq<nat>, c: nat): (r: seq<Run>)
    requires |run| == |chan|
    ensures |r| == |run|
    ensures forall i :: 0 <= i < |run| ==> r[i] == if run[i] == Sleeping && chan[i] == c then Runnable else run[i]
  {
    seq(|run|, i requires 0 <= i < |run| => if run[i] == Sleeping && chan[i] == c then Runnable else run[i])
  }

  predicate Sized(s: State) { |s.pc| == |s.run| == |s.chan| }

  /** sleep and wakeup, line by line. None: the process waits for a lock, or for someone to wake it. */
  function Moved(s: State, p: nat): Option<State>
    requires Sized(s) && p < |s.pc|
  {
    var free := PTABLE !in s.locks;
    match s.pc[p]
    case Out => None
    case Decided(c, lk) =>
      if lk == PTABLE then Some(s.(pc := s.pc[p := Going(c, lk)]))
      else if free then Some(s.(pc := s.pc[p := Both(c, lk)], locks := s.locks[PTABLE := p]))
      else None
    case Both(c, lk) => Some(s.(pc := s.pc[p := Going(c, lk)], locks := s.locks - {lk}))
    case Going(c, lk) =>
      Some(State(s.pc[p := Away(c, lk)], s.run[p := Sleeping], s.chan[p := c], s.locks - {PTABLE}))
    case Away(c, lk) =>
      if s.run[p] == Runnable && free then
        Some(s.(pc := s.pc[p := Back(c, lk)], run := s.run[p := Running], locks := s.locks[PTABLE := p]))
      else None
    case Back(c, lk) =>
      if lk == PTABLE then Some(s.(pc := s.pc[p := Out], chan := s.chan[p := 0]))
      else Some(s.(pc := s.pc[p := Retaking(lk)], chan := s.chan[p := 0], locks := s.locks - {PTABLE}))
    case Retaking(lk) =>
      if lk !in s.locks then Some(s.(pc := s.pc[p := Out], locks := s.locks[lk := p])) else None
    case Calling(c) =>
      if free then Some(s.(pc := s.pc[p := Waking(c, false)], locks := s.locks[PTABLE := p])) else None
    case Waking(c, own) =>
      Some(s.(pc := s.pc[p := if own then Out else Leaving], run := WakeOn(s.run, s.chan, c)))
    case Leaving => Some(s.(pc := s.pc[p := Out], locks := s.locks - {PTABLE}))
  }

  function Do(s: State, a: Step): (o: Option<State>)
    requires Sized(s)
    ensures o.Some? ==> Sized(o.value) && |o.value.pc| == |s.pc| && a.p < |s.pc|
  {
    if a.p >= |s.pc| then None else
    match a
    case Go(p) => Moved(s, p)
    case Acquire(p, lk) => if s.pc[p] == Out && lk !in s.locks then Some(s.(locks := s.locks[lk := p])) else None
    case Release(p, lk) => if s.pc[p] == Out && Holds(s, lk, p) then Some(s.(locks := s.locks - {lk})) else None
    case Test(p, c, lk) => if s.pc[p] == Out && Holds(s, lk, p) then Some(s.(pc := s.pc[p := Decided(c, lk)])) else None
    case Wakeup(p, c) => if s.pc[p] == Out then Some(s.(pc := s.pc[p := Calling(c)])) else None
    case Wakeup1(p, c) => if s.pc[p] == Out && Holds(s, PTABLE, p) then Some(s.(pc := s.pc[p := Waking(c, true)])) else None
    case Kill(p, q) =>
      if s.pc[p] == Out && Holds(s, PTABLE, p) && q < |s.run| && s.run[q] == Sleeping then Some(s.(run := s.run[q := Runnable]))
      else None
  }

  // ----- The invariant -----

  /** What a process holds where it is, and that it is off the CPU exactly while it is away. */
  ghost predicate Placed(s: State, p: nat)
    requires Sized(s) && p < |s.pc|
  {
    && (s.run[p] != Running <==> s.pc[p].Away?)
    && match s.pc[p]
       case Decided(_, lk) => Holds(s, lk, p)
       case Both(_, lk) => lk != PTABLE && Holds(s, lk, p) && Holds(s, PTABLE, p)
       case Going(_, _) => Holds(s, PTABLE, p)
       case Away(c, _) => s.chan[p] == c
       case Back(c, _) => s.chan[p] == c && Holds(s, PTABLE, p)
       case Waking(_, _) => Holds(s, PTABLE, p)
       case Leaving => Holds(s, PTABLE, p)
       case _ => true
  }

  ghost predicate Inv(s: State) { Sized(s) && forall p :: 0 <= p < |s.pc| ==> Placed(s, p) }

  /** A step of p leaves the place of another process as it is: no lock is taken from its holder. */
  lemma OtherKept(s: State, a: Step, q: nat)
    requires Inv(s) && Do(s, a).Some? && q < |s.pc| && q != a.p
    ensures Sized(Do(s, a).value) && q < |Do(s, a).value.pc| && Placed(Do(s, a).value, q)
  {
    assert Placed(s, q) && Placed(s, a.p);
  }

  lemma OwnKept(s: State, a: Step)
    requires Inv(s) && Do(s, a).Some?
    ensures Sized(Do(s, a).value) && a.p < |Do(s, a).value.pc| && Placed(Do(s, a).value, a.p)
  {
    assert Placed(s, a.p);
  }

  lemma StepKeeps(s: State, a: Step)
    requires Inv(s) && Do(s, a).Some?
    ensures Inv(Do(s, a).value)
  {
    hide Do, Placed;
    var s' := Do(s, a).value;
    forall q | 0 <= q < |s'.pc| ensures Placed(s', q) {
      if q == a.p { OwnKept(s, a); } else { OtherKept(s, a, q); }
    }
  }

  // ----- Whole runs -----

  /** n processes in code of their own, all locks free. */
  function Start(n: nat): State {
    State(seq(n, _ => Out), seq(n, _ => Running), seq(n, _ => 0), map[])
  }

  /** The state after a sequence of steps; None if one of them is not possible. */
  function After(s: State, run: seq<Step>): (o: Option<State>)
    requires Sized(s)
    ensures o.Some? ==> Sized(o.value) && |o.value.pc| == |s.pc|
  {
    if run == [] then Some(s)
    else match After(s, run[..|run| - 1])
      case None => None
      case Some(t) => Do(t, run[|run| - 1])
  }

  lemma {:induction false} RunKeeps(n: nat, run: seq<Step>)
    requires After(Start(n), run).Some?
    ensures Inv(After(Start(n), run).value)
  {
    if run != [] {
      RunKeeps(n, run[..|run| - 1]);
      StepKeeps(After(Start(n), run[..|run| - 1]).value, run[|run| - 1]);
    }
  }

  /** Every prefix of a run is a run, and the next step is possible after it. */
  lemma {:induction false} Prefix(s: State, run: seq<Step>, k: nat)
    requires Sized(s) && k < |run| && After(s, run).Some?
    ensures After(s, run[..k]).Some? && Do(After(s, run[..k]).value, run[k]).Some?
    ensures After(s, run[..k + 1]) == Do(After(s, run[..k]).value, run[k])
    decreases |run|
  {
    hide Do;
    assert run[..k + 1][..k] == run[..k];
    if k + 1 == |run| {
      assert run[..k + 1] == run;
    } else {
      var front := run[..|run| - 1];
      Prefix(s, front, k);
      assert front[..k] == run[..k] && front[..k + 1] == run[..k + 1];
    }
  }

  lemma {:induction false} Concat(s: State, xs: seq<Step>, t: State, ys: seq<Step>)
    requires Sized(s) && After(s, xs) == Some(t)
    ensures After(s, xs + ys) == After(t, ys)
    decreases |ys|
  {
    hide Do;
    if ys == [] {
      assert xs + ys == xs;
    } else {
      var front := ys[..|ys| - 1];
      Concat(s, xs, t, front);
      assert (xs + ys)[..|xs + ys| - 1] == xs + front;
    }
  }

  // ----- No wakeup is lost -----

  /** Between the test of its condition and its sleep. */
  predicate Between(pc: Pc) { pc.Decided? || pc.Both? || pc.Going? }

  /** Step a is process q's acquiring lk, in code of its own or inside sleep or wakeup. */
  ghost predicate Takes(s: State, a: Step, q: nat, lk: nat)
    requires Sized(s)
  {
    a.p == q && Do(s, a).Some? && lk !in s.locks && Holds(Do(s, a).value, lk, q)
  }

  /** p, which decided to sleep on chan, has let go of the lock it tested under. */
  predicate Past(pc: Pc, chan: nat) {
    && !pc.Decided? && !pc.Both?
    && (pc.Going? || pc.Away? ==> pc.chan == chan)
  }

  predicate Since(pc: Pc, chan: nat, lk: nat) {
    pc == Decided(chan, lk) || pc == Both(chan, lk) || Past(pc, chan)
  }

  predicate TestOf(a: Step, p: nat) { a.Test? && a.p == p }

  lemma SinceKept(s: State, a: Step, p: nat, chan: nat, lk: nat)
    requires Sized(s) && p < |s.pc| && Do(s, a).Some? && !TestOf(a, p)
    ensures p < |Do(s, a).value.pc|
    ensures var s' := Do(s, a).value;
            (Since(s.pc[p], chan, lk) ==> Since(s'.pc[p], chan, lk)) && (Past(s.pc[p], chan) ==> Past(s'.pc[p], chan))
  {
  }

  /** From p's decision on it is in that sleep, or past it, until it tests again. */
  lemma {:induction false} SinceTest(s: State, run: seq<Step>, i: nat, k: nat, p: nat, chan: nat, lk: nat)
    requires Sized(s) && After(s, run).Some? && i < k <= |run| && run[i] == Test(p, chan, lk)
    requires forall m :: i < m < |run| ==> !TestOf(run[m], p)
    ensures After(s, run[..k]).Some? && p < |s.pc| && Since(After(s, run[..k]).value.pc[p], chan, lk)
    decreases k
  {
    hide Since, After;
    Prefix(s, run, k - 1);
    if k == i + 1 {
      Decision(After(s, run[..i]).value, p, chan, lk);
    } else {
      SinceTest(s, run, i, k - 1, p, chan, lk);
      SinceKept(After(s, run[..k - 1]).value, run[k - 1], p, chan, lk);
    }
  }

  lemma Decision(s: State, p: nat, chan: nat, lk: nat)
    requires Sized(s) && Do(s, Test(p, chan, lk)).Some?
    ensures p < |s.pc| && Since(Do(s, Test(p, chan, lk)).value.pc[p], chan, lk)
  {
  }

  /** Once p has let go, it stays so until it tests again. */
  lemma {:induction false} PastFrom(s: State, run: seq<Step>, j: nat, k: nat, p: nat, chan: nat)
    requires Sized(s) && After(s, run).Some? && j <= k <= |run| && p < |s.pc|
    requires forall m :: j <= m < |run| ==> !TestOf(run[m], p)
    requires After(s, run[..j]).Some? && Past(After(s, run[..j]).value.pc[p], chan)
    ensures After(s, run[..k]).Some? && Past(After(s, run[..k]).value.pc[p], chan)
    decreases k
  {
    hide Past, After;
    if j < k {
      PastFrom(s, run, j, k - 1, p, chan);
      Prefix(s, run, k - 1);
      SinceKept(After(s, run[..k - 1]).value, run[k - 1], p, chan, 0);
    }
  }

  /** Whoever tested under lk still holds it until it has ptable.lock; so when lk can be taken it has let go of it. */
  lemma LetGo(s: State, a: Step, p: nat, q: nat, chan: nat, lk: nat)
    requires Inv(s) && p < |s.pc| && Since(s.pc[p], chan, lk) && Takes(s, a, q, lk)
    ensures Past(s.pc[p], chan)
  {
    assert Placed(s, p);
  }

  /** wakeup1(chan) finds p asleep, or woken already, and p does not sleep after it. */
  ghost predicate Woken(s: State, p: nat, q: nat)
    requires Sized(s) && p < |s.pc|
  {
    && !Between(s.pc[p])
    && Do(s, Go(q)).Some? && var s' := Do(s, Go(q)).value;
       s'.run[p] != Sleeping && (s.run[p] == Sleeping ==> s'.run[p] == Runnable)
  }

  lemma WakesPast(s: State, p: nat, q: nat, chan: nat)
    requires Inv(s) && p < |s.pc| && q < |s.pc| && s.pc[q].Waking? && s.pc[q].chan == chan && Past(s.pc[p], chan)
    ensures Woken(s, p, q)
  {
    assert Placed(s, p) && Placed(s, q);
  }

  /**
   No lost wakeup, for every channel and every lock. In any run: p tests under lk and decides to
   sleep on chan (step i, its last test so far); later q acquires lk (step j), whether or not it has
   let go of it again; and now q is at wakeup1(chan). Then p is not between its test and its sleep:
   if it is still asleep, this wakeup1 makes it runnable.
   */
  lemma NoLostWakeup(n: nat, run: seq<Step>, i: nat, j: nat, p: nat, q: nat, chan: nat, lk: nat)
    requires After(Start(n), run).Some? && i < j < |run|
    requires run[i] == Test(p, chan, lk) && forall m :: i < m < |run| ==> !TestOf(run[m], p)
    requires After(Start(n), run[..j]).Some? && Takes(After(Start(n), run[..j]).value, run[j], q, lk)
    requires var s := After(Start(n), run).value; q < |s.pc| && s.pc[q].Waking? && s.pc[q].chan == chan
    ensures p < n && Woken(After(Start(n), run).value, p, q)
  {
    hide After, Since, Past, Woken, Takes, Inv;
    SinceTest(Start(n), run, i, j, p, chan, lk);
    RunKeeps(n, run[..j]);
    LetGo(After(Start(n), run[..j]).value, run[j], p, q, chan, lk);
    PastFrom(Start(n), run, j, |run|, p, chan);
    assert run[..|run|] == run;
    RunKeeps(n, run);
    WakesPast(After(Start(n), run).value, p, q, chan);
  }

  /** In particular when q still holds lk: then nobody is between a test under lk and its sleep. */
  lemma HolderWakes(n: nat, run: seq<Step>, q: nat, lk: nat)
    requires After(Start(n), run).Some?
    requires var s := After(Start(n), run).value; q < |s.pc| && s.pc[q].Waking? && Holds(s, lk, q)
    ensures var s := After(Start(n), run).value; forall p :: 0 <= p < |s.pc| && Between(s.pc[p]) ==> s.pc[p].lk != lk
  {
    RunKeeps(n, run);
    var s := After(Start(n), run).value;
    forall p | 0 <= p < |s.pc| && Between(s.pc[p]) ensures s.pc[p].lk != lk {
      assert Placed(s, p) && Placed(s, q);
    }
  }

  /** wakeup1 wakes the sleepers on its channel and leaves all others, asleep or not, as they are. */
  lemma OnlyItsChannel(s: State, q: nat, p: nat)
    requires Inv(s) && q < |s.pc| && s.pc[q].Waking? && p < |s.pc|
    ensures Do(s, Go(q)).Some?
    ensures var r := Do(s, Go(q)).value.run[p];
            if s.run[p] == Sleeping && s.pc[p].Away? && s.pc[p].chan == s.pc[q].chan then r == Runnable else r == s.run[p]
  {
    assert Placed(s, p);
  }

  // ----- Without the lock a wakeup can be lost -----

  lemma Snoc(s: State, run: seq<Step>, t: State, a: Step)
    requires Sized(s) && After(s, run) == Some(t)
    ensures After(s, run + [a]) == Do(t, a)
  {
    assert (run + [a])[..|run|] == run;
  }

  lemma ThreeMore(s: State, run: seq<Step>, t: State, a: Step, t1: State, b: Step, t2: State, c: Step, u: State)
    requires Sized(s) && After(s, run) == Some(t)
    requires Do(t, a) == Some(t1) && Do(t1, b) == Some(t2) && Do(t2, c) == Some(u)
    ensures After(s, run + [a, b, c]) == Some(u)
  {
    hide After, Do;
    Snoc(s, run, t, a);
    Snoc(s, run + [a], t1, b);
    Snoc(s, run + [a] + [b], t2, c);
    assert run + [a] + [b] + [c] == run + [a, b, c];
  }

  /** Process 0 tests under lk and decides to sleep; process 1 calls wakeup without lk. */
  lemma LostStart(chan: nat, lk: nat)
    requires lk != PTABLE
    ensures After(Start(2), [Acquire(0, lk), Test(0, chan, lk), Wakeup(1, chan)])
            == Some(State([Decided(chan, lk), Calling(chan)], [Running, Running], [0, 0], map[lk := 0]))
  {
    var s0 := Start(2);
    assert s0 == State([Out, Out], [Running, Running], [0, 0], map[]);
    var s1 := s0.(locks := s0.locks[lk := 0]);
    var s2 := s1.(pc := s1.pc[0 := Decided(chan, lk)]);
    var s3 := s2.(pc := s2.pc[1 := Calling(chan)]);
    assert s3.pc == [Decided(chan, lk), Calling(chan)];
    assert Do(s0, Acquire(0, lk)) == Some(s1) && Do(s1, Test(0, chan, lk)) == Some(s2) && Do(s2, Wakeup(1, chan)) == Some(s3);
    ThreeMore(s0, [], s0, Acquire(0, lk), s1, Test(0, chan, lk), s2, Wakeup(1, chan), s3);
    assert [] + [Acquire(0, lk), Test(0, chan, lk), Wakeup(1, chan)] == [Acquire(0, lk), Test(0, chan, lk), Wakeup(1, chan)];
  }

  /** The wakeup finds nobody asleep. */
  lemma LostWakeup(chan: nat, lk: nat, run: seq<Step>)
    requires lk != PTABLE
    requires After(Start(2), run) == Some(State([Decided(chan, lk), Calling(chan)], [Running, Running], [0, 0], map[lk := 0]))
    ensures After(Start(2), run + [Go(1), Go(1), Go(1)])
            == Some(State([Decided(chan, lk), Out], [Running, Running], [0, 0], map[lk := 0]))
  {
    var s3 := State([Decided(chan, lk), Calling(chan)], [Running, Running], [0, 0], map[lk := 0]);
    var s4 := s3.(pc := s3.pc[1 := Waking(chan, false)], locks := s3.locks[PTABLE := 1]);
    var s5 := s4.(pc := s4.pc[1 := Leaving]);
    var s6 := s5.(pc := s5.pc[1 := Out], locks := s5.locks - {PTABLE});
    assert WakeOn(s4.run, s4.chan, chan) == s4.run;
    assert s6.locks == map[lk := 0] && s6.pc == [Decided(chan, lk), Out];
    assert Do(s3, Go(1)) == Some(s4) && Do(s4, Go(1)) == Some(s5) && Do(s5, Go(1)) == Some(s6);
    ThreeMore(Start(2), run, s3, Go(1), s4, Go(1), s5, Go(1), s6);
  }

  /** And then process 0 goes to sleep. */
  lemma LostSleep(chan: nat, lk: nat, run: seq<Step>)
    requires lk != PTABLE
    requires After(Start(2), run) == Some(State([Decided(chan, lk), Out], [Running, Running], [0, 0], map[lk := 0]))
    ensures After(Start(2), run + [Go(0), Go(0), Go(0)])
            == Some(State([Away(chan, lk), Out], [Sleeping, Running], [chan, 0], map[]))
  {
    var s6 := State([Decided(chan, lk), Out], [Running, Running], [0, 0], map[lk := 0]);
    var s7 := s6.(pc := s6.pc[0 := Both(chan, lk)], locks := s6.locks[PTABLE := 0]);
    var s8 := s7.(pc := s7.pc[0 := Going(chan, lk)], locks := s7.locks - {lk});
    var s9 := State(s8.pc[0 := Away(chan, lk)], s8.run[0 := Sleeping], s8.chan[0 := chan], s8.locks - {PTABLE});
    assert s9.locks == map[] && s9.pc == [Away(chan, lk), Out] && s9.run == [Sleeping, Running] && s9.chan == [chan, 0];
    assert Do(s6, Go(0)) == Some(s7) && Do(s7, Go(0)) == Some(s8) && Do(s8, Go(0)) == Some(s9);
    ThreeMore(Start(2), run, s6, Go(0), s7, Go(0), s8, Go(0), s9);
  }

  /**
   The lock is what it takes: where process 1 calls wakeup(chan) without having taken lk since
   process 0's test under it, process 0 can sleep through it, with nobody left to wake it.
   */
  lemma LostWithoutLock(chan: nat, lk: nat) returns (run: seq<Step>)
    requires lk != PTABLE
    ensures |run| == 9 && run[1] == Test(0, chan, lk) && run[2] == Wakeup(1, chan)
    ensures After(Start(2), run) == Some(State([Away(chan, lk), Out], [Sleeping, Running], [chan, 0], map[]))
  {
    hide After, Start;
    LostStart(chan, lk);
    var r := [Acquire(0, lk), Test(0, chan, lk), Wakeup(1, chan)];
    LostWakeup(chan, lk, r);
    LostSleep(chan, lk, r + [Go(1), Go(1), Go(1)]);
    run := r + [Go(1), Go(1), Go(1)] + [Go(0), Go(0), Go(0)];
  }
}

/**
 What the write-ahead log promises its callers, without disks, caches or headers:
 file-system operations write blocks, a whole group of operations becomes durable
 in one step, and a crash forgets exactly the group that was still open.
 */
module LogSpec {
  import opened Blocks

  type OpId = nat

  /** One log_write: operation `op` gives `block` the contents `value`. */
  datatype Update = Update(op: OpId, block: nat, value: Block)

  datatype Event =
    | Begin(op: OpId)
    | Write(u: Update)
    | End(op: OpId)
    | Commit
    | Crash
    | Silent

  datatype Spec = Spec(
    committed: seq<seq<Update>>,  // the durable groups, oldest first
    current: seq<Update>,         // the updates of the open group, in order
    active: set<OpId>,            // operations between begin_op and end_op
    begun: set<OpId>)             // every operation that ever began

  const Initial := Spec([], [], {}, {})

  predicate Enabled(a: Spec, e: Event) {
    match e
    case Begin(op) => op !in a.begun
    case Write(u) => u.op in a.active
    case End(op) => op in a.active
    case Commit => a.active == {}
    case Crash => true
    case Silent => true
  }

  function Apply(a: Spec, e: Event): Spec {
    match e
    case Begin(op) => a.(active := a.active + {op}, begun := a.begun + {op})
    case Write(u) => a.(current := a.current + [u])
    case End(op) => a.(active := a.active - {op})
    case Commit => a.(committed := a.committed + [a.current], current := [])
    case Crash => a.(current := [], active := {})
    case Silent => a
  }

  // ----- Runs of the specification -----

  /** The state after the events `es`. */
  function After(es: seq<Event>): Spec {
    if es == [] then Initial else Apply(After(es[..|es| - 1]), es[|es| - 1])
  }

  /** Every event happened in a state that enabled it. */
  predicate Legal(es: seq<Event>) {
    es == [] || (Legal(es[..|es| - 1]) && Enabled(After(es[..|es| - 1]), es[|es| - 1]))
  }

  /** What operation `op` wrote over the whole run. */
  function WritesBy(es: seq<Event>, op: OpId): seq<Update> {
    if es == [] then []
    else
      var e := es[|es| - 1];
      WritesBy(es[..|es| - 1], op) + if e.Write? && e.u.op == op then [e.u] else []
  }

  /** The updates of `us` that belong to `op`, in order. */
  function Of(us: seq<Update>, op: OpId): seq<Update> {
    if us == [] then []
    else Of(us[..|us| - 1], op) + if us[|us| - 1].op == op then [us[|us| - 1]] else []
  }

  /** Each operation sits in one group only, and that group has all it wrote. */
  ghost predicate Atomic(es: seq<Event>, a: Spec) {
    && (forall i, op {:trigger Of(a.committed[i], op)} ::
          0 <= i < |a.committed| && Of(a.committed[i], op) != [] ==>
            Of(a.committed[i], op) == WritesBy(es, op) && op !in a.active)
    && (forall i, j, op {:trigger Of(a.committed[i], op), Of(a.committed[j], op)} ::
          0 <= i < j < |a.committed| && Of(a.committed[i], op) != [] ==> Of(a.committed[j], op) == [])
    && (forall op {:trigger Of(a.current, op)} ::
          op in a.active || Of(a.current, op) != [] ==> Of(a.current, op) == WritesBy(es, op))
    && (forall i, op {:trigger Of(a.committed[i], op)} ::
          0 <= i < |a.committed| && Of(a.committed[i], op) != [] ==> Of(a.current, op) == [])
  }

  ghost predicate Known(es: seq<Event>, a: Spec) {
    && a.active <= a.begun
    && (forall op {:trigger WritesBy(es, op)} :: op !in a.begun ==> WritesBy(es, op) == [])
    && (forall op {:trigger Of(a.current, op)} :: op !in a.begun ==> Of(a.current, op) == [])
    && (forall i, op {:trigger Of(a.committed[i], op)} ::
          0 <= i < |a.committed| && op !in a.begun ==> Of(a.committed[i], op) == [])
  }

  lemma WritesByExtend(es: seq<Event>, e: Event, op: OpId)
    ensures WritesBy(es + [e], op) == WritesBy(es, op) + if e.Write? && e.u.op == op then [e.u] else []
  {
    assert (es + [e])[..|es|] == es;
  }

  lemma OfExtend(us: seq<Update>, u: Update, op: OpId)
    ensures Of(us + [u], op) == Of(us, op) + if u.op == op then [u] else []
  {
    assert (us + [u])[..|us|] == us;
  }

  lemma WriteAtomic(es: seq<Event>, a: Spec, u: Update)
    requires u.op in a.active && Atomic(es, a) && Known(es, a)
    ensures Atomic(es + [Write(u)], Apply(a, Write(u)))
  {
    forall op ensures WritesBy(es + [Write(u)], op) == WritesBy(es, op) + if u.op == op then [u] else [] {
      WritesByExtend(es, Write(u), op);
    }
    forall op ensures Of(a.current + [u], op) == Of(a.current, op) + if u.op == op then [u] else [] {
      OfExtend(a.current, u, op);
    }
  }

  lemma QuietAtomic(es: seq<Event>, a: Spec, e: Event)
    requires Enabled(a, e) && !e.Write? && Atomic(es, a) && Known(es, a)
    ensures Atomic(es + [e], Apply(a, e))
  {
    forall op ensures WritesBy(es + [e], op) == WritesBy(es, op) {
      WritesByExtend(es, e, op);
    }
  }

  lemma StepKnown(es: seq<Event>, a: Spec, e: Event)
    requires Enabled(a, e) && Known(es, a)
    ensures Known(es + [e], Apply(a, e))
  {
    forall op | op !in Apply(a, e).begun
      ensures WritesBy(es + [e], op) == [] && Of(Apply(a, e).current, op) == []
    {
      WritesByExtend(es, e, op);
      if e.Write? { OfExtend(a.current, e.u, op); }
    }
  }

  /**
   Group commit is all-or-nothing for every operation of every run: whenever a durable
   group holds any update of an operation, it holds all of them, the operation has
   ended, and no other durable group and not the open group holds any.
   */
  lemma {:induction false} OperationsAreAtomic(es: seq<Event>)
    requires Legal(es)
    ensures Atomic(es, After(es)) && Known(es, After(es))
  {
    if es != [] {
      var before, e := es[..|es| - 1], es[|es| - 1];
      OperationsAreAtomic(before);
      if e.Write? { WriteAtomic(before, After(before), e.u); } else { QuietAtomic(before, After(before), e); }
      StepKnown(before, After(before), e);
      assert before + [e] == es;
    }
  }

  // ----- Contents -----

  /** The blocks after playing the updates in order; updates off the end are ignored. */
  function Play(d: seq<Block>, us: seq<Update>): (r: seq<Block>)
    ensures |r| == |d|
  {
    if us == [] then d
    else
      var u := us[|us| - 1];
      var p := Play(d, us[..|us| - 1]);
      if u.block < |p| then p[u.block := u.value] else p
  }

  function PlayAll(d: seq<Block>, gs: seq<seq<Update>>): (r: seq<Block>)
    ensures |r| == |d|
  {
    if gs == [] then d else Play(PlayAll(d, gs[..|gs| - 1]), gs[|gs| - 1])
  }

  /** What survives a crash, and what running operations see. */
  function Durable(init: seq<Block>, a: Spec): seq<Block> { PlayAll(init, a.committed) }
  function Visible(init: seq<Block>, a: Spec): seq<Block> { Play(Durable(init, a), a.current) }

  lemma PlayExtend(d: seq<Block>, us: seq<Update>, u: Update)
    requires u.block < |d|
    ensures Play(d, us + [u]) == Play(d, us)[u.block := u.value]
  {
    assert (us + [u])[..|us|] == us;
  }

  /** A write changes what is visible at its block, and nothing durable. */
  lemma WriteContents(init: seq<Block>, a: Spec, u: Update)
    requires u.block < |init|
    ensures Durable(init, Apply(a, Write(u))) == Durable(init, a)
    ensures Visible(init, Apply(a, Write(u))) == Visible(init, a)[u.block := u.value]
  {
    PlayExtend(Durable(init, a), a.current, u);
  }

  /** Committing changes what is durable to what was visible, and nothing visible. */
  lemma CommitContents(init: seq<Block>, a: Spec)
    ensures Durable(init, Apply(a, Commit)) == Visible(init, a)
    ensures Visible(init, Apply(a, Commit)) == Visible(init, a)
  {
    assert (a.committed + [a.current])[..|a.committed|] == a.committed;
  }
}

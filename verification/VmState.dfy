/**
 Physical frames, the two-level page tables kept in them, and what each frame is used for.
 A frame is 1024 words; a table entry is frame number * 4096 + flags, present when odd.
 */
module VmState {

  const NPT := 1024                  // entries in a directory or a table
  const NUSER := 512                 // directory entries below KERNBASE
  const PTE_P := 1
  const PTE_W := 2
  const PTE_U := 4

  type Page = p: seq<nat> | |p| == 1024 witness seq(1024, _ => 0)

  function ZeroPage(): Page { seq(1024, _ => 0) }

  predicate Present(e: nat) { e % 2 == 1 }
  function FrameOf(e: nat): nat { e / 4096 }
  function Flags(e: nat): nat { e % 4096 }

  /** A place for a frame number: an entry of directory d, or of one of its tables. */
  datatype Slot = Pde(d: nat, i: nat) | Pte(d: nat, i: nat, j: nat)

  /** A frame that is not free: a page directory, what an entry points at, or in the kernel's hands. */
  datatype Use = Dir | At(s: Slot) | Held

  /** Frames lo to hi - 1 are those of the allocator. */
  datatype Phys = Phys(lo: nat, hi: nat, mem: seq<Page>) {
    predicate Shape() { 1 <= lo <= hi == |mem| }

    predicate Slotted(s: Slot) {
      s.d < hi && if s.Pde? then s.i < NPT else s.i < NUSER && s.j < NPT
    }

    function Entry(s: Slot): nat
      requires Shape() && Slotted(s)
    {
      match s
      case Pde(d, i) => mem[d][i]
      case Pte(d, i, j) =>
        var e := mem[d][i];
        if Present(e) && FrameOf(e) < hi then mem[FrameOf(e)][j] else 0
    }
  }

  /** Where the use of f says it is. A name of its own, so that the verifier looks for it only where it is mentioned. */
  function Spot(use: map<nat, Use>, f: nat): Slot
    requires f in use && use[f].At?
  {
    use[f].s
  }

  predicate IsDir(use: map<nat, Use>, d: nat) { d in use && use[d] == Dir }

  /** Present entries and recorded uses are the same thing: no frame is pointed at twice. */
  ghost predicate Linked(v: Phys, use: map<nat, Use>)
    requires v.Shape()
  {
    && (forall f | f in use :: v.lo <= f < v.hi)
    && (forall s: Slot :: v.Slotted(s) && IsDir(use, s.d) && Present(v.Entry(s)) ==>
          FrameOf(v.Entry(s)) in use && use[FrameOf(v.Entry(s))] == At(s))
    && (forall f {:trigger Spot(use, f)} | f in use && use[f].At? ::
          var s := Spot(use, f); v.Slotted(s) && IsDir(use, s.d) && Present(v.Entry(s)) && FrameOf(v.Entry(s)) == f)
  }

  /** The table that holds the entries of directory entry i, if there is one. */
  lemma TableOf(v: Phys, use: map<nat, Use>, d: nat, i: nat)
    requires v.Shape() && Linked(v, use) && IsDir(use, d) && i < NPT && Present(v.mem[d][i])
    ensures var t := FrameOf(v.mem[d][i]); t in use && use[t] == At(Pde(d, i)) && v.lo <= t < v.hi
  {
    assert v.Entry(Pde(d, i)) == v.mem[d][i];
  }

  /** What a use says is so. */
  lemma UsePresent(v: Phys, use: map<nat, Use>, f: nat)
    requires v.Shape() && Linked(v, use) && f in use && use[f].At?
    ensures var s := use[f].s; v.Slotted(s) && IsDir(use, s.d) && Present(v.Entry(s)) && FrameOf(v.Entry(s)) == f
  {
    assert Spot(use, f) == use[f].s;
  }

  // ----- Changes -----

  /** Frames that are neither directories nor tables may change: every entry stays. */
  lemma Unrelated(v: Phys, use: map<nat, Use>, f: nat, p: Page)
    requires v.Shape() && Linked(v, use) && f < v.hi && !IsDir(use, f)
    requires f in use && use[f].At? ==> use[f].s.Pte?
    ensures var v' := v.(mem := v.mem[f := p]);
            && v'.Shape() && Linked(v', use)
            && (forall s: Slot :: v.Slotted(s) && IsDir(use, s.d) ==> v'.Entry(s) == v.Entry(s))
  {
    var v' := v.(mem := v.mem[f := p]);
    forall s: Slot | v.Slotted(s) && IsDir(use, s.d) ensures v'.Slotted(s) && v'.Entry(s) == v.Entry(s) {
      if s.Pte? && Present(v.mem[s.d][s.i]) {
        TableOf(v, use, s.d, s.i);
      }
    }
  }

  /** An entry, absent before, points at a frame that was in the kernel's hands. */
  lemma LinkedGrows(v: Phys, v': Phys, use: map<nat, Use>, s: Slot, f: nat)
    requires v.Shape() && v'.Shape() && v'.lo == v.lo && v'.hi == v.hi && Linked(v, use)
    requires v.Slotted(s) && IsDir(use, s.d) && !Present(v.Entry(s)) && f in use && use[f] == Held
    requires Present(v'.Entry(s)) && FrameOf(v'.Entry(s)) == f
    requires forall t: Slot :: v.Slotted(t) && t != s && IsDir(use, t.d) ==> v'.Entry(t) == v.Entry(t)
    ensures Linked(v', use[f := At(s)])
  {
    var use' := use[f := At(s)];
    forall x {:trigger Spot(use', x)} | x in use' && use'[x].At?
      ensures var t := Spot(use', x); v'.Slotted(t) && IsDir(use', t.d) && Present(v'.Entry(t)) && FrameOf(v'.Entry(t)) == x
    {
      if x != f { assert Spot(use', x) == Spot(use, x); }
    }
  }

  /** An entry is cleared, and its frame is back in the kernel's hands. */
  lemma LinkedShrinks(v: Phys, v': Phys, use: map<nat, Use>, s: Slot)
    requires v.Shape() && v'.Shape() && v'.lo == v.lo && v'.hi == v.hi && Linked(v, use)
    requires v.Slotted(s) && IsDir(use, s.d) && Present(v.Entry(s)) && !Present(v'.Entry(s))
    requires forall t: Slot :: v.Slotted(t) && t != s && IsDir(use, t.d) ==> v'.Entry(t) == v.Entry(t)
    ensures FrameOf(v.Entry(s)) in use && Linked(v', use[FrameOf(v.Entry(s)) := Held])
  {
    var f := FrameOf(v.Entry(s));
    var use' := use[f := Held];
    forall x {:trigger Spot(use', x)} | x in use' && use'[x].At?
      ensures var t := Spot(use', x); v'.Slotted(t) && IsDir(use', t.d) && Present(v'.Entry(t)) && FrameOf(v'.Entry(t)) == x
    {
      assert Spot(use', x) == Spot(use, x);
    }
  }

  function WithEntry(p: Page, j: nat, e: nat): (r: Page)
    requires j < NPT
    ensures r[j] == e && forall k :: 0 <= k < NPT && k != j ==> r[k] == p[k]
  {
    p[j := e]
  }

  /** A zeroed table is hung into a directory. */
  lemma TableAdded(v: Phys, use: map<nat, Use>, d: nat, i: nat, t: nat, e: nat)
    requires v.Shape() && Linked(v, use) && IsDir(use, d) && i < NPT && !Present(v.mem[d][i])
    requires t in use && use[t] == Held && Present(e) && FrameOf(e) == t && v.mem[t] == ZeroPage()
    ensures var v' := v.(mem := v.mem[d := WithEntry(v.mem[d], i, e)]);
            && v'.Shape() && Linked(v', use[t := At(Pde(d, i))])
            && (forall s: Slot :: v.Slotted(s) && s != Pde(d, i) && IsDir(use, s.d) ==> v'.Entry(s) == v.Entry(s))
  {
    var v' := v.(mem := v.mem[d := WithEntry(v.mem[d], i, e)]);
    forall s: Slot | v.Slotted(s) && s != Pde(d, i) && IsDir(use, s.d) ensures v'.Entry(s) == v.Entry(s) {
      if s.Pte? {
        if s.d == d && s.i == i {
          assert v'.mem[t] == ZeroPage();
        } else if Present(v.mem[s.d][s.i]) {
          TableOf(v, use, s.d, s.i);
        }
      }
    }
    assert v.Entry(Pde(d, i)) == v.mem[d][i] && v'.Entry(Pde(d, i)) == e;
    LinkedGrows(v, v', use, Pde(d, i), t);
  }

  /** A table for the kernel half, whatever is in it. */
  lemma KernelTableAdded(v: Phys, use: map<nat, Use>, d: nat, i: nat, t: nat, e: nat)
    requires v.Shape() && Linked(v, use) && IsDir(use, d) && NUSER <= i < NPT && !Present(v.mem[d][i])
    requires t in use && use[t] == Held && Present(e) && FrameOf(e) == t
    ensures var v' := v.(mem := v.mem[d := WithEntry(v.mem[d], i, e)]);
            && v'.Shape() && Linked(v', use[t := At(Pde(d, i))])
            && (forall s: Slot :: v.Slotted(s) && s != Pde(d, i) && IsDir(use, s.d) ==> v'.Entry(s) == v.Entry(s))
  {
    var v' := v.(mem := v.mem[d := WithEntry(v.mem[d], i, e)]);
    forall s: Slot | v.Slotted(s) && s != Pde(d, i) && IsDir(use, s.d) ensures v'.Entry(s) == v.Entry(s) {
      if s.Pte? && Present(v.mem[s.d][s.i]) {
        TableOf(v, use, s.d, s.i);
      }
    }
    assert v.Entry(Pde(d, i)) == v.mem[d][i] && v'.Entry(Pde(d, i)) == e;
    LinkedGrows(v, v', use, Pde(d, i), t);
  }

  /** One entry of a table of directory d changes: no other entry does. */
  lemma EntrySet(v: Phys, use: map<nat, Use>, d: nat, i: nat, j: nat, e: nat)
    requires v.Shape() && Linked(v, use) && IsDir(use, d) && i < NUSER && j < NPT && Present(v.mem[d][i])
    ensures var t := FrameOf(v.mem[d][i]);
            && t < v.hi
            && var v' := v.(mem := v.mem[t := WithEntry(v.mem[t], j, e)]);
               && v'.Shape() && v'.Entry(Pte(d, i, j)) == e
               && (forall s: Slot :: v.Slotted(s) && s != Pte(d, i, j) && IsDir(use, s.d) ==> v'.Entry(s) == v.Entry(s))
  {
    TableOf(v, use, d, i);
    var t := FrameOf(v.mem[d][i]);
    var v' := v.(mem := v.mem[t := WithEntry(v.mem[t], j, e)]);
    forall s: Slot | v.Slotted(s) && s != Pte(d, i, j) && IsDir(use, s.d) ensures v'.Entry(s) == v.Entry(s) {
      if s.Pte? && Present(v.mem[s.d][s.i]) {
        TableOf(v, use, s.d, s.i);
      }
    }
  }

  /** A page of zeros becomes a directory. */
  lemma DirMade(v: Phys, use: map<nat, Use>, d: nat)
    requires v.Shape() && Linked(v, use) && d in use && use[d] == Held && v.mem[d] == ZeroPage()
    ensures Linked(v, use[d := Dir])
    ensures forall s: Slot :: v.Slotted(s) && s.d == d ==> !Present(v.Entry(s))
  {
    var use' := use[d := Dir];
    forall x {:trigger Spot(use', x)} | x in use' && use'[x].At?
      ensures var t := Spot(use', x); v.Slotted(t) && IsDir(use', t.d) && Present(v.Entry(t)) && FrameOf(v.Entry(t)) == x
    {
      assert Spot(use', x) == Spot(use, x);
    }
  }

  /** The uses when directory d is given up: it and its tables are in the kernel's hands. */
  function Abandoned(use: map<nat, Use>, d: nat): map<nat, Use> {
    map f | f in use :: if f == d || (use[f].At? && use[f].s.d == d) then Held else use[f]
  }

  lemma DirDropped(v: Phys, use: map<nat, Use>, d: nat)
    requires v.Shape() && Linked(v, use) && IsDir(use, d)
    ensures Linked(v, Abandoned(use, d))
  {
    var use' := Abandoned(use, d);
    forall x {:trigger Spot(use', x)} | x in use' && use'[x].At?
      ensures var t := Spot(use', x); v.Slotted(t) && IsDir(use', t.d) && Present(v.Entry(t)) && FrameOf(v.Entry(t)) == x
    {
      assert Spot(use', x) == Spot(use, x);
    }
  }

  // ----- The free list -----

  /** From head, through word 0 of each page, the list visits the frames of `free` and ends. */
  ghost predicate Chain(mem: seq<Page>, head: nat, free: seq<nat>)
    decreases |free|
  {
    if free == [] then head == 0
    else head == free[0] && 0 < head < |mem| && Chain(mem, mem[head][0], free[1..])
  }

  lemma ChainKept(mem: seq<Page>, mem': seq<Page>, head: nat, free: seq<nat>)
    requires Chain(mem, head, free) && |mem'| == |mem| && forall f :: f in free && f < |mem| ==> mem'[f] == mem[f]
    ensures Chain(mem', head, free)
    decreases |free|
  {
    if free != [] {
      assert free[0] in free;
      ChainKept(mem, mem', mem[head][0], free[1..]);
    }
  }
}

/**
 kalloc.c and the user half of vm.c: the page allocator and the page tables built from its
 pages. Every frame is free, in the kernel's hands, or used in exactly one place.
 */
module Vm {
  import opened VmState

  /** Same frames, same entries of user tables. */
  ghost predicate PtesKept(v: Phys, v': Phys, use: map<nat, Use>)
    requires v.Shape() && v'.Shape()
  {
    && v'.lo == v.lo && v'.hi == v.hi
    && forall s: Slot :: v.Slotted(s) && s.Pte? && IsDir(use, s.d) ==> v'.Entry(s) == v.Entry(s)
  }

  /** A frame whose contents no mapping of a user page changes: a page, the kernel's own, or a table of the kernel half. */
  predicate Steady(u: Use) { u == Held || (u.At? && (u.s.Pte? || u.s.i >= NUSER)) }

  /** Those have their contents. */
  ghost predicate PagesKept(v: Phys, v': Phys, use: map<nat, Use>)
    requires v.Shape() && v'.Shape()
  {
    && v'.hi == v.hi
    && forall f | f in use && f < v.hi && Steady(use[f]) :: v'.mem[f] == v.mem[f]
  }

  /** The same, but for entry s. */
  ghost predicate PtesBut(v: Phys, v': Phys, use: map<nat, Use>, s: Slot)
    requires v.Shape() && v'.Shape()
  {
    && v'.lo == v.lo && v'.hi == v.hi
    && forall t: Slot :: v.Slotted(t) && t.Pte? && t != s && IsDir(use, t.d) ==> v'.Entry(t) == v.Entry(t)
  }

  /** use' is use and perhaps some new tables of directory d. */
  ghost predicate MoreTables(use: map<nat, Use>, use': map<nat, Use>, d: nat) {
    && (forall f | f in use :: f in use' && use'[f] == use[f])
    && (forall f | f in use' && f !in use :: use'[f].At? && use'[f].s.Pde? && use'[f].s.d == d)
  }

  const KERNBASE := 0x8000_0000

  /** Pages that sz bytes take, PGROUNDUP(sz) / PGSIZE. */
  function PageUp(sz: nat): nat { (sz + 4095) / 4096 }

  /** The page number of an entry of a table. */
  function PageNo(s: Slot): nat
    requires s.Pte?
  {
    s.i * NPT + s.j
  }

  predicate InRange(u: Use, d: nat, a: nat, b: nat) {
    u.At? && u.s.Pte? && u.s.d == d && a <= PageNo(u.s) < b
  }

  /** The uses without pages a to b - 1 of directory d. */
  function Cut(use: map<nat, Use>, d: nat, a: nat, b: nat): map<nat, Use> {
    map f | f in use && !InRange(use[f], d, a, b) :: use[f]
  }

  /** Entries a to b - 1 of directory d are absent, and the others as they were. */
  ghost predicate Gone(v: Phys, v': Phys, use: map<nat, Use>, d: nat, a: nat, b: nat)
    requires v.Shape() && v'.Shape()
  {
    && v'.lo == v.lo && v'.hi == v.hi
    && forall s: Slot :: v.Slotted(s) && s.Pte? && IsDir(use, s.d) ==>
         if s.d == d && a <= PageNo(s) < b then !Present(v'.Entry(s)) else v'.Entry(s) == v.Entry(s)
  }

  /** A new page of zeros, writable by the user. */
  ghost predicate NewPage(v: Phys, use: map<nat, Use>, e: nat) {
    Present(e) && Flags(e) == 7 && FrameOf(e) !in use && FrameOf(e) < |v.mem| && v.mem[FrameOf(e)] == ZeroPage()
  }

  /** Pages a to n - 1 of directory d are new, the other entries as they were, and nothing else was taken but tables. */
  ghost predicate Filled(v0: Phys, use0: map<nat, Use>, v: Phys, use: map<nat, Use>, d: nat, a: nat, n: nat)
    requires v0.Shape() && v.Shape()
  {
    && v.lo == v0.lo && v.hi == v0.hi
    && (forall s: Slot :: v0.Slotted(s) && s.Pte? && IsDir(use0, s.d) ==>
          if s.d == d && a <= PageNo(s) < n then NewPage(v, use0, v.Entry(s)) else v.Entry(s) == v0.Entry(s))
    && (forall f | f in use0 :: f in use && use[f] == use0[f])
    && (forall f | f in use && f !in use0 :: use[f].At? && use[f].s.d == d && (use[f].s.Pde? || InRange(use[f], d, a, n)))
  }

  /** No page of directory d from a up to b. */
  ghost predicate Vacant(v: Phys, d: nat, a: nat, b: nat)
    requires v.Shape()
  {
    forall s: Slot :: v.Slotted(s) && s.Pte? && s.d == d && a <= PageNo(s) < b ==> !Present(v.Entry(s))
  }

  /** The same user mappings: the same entries where they are present. */
  ghost predicate SameMap(v: Phys, v': Phys, use: map<nat, Use>)
    requires v.Shape() && v'.Shape()
  {
    && v'.lo == v.lo && v'.hi == v.hi
    && forall s: Slot :: v.Slotted(s) && s.Pte? && IsDir(use, s.d) ==>
         if Present(v.Entry(s)) then v'.Entry(s) == v.Entry(s) else !Present(v'.Entry(s))
  }

  /** The uses without directory d and all that hangs from it. */
  function Without(use: map<nat, Use>, d: nat): map<nat, Use> {
    map f | f in use && f != d && !(use[f].At? && use[f].s.d == d) :: use[f]
  }

  /** The tables named by the first i entries of a directory. */
  function Tables(p: Page, i: nat): set<nat>
    requires i <= NPT
  {
    set k | 0 <= k < i && Present(p[k]) :: FrameOf(p[k])
  }

  /** Beside what use0 has, use has directory c and what hangs from it. */
  ghost predicate OnlyBelow(use0: map<nat, Use>, use: map<nat, Use>, c: nat) {
    && c !in use0 && IsDir(use, c) && (forall f | f in use0 :: f in use && use[f] == use0[f])
    && (forall f | f in use && f !in use0 :: f == c || (use[f].At? && use[f].s.d == c))
  }

  /** The tables of the kernel half, by directory entry. */
  ghost predicate KMapOk(kmap: seq<(nat, Page)>) {
    && (forall k :: 0 <= k < |kmap| ==> NUSER <= kmap[k].0 < NPT)
    && (forall j, k :: 0 <= j < k < |kmap| ==> kmap[j].0 != kmap[k].0)
  }

  /** The first n of those tables hang in directory d at their entries, with the contents given. */
  ghost predicate KernelIn(v: Phys, d: nat, kmap: seq<(nat, Page)>, n: nat)
    requires v.Shape()
  {
    d < v.hi && n <= |kmap| && forall k :: 0 <= k < n && kmap[k].0 < NPT ==>
      var e := v.mem[d][kmap[k].0];
      Present(e) && FrameOf(e) < v.hi && v.mem[FrameOf(e)] == kmap[k].1
  }

  /** What keeps every use and every steady frame keeps them. */
  lemma KernelStays(v: Phys, use: map<nat, Use>, v': Phys, use': map<nat, Use>, d: nat, kmap: seq<(nat, Page)>, n: nat)
    requires v.Shape() && v'.Shape() && Linked(v, use) && Linked(v', use') && IsDir(use, d) && KMapOk(kmap) && KernelIn(v, d, kmap, n)
    requires (forall f | f in use :: f in use' && use'[f] == use[f]) && PagesKept(v, v', use)
    ensures KernelIn(v', d, kmap, n)
  {
    forall k | 0 <= k < n ensures Present(v'.mem[d][kmap[k].0]) && FrameOf(v'.mem[d][kmap[k].0]) == FrameOf(v.mem[d][kmap[k].0]) {
      var t := FrameOf(v.mem[d][kmap[k].0]);
      TableOf(v, use, d, kmap[k].0);
      assert Spot(use', t) == Pde(d, kmap[k].0);
    }
    forall k | 0 <= k < n ensures v'.mem[FrameOf(v.mem[d][kmap[k].0])] == kmap[k].1 {
      TableOf(v, use, d, kmap[k].0);
    }
  }

  lemma KernelNone(v: Phys, d: nat, kmap: seq<(nat, Page)>)
    requires v.Shape() && d < v.hi
    ensures KernelIn(v, d, kmap, 0)
  {
  }

  lemma KernelMore(v: Phys, use: map<nat, Use>, v': Phys, use': map<nat, Use>, d: nat, kmap: seq<(nat, Page)>, n: nat)
    requires v.Shape() && v'.Shape() && Linked(v, use) && Linked(v', use') && IsDir(use, d) && KMapOk(kmap) && KernelIn(v, d, kmap, n)
    requires MoreTables(use, use', d) && PagesKept(v, v', use) && n < |kmap|
    requires var e := v'.mem[d][kmap[n].0]; Present(e) && FrameOf(e) < v'.hi && v'.mem[FrameOf(e)] == kmap[n].1
    ensures KernelIn(v', d, kmap, n + 1)
  {
    KernelStays(v, use, v', use', d, kmap, n);
  }

  // ----- How many frames it takes -----

  /** The directories agree but for entry i. */
  ghost predicate DirBut(p: Page, p': Page, i: nat) {
    forall k :: 0 <= k < NPT && k != i ==> p'[k] == p[k]
  }

  /** The frames that mapping page n takes under directory p: the page, and its table if it is missing. */
  function PageCost(p: Page, n: nat): nat
    requires n < NUSER * NPT
  {
    if Present(p[n / NPT]) then 1 else 2
  }

  /** The frames for pages a to b - 1: one each, and one for each table that directory p does not have. */
  function Needs(p: Page, a: nat, b: nat): nat
    requires b <= NUSER * NPT
  {
    if b <= a then 0
    else Needs(p, a, b - 1) + if Present(p[(b - 1) / NPT]) || (a < b - 1 && (b - 2) / NPT == (b - 1) / NPT) then 1 else 2
  }

  /** Directory q is p with the tables for pages a to n - 1. */
  ghost predicate TablesFor(p: Page, q: Page, a: nat, n: nat) {
    forall k :: 0 <= k < NUSER ==> (Present(q[k]) <==> Present(p[k]) || (a < n && a / NPT <= k <= (n - 1) / NPT))
  }

  lemma NothingYet(p: Page, a: nat)
    requires a <= NUSER * NPT
    ensures TablesFor(p, p, a, a) && Needs(p, a, a) == 0
  {
  }

  lemma CostNext(p: Page, q: Page, a: nat, n: nat)
    requires TablesFor(p, q, a, n) && a <= n < NUSER * NPT
    ensures Needs(p, a, n + 1) == Needs(p, a, n) + PageCost(q, n)
  {
  }

  lemma TablesNext(p: Page, q: Page, q': Page, a: nat, n: nat)
    requires TablesFor(p, q, a, n) && a <= n < NUSER * NPT && DirBut(q, q', n / NPT) && Present(q'[n / NPT])
    ensures TablesFor(p, q', a, n + 1)
  {
  }

  lemma {:induction false} NeedsMore(p: Page, a: nat, b: nat, c: nat)
    requires b <= c <= NUSER * NPT
    ensures Needs(p, a, b) <= Needs(p, a, c)
    decreases c
  {
    if b < c { NeedsMore(p, a, b, c - 1); }
  }

  /** From an empty user half, one table for every NPT pages. */
  lemma {:induction false} NeedsFromNothing(p: Page, n: nat)
    requires n <= NUSER * NPT && forall k :: 0 <= k < NUSER ==> !Present(p[k])
    ensures Needs(p, 0, n) == n + (n + NPT - 1) / NPT
    decreases n
  {
    if n > 0 { NeedsFromNothing(p, n - 1); }
  }

  lemma NewTable(p: Page, q: Page, n: nat)
    requires TablesFor(p, q, 0, n) && n < NUSER * NPT && forall k :: 0 <= k < NUSER ==> !Present(p[k])
    ensures PageCost(q, n) == if n % NPT == 0 then 2 else 1
  {
  }

  /** With these many free frames a failing copyuvm is one page short of a table, and loses the page it holds. */
  predicate Loses(nfree: nat, kernel: nat) { nfree >= kernel + 2 && (nfree - kernel - 2) % (NPT + 1) == 0 }

  lemma LosesExactly(nfree: nat, kernel: nat, n: nat, left: nat)
    requires nfree == 1 + kernel + (n + (n + NPT - 1) / NPT) + left && left < if n % NPT == 0 then 2 else 1
    ensures Loses(nfree, kernel) <==> left == 1
  {
    TablesOf(n);
    var q, s := n / NPT, n % NPT;
    if s == 0 && left == 0 {
      if q > 0 { Remainder(q - 1, NPT); }
    } else {
      Remainder(q, s);
    }
  }

  lemma TablesOf(n: nat)
    ensures n == NPT * (n / NPT) + n % NPT && (n + NPT - 1) / NPT == n / NPT + if n % NPT == 0 then 0 else 1
  {
  }

  lemma Remainder(q: nat, s: nat)
    requires s < NPT + 1
    ensures (NPT * q + q + s) % (NPT + 1) == s
  {
  }

  lemma ShortBy(p: Page, q: Page, nfree: nat, kernel: nat, n: nat, left: nat)
    requires TablesFor(p, q, 0, n) && n < NUSER * NPT && forall k :: 0 <= k < NUSER ==> !Present(p[k])
    requires nfree == left + 1 + kernel + Needs(p, 0, n) && left < PageCost(q, n)
    ensures left <= 1 && (Loses(nfree, kernel) <==> left == 1)
  {
    NeedsFromNothing(p, n);
    NewTable(p, q, n);
    LosesExactly(nfree, kernel, n, left);
  }

  lemma CopyNeeds(p: Page, n: nat, kernel: nat)
    requires n <= NUSER * NPT && forall k :: 0 <= k < NUSER ==> !Present(p[k])
    ensures 1 + kernel + Needs(p, 0, n) == CopyCost(kernel, n)
  {
    NeedsFromNothing(p, n);
  }

  lemma NoCopy(kernel: nat)
    ensures CopyCost(kernel, 0) == 1 + kernel
  {
  }

  /** Page n starts below sz exactly when it is one of the pages that sz takes. */
  lemma PagesOf(n: nat, sz: nat)
    ensures n * 4096 < sz <==> n < PageUp(sz)
    ensures sz <= KERNBASE ==> PageUp(sz) <= NUSER * NPT
  {
  }

  lemma NoneLost(nfree: nat, kernel: nat)
    requires nfree < kernel + 1
    ensures !Loses(nfree, kernel)
  {
  }

  /** The frames that the copy of n pages takes: directory, kernel tables, pages, and a table for every NPT of them. */
  function CopyCost(kernel: nat, n: nat): nat { 1 + kernel + n + (n + NPT - 1) / NPT }

  /** What copyuvm returns, 0 being short of memory; or it panics. */
  datatype CopyResult = Child(dir: nat) | Short | Missing

  /** Page n is the first of pages a to b - 1 of directory d that is there. */
  ghost predicate Collides(v: Phys, d: nat, a: nat, b: nat, n: nat)
    requires v.Shape()
  {
    a <= n < b && Vacant(v, d, a, n) && !Vacant(v, d, n, n + 1)
  }

  /** What allocuvm returns, 0 being no room; or mappages panics. */
  datatype AllocResult = Size(sz: nat) | NoRoom | Remapped

  datatype MapResult = Mapped | NoMemory | Remap

  /** flags | PTE_P. */
  function WithP(perm: nat): nat { if perm % 2 == 1 then perm else perm + 1 }

  /** What kfree leaves in a page. */
  function Junk(next: nat): (r: Page)
    ensures r[0] == next && forall i :: 0 < i < 1024 ==> r[i] == 0x01010101
  {
    seq<nat>(1024, i => if i == 0 then next else 0x01010101)
  }

  function AllHeld(lo: nat, hi: nat): (r: map<nat, Use>)
    ensures forall f :: f in r <==> lo <= f < hi
    ensures forall f :: f in r ==> r[f] == Held
  {
    if hi <= lo then map[] else AllHeld(lo, hi - 1)[hi - 1 := Held]
  }

  class Memory {
    const lo: nat
    const hi: nat
    var mem: seq<Page>
    var freelist: nat                // a frame number, 0 for none
    ghost var free: seq<nat>
    ghost var use: map<nat, Use>

    ghost function Now(): Phys
      reads this
    {
      Phys(lo, hi, mem)
    }

    /** Free and used frames partition memory; the free list and the tables are in order. */
    ghost predicate Valid()
      reads this
    {
      && Now().Shape() && Linked(Now(), use) && Chain(mem, freelist, free)
      && (forall i, j :: 0 <= i < j < |free| ==> free[i] != free[j])
      && (forall f :: lo <= f < hi ==> (f in free <==> f !in use))
      && (forall f :: f in free ==> lo <= f < hi) && (forall f | f in use :: lo <= f < hi)
    }

    // ----- kalloc.c -----

    /** Before kinit the kernel holds every frame. */
    constructor (lo: nat, mem: seq<Page>)
      requires 1 <= lo <= |mem|
      ensures Valid() && this.lo == lo && hi == |mem| && forall f :: lo <= f < hi ==> f in use && use[f] == Held
    {
      this.lo, hi, this.mem, freelist, free := lo, |mem|, mem, 0, [];
      use := AllHeld(lo, |mem|);
    }

    /** freerange, over the pages that lie wholly between vstart and vend. */
    method FreeRange(vstart: nat, vend: nat)
      requires Valid() && forall f :: (vstart + 4095) / 4096 <= f && f * 4096 + 4096 <= vend ==> f in use && use[f] == Held
      modifies this`mem, this`freelist, this`free, this`use
      ensures Valid() && use == old(use) - (set f | f in old(use) && (vstart + 4095) / 4096 <= f && f * 4096 + 4096 <= vend)
    {
      hide Linked, Chain, PtesKept, PagesKept;
      ghost var a := (vstart + 4095) / 4096;
      var p := (vstart + 4095) / 4096;
      while p * 4096 + 4096 <= vend
        invariant a <= p && Valid() && use == old(use) - (set f | f in old(use) && a <= f < p && f * 4096 + 4096 <= vend)
        decreases vend - p * 4096
        modifies this`mem, this`freelist, this`free, this`use
      {
        var ok := KFree(p);
        p := p + 1;
      }
    }

    /** kalloc: the first free frame, now in the kernel's hands; 0 when none is free. */
    method KAlloc() returns (f: nat)
      requires Valid()
      modifies this`freelist, this`free, this`use
      ensures Valid() && (f == 0 <==> old(free) == [])
      ensures f == 0 ==> use == old(use) && free == old(free)
      ensures |free| == |old(free)| - if f == 0 then 0 else 1
      ensures f != 0 ==> lo <= f < hi && f !in old(use) && use == old(use)[f := Held]
    {
      f := freelist;
      if f != 0 {
        assert f in free;
        freelist := mem[f][0];
        free := free[1..];
        ghost var use0 := use;
        use := use[f := Held];
        LinkedMore(Now(), use0, f);
        assert forall x :: x in free ==> x in old(free);
        forall x | lo <= x < hi ensures x in free <==> x !in use {
          if x in old(free) && x != f {
            var k :| 0 <= k < |old(free)| && old(free)[k] == x;
            assert free[k - 1] == x;
          }
        }
      }
    }

    /** kfree of a frame that the kernel holds: its range check cannot fail. Only that page changes. */
    method KFree(f: nat) returns (ok: bool)
      requires Valid() && f in use && use[f] == Held
      modifies this`mem, this`freelist, this`free, this`use
      ensures ok && Valid() && use == old(use) - {f} && mem == old(mem)[f := mem[f]] && forall i :: 0 < i < 1024 ==> mem[f][i] == 0x01010101
      ensures PtesKept(old(Now()), Now(), old(use)) && PagesKept(old(Now()), Now(), use)
    {
      ok := !(f < lo || f >= hi);
      ghost var v, use0 := Now(), use;
      Unrelated(v, use, f, Junk(freelist));
      ChainKept(mem, mem[f := Junk(freelist)], freelist, free);
      mem := mem[f := Junk(freelist)];
      freelist := f;
      free := [f] + free;
      use := use - {f};
      LinkedLess(Now(), use0, f);
      assert free[1..] == old(free);
    }

    /** memset or memmove of a page that the kernel holds. */
    method Fill(f: nat, p: Page)
      requires Valid() && f in use && use[f] == Held
      modifies this`mem
      ensures Valid() && mem == old(mem)[f := p] && PtesKept(old(Now()), Now(), use)
    {
      Unrelated(Now(), use, f, p);
      ChainKept(mem, mem[f := p], freelist, free);
      mem := mem[f := p];
    }

    // ----- Page tables -----

    /** walkpgdir for directory entry i: the table, made if `alloc` and there is none; 0 if there still is none. */
    method Walk(d: nat, i: nat, alloc: bool) returns (t: nat)
      requires Valid() && IsDir(use, d) && i < NUSER
      modifies this`mem, this`freelist, this`free, this`use
      ensures Valid() && IsDir(use, d)
      ensures t != 0 ==> t < hi && Present(mem[d][i]) && FrameOf(mem[d][i]) == t
      ensures t != 0 && !Present(old(mem[d][i])) ==> mem[d][i] == t * 4096 + 7
      ensures t == 0 ==> !Present(mem[d][i]) && mem == old(mem) && use == old(use) && (alloc ==> old(free) == [])
      ensures |free| == |old(free)| - (if t != 0 && !Present(old(mem[d][i])) then 1 else 0) && DirBut(old(mem[d]), mem[d], i)
      ensures !alloc || Present(old(mem[d][i])) ==> mem == old(mem) && use == old(use)
      ensures MoreTables(old(use), use, d) && PtesKept(old(Now()), Now(), old(use)) && PagesKept(old(Now()), Now(), old(use))
    {
      hide Linked, Chain, PtesKept, PagesKept, Present, FrameOf;
      var e := mem[d][i];
      KeptSelf(Now(), use);
      if Present(e) {
        TableOf(Now(), use, d, i);
        return FrameOf(e);
      }
      if !alloc {
        return 0;
      }
      ghost var v0, use0 := Now(), use;
      t := KAlloc();
      if t == 0 {
        return;
      }
      Fill(t, ZeroPage());
      ghost var v1, use1 := Now(), use;
      HangTable(d, i, t);
      WalkedKept(v0, v1, Now(), use0, use1, t);
    }

    method HangTable(d: nat, i: nat, t: nat)
      requires Valid() && IsDir(use, d) && i < NUSER && !Present(mem[d][i])
      requires t in use && use[t] == Held && mem[t] == ZeroPage()
      modifies this`mem, this`use
      ensures Valid() && use == old(use)[t := At(Pde(d, i))]
      ensures mem == old(mem)[d := WithEntry(old(mem[d]), i, t * 4096 + 7)] && Present(mem[d][i]) && FrameOf(mem[d][i]) == t
      ensures PtesKept(old(Now()), Now(), old(use)) && PagesKept(old(Now()), Now(), old(use))
    {
      hide Linked, PtesKept, PagesKept, Present, FrameOf, Chain;
      TableHung(Now(), use, d, i, t);
      EntryParts(t, 7);
      ghost var was := mem;
      ChainElsewhere(was, was[d := WithEntry(was[d], i, t * 4096 + 7)], freelist, free, d);
      mem := mem[d := WithEntry(mem[d], i, t * 4096 + 7)];
      use := use[t := At(Pde(d, i))];
    }

    /** mappages of one page: entry (i, j) of directory d. */
    method MapPage(d: nat, i: nat, j: nat, f: nat, perm: nat) returns (r: MapResult)
      requires Valid() && IsDir(use, d) && i < NUSER && j < NPT && f in use && use[f] == Held && perm < 4096
      modifies this`mem, this`freelist, this`free, this`use
      ensures Valid() && IsDir(use, d)
      ensures r.Remap? <==> Present(old(Now()).Entry(Pte(d, i, j)))
      ensures !r.Mapped? ==> use == old(use) && PtesKept(old(Now()), Now(), old(use))
      ensures r.NoMemory? <==> !Present(old(mem[d][i])) && old(free) == []
      ensures |free| == |old(free)| - (if r.Mapped? && !Present(old(mem[d][i])) then 1 else 0)
      ensures DirBut(old(mem[d]), mem[d], i) && (r.Mapped? ==> Present(mem[d][i]))
      ensures r.Mapped? ==> Now().Entry(Pte(d, i, j)) == f * 4096 + WithP(perm)
      ensures r.Mapped? ==> PtesBut(old(Now()), Now(), old(use), Pte(d, i, j)) && MoreTables(old(use)[f := At(Pte(d, i, j))], use, d)
      ensures PagesKept(old(Now()), Now(), old(use))
    {
      hide Linked, Chain, PtesKept, PtesBut, PagesKept, Present, FrameOf;
      ghost var v, use0 := Now(), use;
      assert v.Slotted(Pte(d, i, j));
      var t := Walk(d, i, true);
      KeptEntry(v, Now(), use0, Pte(d, i, j));
      if t == 0 {
        NoTable(v, d, i, j);
        return NoMemory;
      }
      ghost var v1, use1 := Now(), use;
      assert v1.Entry(Pte(d, i, j)) == mem[t][j];
      if Present(mem[t][j]) {
        PresentBefore(v, d, i, j);
        return Remap;
      }
      HangPage(d, i, j, t, f, WithP(perm));
      HungPtes(v, v1, Now(), use0, use1, Pte(d, i, j));
      HungPages(v, v1, Now(), use0, use1);
      r := Mapped;
    }

    method HangPage(d: nat, i: nat, j: nat, t: nat, f: nat, flags: nat)
      requires Valid() && IsDir(use, d) && i < NUSER && j < NPT && Present(mem[d][i]) && t == FrameOf(mem[d][i]) < hi
      requires !Present(mem[t][j]) && f in use && use[f] == Held && flags < 4096 && flags % 2 == 1
      modifies this`mem, this`use
      ensures Valid() && use == old(use)[f := At(Pte(d, i, j))] && mem[d] == old(mem[d])
      ensures Now().Slotted(Pte(d, i, j)) && Now().Entry(Pte(d, i, j)) == f * 4096 + flags
      ensures PtesBut(old(Now()), Now(), old(use), Pte(d, i, j)) && PagesKept(old(Now()), Now(), old(use))
    {
      ghost var v := Now();
      assert v.Entry(Pte(d, i, j)) == mem[t][j];
      PageHung(v, use, d, i, j, f, flags);
      hide Linked, PtesBut, PagesKept;
      mem := mem[t := WithEntry(mem[t], j, f * 4096 + flags)];
      ChainKept(v.mem, mem, freelist, free);
      use := use[f := At(Pte(d, i, j))];
    }

    /** One page of deallocuvm: freed, and its entry cleared. */
    method Unmap(d: nat, i: nat, j: nat, t: nat)
      requires Valid() && IsDir(use, d) && i < NUSER && j < NPT && Present(mem[d][i]) && t == FrameOf(mem[d][i]) < hi
      requires Present(mem[t][j])
      modifies this`mem, this`freelist, this`free, this`use
      ensures Valid() && FrameOf(old(mem[t][j])) in old(use) && old(use)[FrameOf(old(mem[t][j]))] == At(Pte(d, i, j))
      ensures use == old(use) - {FrameOf(old(mem[t][j]))} && mem[d] == old(mem[d])
      ensures Now().Slotted(Pte(d, i, j)) && !Present(Now().Entry(Pte(d, i, j)))
      ensures PtesBut(old(Now()), Now(), old(use), Pte(d, i, j)) && PagesKept(old(Now()), Now(), use)
    {
      hide Linked, Chain, PtesBut, PtesKept, PagesKept;
      ghost var v, use0 := Now(), use;
      var f := FrameOf(mem[t][j]);
      TakePage(d, i, j, t);
      ghost var v1 := Now();
      var ok := KFree(f);
      UnmappedKept(v, v1, Now(), use0, f, Pte(d, i, j));
    }

    method TakePage(d: nat, i: nat, j: nat, t: nat)
      requires Valid() && IsDir(use, d) && i < NUSER && j < NPT && Present(mem[d][i]) && t == FrameOf(mem[d][i]) < hi
      requires Present(mem[t][j])
      modifies this`mem, this`use
      ensures Valid() && var f := FrameOf(old(mem[t][j]));
        f in old(use) && old(use)[f] == At(Pte(d, i, j)) && use == old(use)[f := Held] && f != d
      ensures mem[d] == old(mem[d])
      ensures Now().Slotted(Pte(d, i, j)) && !Present(Now().Entry(Pte(d, i, j)))
      ensures PtesBut(old(Now()), Now(), old(use), Pte(d, i, j)) && PagesKept(old(Now()), Now(), old(use))
    {
      ghost var v := Now();
      assert v.Entry(Pte(d, i, j)) == mem[t][j];
      PageTaken(v, use, d, i, j);
      hide Linked, PtesBut, PagesKept;
      ghost var f := FrameOf(mem[t][j]);
      mem := mem[t := WithEntry(mem[t], j, 0)];
      ChainKept(v.mem, mem, freelist, free);
      use := use[f := Held];
    }

    // ----- Shrinking -----

    /** One turn of deallocuvm's loop at page n: the page freed if it is there; the next page to look at. */
    method DeallocTurn(d: nat, n: nat) returns (next: nat)
      requires Valid() && IsDir(use, d) && n < NUSER * NPT
      modifies this`mem, this`freelist, this`free, this`use
      ensures Valid() && IsDir(use, d) && mem[d] == old(mem[d]) && n < next <= NUSER * NPT
      ensures use == Cut(old(use), d, n, next) && Gone(old(Now()), Now(), old(use), d, n, next) && PagesKept(old(Now()), Now(), use)
      ensures next > n + 1 ==> Now() == old(Now()) && use == old(use)
    {
      hide Linked, Chain, PtesBut, PtesKept, PagesKept, Gone;
      ghost var v, use0 := Now(), use;
      var i, j := n / NPT, n % NPT;
      var t := Walk(d, i, false);
      if t == 0 {
        next := (i + 1) * NPT;
        SkippedTable(v, use, d, i, n, next);
      } else {
        next := n + 1;
        TableOf(v, use, d, i);
        if Present(mem[t][j]) {
          Unmap(d, i, j, t);
          OnePageGone(v, use0, Now(), d, n, FrameOf(v.mem[t][j]));
        } else {
          NoPageThere(v, use0, d, n);
        }
      }
      KeptSelf(Now(), use);
    }

    /**
     deallocuvm, also in its 4 MB strides, frees the pages of d from newsz up to oldsz, all of
     them and no others, each once; the tables stay.
     */
    method DeallocUvm(d: nat, oldsz: nat, newsz: nat) returns (r: nat)
      requires Valid() && IsDir(use, d) && oldsz <= KERNBASE
      modifies this`mem, this`freelist, this`free, this`use
      ensures Valid() && IsDir(use, d) && mem[d] == old(mem[d]) && r == if newsz >= oldsz then oldsz else newsz
      ensures var a, b := PageUp(newsz), PageUp(oldsz);
        && use == Cut(old(use), d, a, b) && Gone(old(Now()), Now(), old(use), d, a, b) && PagesKept(old(Now()), Now(), use)
    {
      hide Linked, Chain, PtesKept, PagesKept, Gone, Cut;
      ghost var v0, use0 := Now(), use;
      ghost var a, b := PageUp(newsz), PageUp(oldsz);
      CutNone(v0, use0, d, a, b);
      KeptSelf(v0, use0);
      if newsz >= oldsz {
        return oldsz;
      }
      var n := PageUp(newsz);
      while n * 4096 < oldsz
        invariant a <= n <= NUSER * NPT && Valid() && IsDir(use, d) && mem[d] == old(mem[d])
        invariant var m := if n < b then n else b;
          use == Cut(use0, d, a, m) && Gone(v0, Now(), use0, d, a, m) && PagesKept(v0, Now(), use)
        decreases NUSER * NPT - n
      {
        ghost var v, use1 := Now(), use;
        var next := DeallocTurn(d, n);
        ghost var m := if next < b then next else b;
        if next > b {
          CutLess(v, use, d, n, m, next);
        }
        CutOn(v0, v, Now(), use0, use1, d, a, n, m);
        n := next;
      }
      r := newsz;
    }

    // ----- Growing -----

    /** A page with the given contents, and an attempt to map it at page n. f is 0 when there was none to be had. */
    method PageAt(d: nat, n: nat, page: Page, perm: nat) returns (f: nat, r: MapResult)
      requires Valid() && IsDir(use, d) && n < NUSER * NPT && perm < 4096
      modifies this`mem, this`freelist, this`free, this`use
      ensures r.Remap? <==> |old(free)| > 0 && !Vacant(old(Now()), d, n, n + 1)
      ensures Valid() && IsDir(use, d) && (f == 0 ==> r.NoMemory? && use == old(use) && mem == old(mem))
      ensures f != 0 && r.NoMemory? ==>
        f !in old(use) && use == old(use)[f := Held] && PtesKept(old(Now()), Now(), old(use)) && PagesKept(old(Now()), Now(), old(use))
      ensures r.Mapped? ==> Grown(old(Now()), old(use), Now(), use, d, n, f, page, WithP(perm))
      ensures (r.Mapped? <==> !r.Remap? && |old(free)| >= PageCost(old(mem[d]), n)) && (f == 0 <==> |old(free)| == 0)
      ensures r.Mapped? ==> |free| + PageCost(old(mem[d]), n) == |old(free)| && Present(mem[d][n / NPT])
      ensures DirBut(old(mem[d]), mem[d], n / NPT)
    {
      hide Linked, Chain, PtesBut, PtesKept, PagesKept, MoreTables, WithP;
      ghost var v0, use0 := Now(), use;
      f := KAlloc();
      if f == 0 {
        return f, NoMemory;
      }
      Fill(f, page);
      ghost var v1, use1 := Now(), use;
      VacantAt(v0, v1, use0, use1, f, d, n);
      r := MapPage(d, n / NPT, n % NPT, f, perm);
      if r.Mapped? {
        GrownBy(v0, use0, v1, use1, Now(), use, d, n, f, page, WithP(perm));
      } else if r.NoMemory? {
        FailedBy(v0, use0, v1, use1, Now(), f);
      }
    }

    /** The clean-up after a failure: what was mapped goes, and the page in hand if there is one. */
    method RollBack(d: nat, oldsz: nat, newsz: nat, f: nat, ghost v0: Phys, ghost use0: map<nat, Use>, ghost n: nat)
      requires Valid() && IsDir(use, d) && oldsz <= newsz < KERNBASE && PageUp(oldsz) <= n <= PageUp(newsz)
      requires v0.Shape() && IsDir(use0, d) && Linked(v0, use0)
      requires f != 0 ==> f in use && use[f] == Held && f !in use0
      requires Filled(v0, use0, Now(), if f == 0 then use else use - {f}, d, PageUp(oldsz), n) && PagesKept(v0, Now(), use0)
      modifies this`mem, this`freelist, this`free, this`use
      ensures Valid()
      ensures Vacant(v0, d, PageUp(oldsz), PageUp(newsz)) ==>
        SameMap(v0, Now(), use0) && MoreTables(use0, use, d) && PagesKept(v0, Now(), use0)
    {
      hide Linked, Chain, PtesKept, PagesKept, Filled, Gone, Vacant, SameMap, MoreTables;
      ghost var v, use1 := Now(), use;
      var r := DeallocUvm(d, newsz, oldsz);
      ghost var v1, use2 := Now(), use;
      ghost var vacant := Vacant(v0, d, PageUp(oldsz), PageUp(newsz));
      if vacant {
        RolledBack(v0, use0, v, use1, v1, d, PageUp(oldsz), n, PageUp(newsz), f);
      }
      if f != 0 {
        HeldStays(use1, d, PageUp(oldsz), PageUp(newsz), f);
        if vacant { TablesMore(use0, use2 - {f}, d); }
        var ok := KFree(f);
        if vacant { KFreed(v0, use0, v1, use2, Now(), f); }
      }
    }

    /**
     allocuvm. Where the pages from oldsz to newsz are not there yet, as a process's size says, it
     succeeds exactly when there is a free frame for every page and every missing table, and then
     exactly those pages are new pages of zeros; when memory runs out the user mapping is what it was,
     and only page tables have been taken. It panics exactly when it comes to a page that is there.
     */
    method AllocUvm(d: nat, oldsz: nat, newsz: nat) returns (r: AllocResult)
      requires Valid() && IsDir(use, d)
      modifies this`mem, this`freelist, this`free, this`use
      ensures !r.Remapped? ==> Valid()
      ensures newsz >= KERNBASE ==> r == NoRoom && use == old(use) && mem == old(mem)
      ensures newsz < KERNBASE && newsz < oldsz ==> r == Size(oldsz) && use == old(use) && mem == old(mem)
      ensures oldsz <= newsz < KERNBASE ==>
        var a, b := PageUp(oldsz), PageUp(newsz);
        && (r.Size? <==> Vacant(old(Now()), d, a, b) && |old(free)| >= Needs(old(mem[d]), a, b))
        && (r.Remapped? <==> exists n: nat :: Collides(old(Now()), d, a, b, n) && |old(free)| > Needs(old(mem[d]), a, n))
        && (r.Size? ==> r.sz == newsz && Filled(old(Now()), old(use), Now(), use, d, a, b) && PagesKept(old(Now()), Now(), old(use)))
        && (r.NoRoom? && Vacant(old(Now()), d, a, b) ==>
              SameMap(old(Now()), Now(), old(use)) && MoreTables(old(use), use, d) && PagesKept(old(Now()), Now(), old(use)))
    {
      hide Linked, Chain, PtesKept, PagesKept, Filled, SameMap, MoreTables, Grown, Vacant, TablesFor, DirBut, Needs, PageCost, Present, Collides;
      ghost var v0, use0 := Now(), use;
      KeptSelf(v0, use0);
      if newsz >= KERNBASE {
        return NoRoom;
      }
      if newsz < oldsz {
        return Size(oldsz);
      }
      ghost var a, b, dir := PageUp(oldsz), PageUp(newsz), mem[d];
      VacantNone(v0, d, a);
      var n := PageUp(oldsz);
      FilledNone(v0, use0, d, a);
      NothingYet(dir, a);
      while n * 4096 < newsz
        invariant a <= n <= PageUp(newsz) && Valid() && IsDir(use, d)
        invariant Filled(v0, use0, Now(), use, d, a, n) && PagesKept(v0, Now(), use0) && Vacant(v0, d, a, n)
        invariant TablesFor(dir, mem[d], a, n) && |free| + Needs(dir, a, n) == |old(free)|
        decreases newsz - n * 4096
      {
        ghost var v, use1 := Now(), use;
        SameAt(v0, use0, v, use1, d, a, n);
        CostNext(dir, mem[d], a, n);
        NeedsMore(dir, a, n + 1, PageUp(newsz));
        ghost var q := mem[d];
        var f, m := PageAt(d, n, ZeroPage(), PTE_W + PTE_U);
        if m.Remap? {
          CollidesAt(v0, d, a, b, n);
          return Remapped;
        }
        if m.NoMemory? {
          AtNoTable(v, use1, d, n);
          NoCollision(v0, d, a, b, n, dir, |old(free)|);
          FailedKept(v0, use0, v, use1, Now(), use, d, a, n, f);
          RollBack(d, oldsz, newsz, f, v0, use0, n);
          return NoRoom;
        }
        VacantNext(v0, d, a, n);
        FilledOn(v0, use0, v, use1, Now(), use, d, a, n, f);
        TablesNext(dir, q, mem[d], a, n);
        n := n + 1;
      }
      NoCollision(v0, d, a, b, b, dir, |old(free)|);
      r := Size(newsz);
    }

    // ----- Tearing down -----

    /** freevm: every frame of the directory, its tables and its pages becomes free, each once, and nothing else changes. */
    method FreeVm(d: nat)
      requires Valid() && IsDir(use, d)
      modifies this`mem, this`freelist, this`free, this`use
      ensures Valid() && use == Without(old(use), d)
      ensures PtesKept(old(Now()), Now(), use) && PagesKept(old(Now()), Now(), use)
    {
      hide Linked, Chain, PtesKept, PagesKept, Gone, Cut, Abandoned, Tables, Without;
      ghost var v0, use0 := Now(), use;
      var r := DeallocUvm(d, KERNBASE, 0);
      ghost var v1, use1 := Now(), use;
      DirDropped(v1, use1, d);
      AbandonedSame(use1, d);
      use := Abandoned(use1, d);
      FreeTables(d, use1);
      ghost var v, useB := Now(), use;
      var ok := KFree(d);
      KeptOn(v1, v, Now(), useB, use);
      AllFreed(v0, use0, v1, use1, d);
      GoneOthers(v0, v1, Now(), use0, use1, d);
    }

    /** freevm's loop: the tables of a directory that is already given up. */
    method FreeTables(d: nat, ghost use1: map<nat, Use>)
      requires Valid() && d < hi && IsDir(use1, d) && Linked(Now(), use1) && use == Abandoned(use1, d) && d in use && use[d] == Held
      modifies this`mem, this`freelist, this`free, this`use
      ensures Valid() && use == old(use) - Tables(old(mem[d]), NPT) && d in use && use[d] == Held
      ensures PtesKept(old(Now()), Now(), use) && PagesKept(old(Now()), Now(), use)
    {
      hide Linked, Chain, PtesKept, PagesKept, Abandoned, Tables, Present, FrameOf;
      ghost var v1, useA: map<nat, Use>, dir: Page := Now(), use, mem[d];
      NoTables(dir, useA);
      KeptSelf(v1, useA);
      var i := 0;
      while i < NPT
        invariant i <= NPT && Valid() && use == useA - Tables(dir, i) && d in use && mem[d] == dir
        invariant PtesKept(v1, Now(), use) && PagesKept(v1, Now(), use)
        modifies this`mem, this`freelist, this`free, this`use
      {
        NextTable(v1, use1, d, i);
        if Present(mem[d][i]) {
          ghost var v, useB := Now(), use;
          var ok := KFree(FrameOf(mem[d][i]));
          KeptOn(v1, v, Now(), useB, use);
          HeldKept(v, Now(), use, d);
        }
        i := i + 1;
      }
    }

    // ----- A new address space -----

    /** An empty directory. */
    method NewDir() returns (d: nat)
      requires Valid()
      modifies this`mem, this`freelist, this`free, this`use
      ensures Valid() && (d == 0 ==> use == old(use) && mem == old(mem))
      ensures (d == 0 <==> old(free) == []) && |free| == |old(free)| - if d == 0 then 0 else 1
      ensures d != 0 ==> OnlyBelow(old(use), use, d) && d < hi && mem[d] == ZeroPage() && Vacant(Now(), d, 0, NUSER * NPT)
      ensures PtesKept(old(Now()), Now(), old(use)) && PagesKept(old(Now()), Now(), old(use))
    {
      hide Linked, Chain, PtesKept, PagesKept;
      ghost var v0, use0 := Now(), use;
      KeptSelf(v0, use0);
      d := KAlloc();
      if d != 0 {
        Fill(d, ZeroPage());
        ghost var v1 := Now();
        FailedBy(v0, use0, v1, use, v1, d);
        DirMade(v1, use, d);
        use := use[d := Dir];
      }
    }

    method HangKernelTable(d: nat, i: nat, t: nat)
      requires Valid() && IsDir(use, d) && NUSER <= i < NPT && !Present(mem[d][i]) && t in use && use[t] == Held
      modifies this`mem, this`use
      ensures Valid() && use == old(use)[t := At(Pde(d, i))]
      ensures mem == old(mem)[d := WithEntry(old(mem[d]), i, t * 4096 + 7)]
      ensures PtesKept(old(Now()), Now(), old(use)) && PagesKept(old(Now()), Now(), old(use))
    {
      ghost var v := Now();
      KernelTableHung(v, use, d, i, t);
      hide Linked, PtesKept, PagesKept;
      mem := mem[d := WithEntry(mem[d], i, t * 4096 + 7)];
      ChainKept(v.mem, mem, freelist, free);
      use := use[t := At(Pde(d, i))];
    }

    /** One entry of kmap. False when there is no page for its table. */
    method MapKernel(d: nat, i: nat, content: Page) returns (ok: bool)
      requires Valid() && IsDir(use, d) && NUSER <= i < NPT && !Present(mem[d][i])
      modifies this`mem, this`freelist, this`free, this`use
      ensures Valid() && IsDir(use, d) && (!ok ==> use == old(use) && mem == old(mem))
      ensures (ok <==> old(free) != []) && |free| == |old(free)| - if ok then 1 else 0
      ensures ok ==> MoreTables(old(use), use, d) && forall k :: 0 <= k < NPT && k != i ==> mem[d][k] == old(mem[d][k])
      ensures ok ==> Present(mem[d][i]) && Flags(mem[d][i]) == 7 && FrameOf(mem[d][i]) < hi && mem[FrameOf(mem[d][i])] == content
      ensures PtesKept(old(Now()), Now(), old(use)) && PagesKept(old(Now()), Now(), old(use))
    {
      hide Linked, Chain, PtesKept, PagesKept, Present;
      ghost var v0, use0 := Now(), use;
      KeptSelf(v0, use0);
      var t := KAlloc();
      ok := t != 0;
      if ok {
        Fill(t, content);
        ghost var v1, use1 := Now(), use;
        HangKernelTable(d, i, t);
        EntryParts(t, 7);
        WalkedKept(v0, v1, Now(), use0, use1, t);
      }
    }

    /** setupkvm: a directory with the kernel's half in it and no user pages; 0, with everything given back, if memory runs out. */
    method SetupKvm(kmap: seq<(nat, Page)>) returns (d: nat)
      requires Valid() && KMapOk(kmap)
      modifies this`mem, this`freelist, this`free, this`use
      ensures Valid() && (d == 0 ==> use == old(use))
      ensures d != 0 ==> OnlyBelow(old(use), use, d) && d < hi && Vacant(Now(), d, 0, NUSER * NPT)
      ensures d != 0 <==> |old(free)| >= 1 + |kmap|
      ensures d != 0 ==> |free| + 1 + |kmap| == |old(free)| && forall k :: 0 <= k < NUSER ==> !Present(mem[d][k])
      ensures d != 0 ==> KernelIn(Now(), d, kmap, |kmap|)
      ensures PtesKept(old(Now()), Now(), old(use)) && PagesKept(old(Now()), Now(), old(use))
    {
      hide Linked, Chain, PtesKept, PagesKept, Vacant, OnlyBelow, MoreTables, Without, KernelIn, FrameOf;
      ghost var v0, use0 := Now(), use;
      d := NewDir();
      if d == 0 {
        return;
      }
      var i := 0;
      BelowDir(use0, use, d);
      KernelNone(Now(), d, kmap);
      while i < |kmap|
        invariant i <= |kmap| && Valid() && IsDir(use, d) && d < hi && OnlyBelow(use0, use, d) && Vacant(Now(), d, 0, NUSER * NPT)
        invariant PtesKept(v0, Now(), use0) && PagesKept(v0, Now(), use0)
        invariant forall k :: i <= k < |kmap| ==> !Present(mem[d][kmap[k].0])
        invariant |free| + 1 + i == |old(free)| && forall k :: 0 <= k < NUSER ==> !Present(mem[d][k])
        invariant KernelIn(Now(), d, kmap, i)
        modifies this`mem, this`freelist, this`free, this`use
      {
        ghost var v, use1 := Now(), use;
        var ok := MapKernel(d, kmap[i].0, kmap[i].1);
        BelowKept(v0, v, Now(), use0, use1, d);
        if !ok {
          ghost var v2 := Now();
          GiveBack(v0, use0, use, d);
          FreeVm(d);
          GivenBack(v0, v2, Now(), use0);
          return 0;
        }
        BelowMore(use0, use1, use, v, Now(), d);
        KernelMore(v, use1, Now(), use, d, kmap, i);
        i := i + 1;
      }
    }

    /** The end of a failed copyuvm: the new directory goes; the page in hand, if there is one, stays behind. */
    method GiveUp(c: nat, ghost f: nat, ghost v0: Phys, ghost use0: map<nat, Use>, ghost v: Phys, ghost use1: map<nat, Use>)
      requires Valid() && IsDir(use, c) && v0.Shape() && v.Shape() && Linked(v0, use0) && OnlyBelow(use0, use1, c)
      requires PtesKept(v0, v, use0) && PagesKept(v0, v, use0)
      requires if f == 0 then Now() == v && use == use1
               else f !in use1 && use == use1[f := Held] && PtesKept(v, Now(), use1) && PagesKept(v, Now(), use1)
      modifies this`mem, this`freelist, this`free, this`use
      ensures Valid() && (f != 0 ==> f !in use0) && use == (if f == 0 then use0 else use0[f := Held])
      ensures PtesKept(v0, Now(), use0) && PagesKept(v0, Now(), use0)
    {
      hide Linked, Chain, PtesKept, PagesKept, OnlyBelow, Without;
      ghost var v2 := Now();
      FailedCopy(v0, use0, v, use1, v2, use, c, f);
      FreeVm(c);
      GivenBackBut(v0, v2, Now(), use0, use, f);
    }

    /** copyuvm's look at a page of the parent: is it there, and its entry. */
    method ParentRead(d: nat, n: nat, ghost v0: Phys, ghost use0: map<nat, Use>) returns (there: bool, e: nat)
      requires Valid() && IsDir(use, d) && v0.Shape() && IsDir(use0, d) && d < v0.hi && PtesKept(v0, Now(), use0)
      requires n < NUSER * NPT && Populated(v0, d, n)
      modifies this`mem, this`freelist, this`free, this`use
      ensures Valid() && mem == old(mem) && use == old(use) && |free| == |old(free)|
      ensures there <==> Populated(v0, d, n + 1)
      ensures there ==> v0.Slotted(Pte(d, n / NPT, n % NPT)) && e == v0.Entry(Pte(d, n / NPT, n % NPT))
    {
      hide Linked, Chain, PtesKept, PagesKept, Present, Populated;
      ParentEntry(v0, use0, Now(), use, d, n);
      var t := Walk(d, n / NPT, false);
      there, e := false, 0;
      if t != 0 {
        e := mem[t][n % NPT];
        there := Present(e);
      }
    }

    /**
     copyuvm. A new address space whose pages have the parent's flags and bytes, in frames that
     were free; the parent and everyone else unchanged. It panics exactly when it comes to a page that
     the parent does not have. It fails exactly when it runs out of free frames before that, and then all
     is given back, but for one page when it was a page table that could not be had.
     */
    method CopyUvm(d: nat, sz: nat, kmap: seq<(nat, Page)>) returns (r: CopyResult, ghost leaked: nat)
      requires Valid() && IsDir(use, d) && sz <= KERNBASE && KMapOk(kmap)
      modifies this`mem, this`freelist, this`free, this`use
      ensures Valid() && PtesKept(old(Now()), Now(), old(use)) && PagesKept(old(Now()), Now(), old(use))
      ensures var b, k := PageUp(sz), |kmap|;
        && (r.Child? <==> Populated(old(Now()), d, b) && |old(free)| >= CopyCost(k, b))
        && (r.Missing? <==> exists n: nat :: Misses(old(Now()), d, b, n) && |old(free)| >= CopyCost(k, n))
        && (r.Child? ==> OnlyBelow(old(use), use, r.dir) && r.dir < hi && Copied(old(Now()), old(use), Now(), r.dir, d, b))
        && (r.Child? ==> KernelIn(Now(), r.dir, kmap, k))
        && (r.Short? && !Loses(|old(free)|, k) ==> use == old(use))
        && (r.Short? && Loses(|old(free)|, k) ==> leaked !in old(use) && use == old(use)[leaked := Held])
    {
      hide Linked, Chain, PtesKept, PagesKept, Vacant, OnlyBelow, MoreTables, Without, Grown, Copied, Populated, TablesFor, DirBut, Needs, PageCost, Present, Loses, Misses, CopyCost, PageUp, KernelIn;
      ghost var v0, use0, b := Now(), use, PageUp(sz);
      leaked := 0;
      var c := SetupKvm(kmap);
      PopulatedNone(v0, d);
      if c == 0 {
        NoneLost(|old(free)|, |kmap|);
        NoCopy(|kmap|);
        NoMiss(v0, d, b, 0, |old(free)|, |kmap|);
        return Short, 0;
      }
      var n := 0;
      ghost var dir := mem[c];
      CopiedNone(v0, use0, Now(), c, d);
      NothingYet(dir, 0);
      PagesOf(0, sz);
      while n * 4096 < sz
        invariant n <= PageUp(sz) && Valid() && OnlyBelow(use0, use, c) && c < hi && Copied(v0, use0, Now(), c, d, n)
        invariant TablesFor(dir, mem[c], 0, n) && |free| + 1 + |kmap| + Needs(dir, 0, n) == |old(free)|
        invariant PtesKept(v0, Now(), use0) && PagesKept(v0, Now(), use0) && Populated(v0, d, n)
        invariant KernelIn(Now(), c, kmap, |kmap|)
        decreases sz - n * 4096
        modifies this`mem, this`freelist, this`free, this`use
      {
        ghost var v, use1 := Now(), use;
        BelowDir(use0, use, c);
        PagesOf(n, sz);
        PagesOf(n + 1, sz);
        var there, e := ParentRead(d, n, v0, use0);
        if !there {
          CopyNeeds(dir, n, |kmap|);
          MissesAt(v0, d, b, n);
          return Missing, 0;
        }
        ParentPage(v0, use0, v, c, d, n, n + 1);
        CostNext(dir, mem[c], 0, n);
        CopyNeeds(dir, n + 1, |kmap|);
        ghost var q, left := mem[c], |free|;
        var f, m := PageAt(c, n, mem[FrameOf(e)], Flags(e));
        if !m.Mapped? {
          ShortBy(dir, q, |old(free)|, |kmap|, n, left);
          NoMiss(v0, d, b, n + 1, |old(free)|, |kmap|);
          GiveUp(c, f, v0, use0, v, use1);
          return Short, f;
        }
        CopiedOn(v0, use0, v, use1, Now(), use, c, d, n, f, PageUp(sz));
        KernelGrown(v, use1, Now(), use, c, n, f, v.mem[FrameOf(e)], WithP(Flags(e)), kmap);
        TablesNext(dir, q, mem[c], 0, n);
        n := n + 1;
      }
      CopyNeeds(dir, n, |kmap|);
      PagesOf(n, sz);
      AllThere(v0, d, b);
      r := Child(c);
    }

    /** A copy that has a frame for its one page and none for the page's table: the frame is lost. */
    method CopyLoses(d: nat, sz: nat, kmap: seq<(nat, Page)>) returns (r: CopyResult, ghost leaked: nat)
      requires Valid() && IsDir(use, d) && 0 < sz <= 4096 && Populated(Now(), d, 1) && KMapOk(kmap) && |free| == |kmap| + 2
      modifies this`mem, this`freelist, this`free, this`use
      ensures r == Short && leaked !in old(use) && use == old(use)[leaked := Held]
    {
      hide Linked, Chain, PtesKept, PagesKept, OnlyBelow, Copied, Populated, Misses;
      AllThere(Now(), d, 1);
      r, leaked := CopyUvm(d, sz, kmap);
    }

    /** A user's store to word k of its page n: no entry changes, nor any other user page of any address space. */
    method StoreWord(d: nat, n: nat, k: nat, w: nat) returns (ok: bool)
      requires Valid() && IsDir(use, d) && n < NUSER * NPT && k < NPT
      modifies this`mem
      ensures Valid() && PtesKept(old(Now()), Now(), use)
      ensures ok == Present(old(Now()).Entry(Pte(d, n / NPT, n % NPT)))
      ensures forall s: Slot :: Now().Slotted(s) && s.Pte? && IsDir(use, s.d) && Present(Now().Entry(s)) && s != Pte(d, n / NPT, n % NPT) ==>
        var f := FrameOf(Now().Entry(s)); f < hi && mem[f] == old(mem)[f]
      ensures ok ==> var f := FrameOf(Now().Entry(Pte(d, n / NPT, n % NPT))); f < hi && mem[f] == old(mem)[f][k := w]
    {
      ghost var v := Now();
      Slots(v, use, d, n);
      KeptSelf(v, use);
      var i, j := n / NPT, n % NPT;
      ok := Present(mem[d][i]) && Present(mem[FrameOf(mem[d][i])][j]);
      UserPages(v, use);
      if ok {
        var f := FrameOf(mem[FrameOf(mem[d][i])][j]);
        Unrelated(v, use, f, mem[f][k := w]);
        ChainKept(mem, mem[f := mem[f][k := w]], freelist, free);
        hide Linked;
        mem := mem[f := mem[f][k := w]];
      }
    }
  }

  lemma Slots(v: Phys, use: map<nat, Use>, d: nat, n: nat)
    requires v.Shape() && Linked(v, use) && IsDir(use, d) && n < NUSER * NPT
    ensures var s := Pte(d, n / NPT, n % NPT);
            && v.Slotted(s)
            && if Present(v.mem[d][n / NPT])
               then FrameOf(v.mem[d][n / NPT]) < v.hi && v.Entry(s) == v.mem[FrameOf(v.mem[d][n / NPT])][n % NPT]
               else !Present(v.Entry(s))
  {
    if Present(v.mem[d][n / NPT]) { TableOf(v, use, d, n / NPT); }
  }

  /** User pages are frames of their own. */
  lemma UserPages(v: Phys, use: map<nat, Use>)
    requires v.Shape() && Linked(v, use)
    ensures forall s: Slot :: v.Slotted(s) && s.Pte? && IsDir(use, s.d) && Present(v.Entry(s)) ==>
              var f := FrameOf(v.Entry(s)); f in use && use[f] == At(s) && v.lo <= f < v.hi
  {
  }

  /** Pages 0 to n - 1 of directory d are there. */
  ghost predicate Populated(v: Phys, d: nat, n: nat)
    requires v.Shape()
  {
    forall s: Slot :: v.Slotted(s) && s.Pte? && s.d == d && PageNo(s) < n ==> Present(v.Entry(s))
  }

  /** Page n is the first below b that directory d does not have. */
  ghost predicate Misses(v: Phys, d: nat, b: nat, n: nat)
    requires v.Shape()
  {
    n < b && Populated(v, d, n) && !Populated(v, d, n + 1)
  }

  lemma PopulatedNone(v: Phys, d: nat)
    requires v.Shape()
    ensures Populated(v, d, 0)
  {
  }

  lemma PopulatedNext(v: Phys, d: nat, n: nat)
    requires v.Shape() && d < v.hi && n < NUSER * NPT && Populated(v, d, n)
    ensures Populated(v, d, n + 1) <==> v.Slotted(Pte(d, n / NPT, n % NPT)) && Present(v.Entry(Pte(d, n / NPT, n % NPT)))
  {
    assert PageNo(Pte(d, n / NPT, n % NPT)) == n;
  }

  lemma MissesAt(v: Phys, d: nat, b: nat, n: nat)
    requires v.Shape() && n < b && Populated(v, d, n) && !Populated(v, d, n + 1)
    ensures Misses(v, d, b, n) && !Populated(v, d, b)
  {
  }

  lemma AllThere(v: Phys, d: nat, b: nat)
    requires v.Shape() && Populated(v, d, b)
    ensures forall n: nat :: !Misses(v, d, b, n)
  {
  }

  /** Out of frames at page k - 1, with the pages below k there, no page was missed on the way. */
  lemma NoMiss(v: Phys, d: nat, b: nat, k: nat, nfree: nat, kernel: nat)
    requires v.Shape() && Populated(v, d, k) && nfree < CopyCost(kernel, k) && k <= b
    ensures forall n: nat :: Misses(v, d, b, n) ==> nfree < CopyCost(kernel, n)
    ensures nfree < CopyCost(kernel, b)
  {
    forall n: nat | Misses(v, d, b, n) ensures nfree < CopyCost(kernel, n) {
      assert n >= k;
      CostGrows(k, n);
    }
    CostGrows(k, b);
  }

  lemma CostGrows(k: nat, n: nat)
    requires k <= n
    ensures k + (k + NPT - 1) / NPT <= n + (n + NPT - 1) / NPT
  {
  }

  lemma ParentEntry(v0: Phys, use0: map<nat, Use>, v: Phys, use: map<nat, Use>, d: nat, n: nat)
    requires v0.Shape() && v.Shape() && IsDir(use0, d) && IsDir(use, d) && d < v0.hi && Linked(v, use) && PtesKept(v0, v, use0)
    requires n < NUSER * NPT && Populated(v0, d, n)
    ensures var s, i, j := Pte(d, n / NPT, n % NPT), n / NPT, n % NPT;
            && (Present(v.mem[d][i]) ==> FrameOf(v.mem[d][i]) < v.hi)
            && v0.Slotted(s) && (Present(v.mem[d][i]) ==> v0.Entry(s) == v.mem[FrameOf(v.mem[d][i])][j])
            && (Populated(v0, d, n + 1) <==> Present(v.mem[d][i]) && Present(v.mem[FrameOf(v.mem[d][i])][j]))
  {
    var s := Pte(d, n / NPT, n % NPT);
    assert v0.Slotted(s) && PageNo(s) == n;
    PopulatedNext(v0, d, n);
    Slots(v, use, d, n);
  }

  /** Page s of the child, against the parent's: the same flags and contents in a frame of its own. */
  ghost predicate CopyOf(v0: Phys, use0: map<nat, Use>, v: Phys, e0: nat, e: nat) {
    && Present(e) && Flags(e) == Flags(e0) && FrameOf(e) !in use0 && FrameOf(e) < |v.mem| && FrameOf(e0) < |v0.mem|
    && v.mem[FrameOf(e)] == v0.mem[FrameOf(e0)]
  }

  /** The first n pages of c are copies of those of d, and it has no others. */
  ghost predicate Copied(v0: Phys, use0: map<nat, Use>, v: Phys, c: nat, d: nat, n: nat)
    requires v0.Shape() && v.Shape()
  {
    && d < v0.hi && v.lo == v0.lo && v.hi == v0.hi
    && forall s: Slot :: v.Slotted(s) && s.Pte? && s.d == c ==>
         if PageNo(s) < n then CopyOf(v0, use0, v, v0.Entry(Pte(d, s.i, s.j)), v.Entry(s)) else !Present(v.Entry(s))
  }

  lemma CopiedNone(v0: Phys, use0: map<nat, Use>, v: Phys, c: nat, d: nat)
    requires v0.Shape() && v.Shape() && d < v0.hi && v.lo == v0.lo && v.hi == v0.hi && Vacant(v, c, 0, NUSER * NPT)
    ensures Copied(v0, use0, v, c, d, 0)
  {
    forall s: Slot | v.Slotted(s) && s.Pte? && s.d == c ensures PageNo(s) < NUSER * NPT {
    }
  }

  lemma ParentPage(v0: Phys, use0: map<nat, Use>, v: Phys, c: nat, d: nat, n: nat, b: nat)
    requires v0.Shape() && v.Shape() && Linked(v0, use0) && IsDir(use0, d) && n < b <= NUSER * NPT && Populated(v0, d, b)
    requires PtesKept(v0, v, use0) && PagesKept(v0, v, use0) && Copied(v0, use0, v, c, d, n)
    ensures Vacant(v, c, n, n + 1)
    ensures var s := Pte(d, n / NPT, n % NPT); var e := v0.Entry(s);
            && v0.Slotted(s) && v.Slotted(s) && Present(e) && v.Entry(s) == e && FrameOf(e) < v.hi && v.mem[FrameOf(e)] == v0.mem[FrameOf(e)]
            && Present(v.mem[d][n / NPT]) && FrameOf(v.mem[d][n / NPT]) < v.hi
            && v.mem[FrameOf(v.mem[d][n / NPT])][n % NPT] == e
  {
    var s := Pte(d, n / NPT, n % NPT);
    assert v0.Slotted(s) && PageNo(s) == n;
  }

  lemma CopiedOn(v0: Phys, use0: map<nat, Use>, v: Phys, use: map<nat, Use>, v': Phys, use': map<nat, Use>,
                 c: nat, d: nat, n: nat, f: nat, b: nat)
    requires v0.Shape() && v.Shape() && v'.Shape() && Linked(v, use) && n < b <= NUSER * NPT && d < v0.hi
    requires OnlyBelow(use0, use, c) && PtesKept(v0, v, use0) && PagesKept(v0, v, use0) && Copied(v0, use0, v, c, d, n)
    requires var e := v0.Entry(Pte(d, n / NPT, n % NPT));
             Present(e) && FrameOf(e) < v0.hi && Grown(v, use, v', use', c, n, f, v0.mem[FrameOf(e)], WithP(Flags(e)))
    ensures OnlyBelow(use0, use', c) && PtesKept(v0, v', use0) && PagesKept(v0, v', use0) && Copied(v0, use0, v', c, d, n + 1)
  {
    CopiedRest(v0, use0, v, use, v', use', c, d, n, f);
    CopiedPages(v0, use0, v, use, v', use', c, d, n, f);
  }

  lemma CopiedPages(v0: Phys, use0: map<nat, Use>, v: Phys, use: map<nat, Use>, v': Phys, use': map<nat, Use>, c: nat, d: nat, n: nat, f: nat)
    requires v0.Shape() && v.Shape() && v'.Shape() && Linked(v, use) && n < NUSER * NPT && d < v0.hi
    requires OnlyBelow(use0, use, c) && Copied(v0, use0, v, c, d, n)
    requires var e := v0.Entry(Pte(d, n / NPT, n % NPT));
             Present(e) && FrameOf(e) < v0.hi && Grown(v, use, v', use', c, n, f, v0.mem[FrameOf(e)], WithP(Flags(e)))
    ensures Copied(v0, use0, v', c, d, n + 1)
  {
    var s0 := Pte(c, n / NPT, n % NPT);
    var e := v0.Entry(Pte(d, n / NPT, n % NPT));
    FlagsOdd(e);
    EntryParts(f, Flags(e));
    assert CopyOf(v0, use0, v', e, v'.Entry(s0));
    forall s: Slot | v'.Slotted(s) && s.Pte? && s.d == c
      ensures if PageNo(s) < n + 1 then CopyOf(v0, use0, v', v0.Entry(Pte(d, s.i, s.j)), v'.Entry(s)) else !Present(v'.Entry(s))
    {
      if PageNo(s) == n {
        SlotOfPage(s, c, n);
      } else {
        assert v'.Entry(s) == v.Entry(s);
      }
    }
  }

  lemma FlagsOdd(e: nat)
    requires Present(e)
    ensures Flags(e) % 2 == 1 && Flags(e) < 4096 && WithP(Flags(e)) == Flags(e)
  {
  }

  lemma CopiedRest(v0: Phys, use0: map<nat, Use>, v: Phys, use: map<nat, Use>, v': Phys, use': map<nat, Use>, c: nat, d: nat, n: nat, f: nat)
    requires v0.Shape() && v.Shape() && v'.Shape() && n < NUSER * NPT && d < v0.hi && OnlyBelow(use0, use, c)
    requires PtesKept(v0, v, use0) && PagesKept(v0, v, use0)
    requires var e := v0.Entry(Pte(d, n / NPT, n % NPT));
             FrameOf(e) < v0.hi && Grown(v, use, v', use', c, n, f, v0.mem[FrameOf(e)], WithP(Flags(e)))
    ensures OnlyBelow(use0, use', c) && PtesKept(v0, v', use0) && PagesKept(v0, v', use0)
  {
    assert forall x :: IsDir(use0, x) ==> IsDir(use, x) && x != c;
  }

  lemma FailedCopy(v0: Phys, use0: map<nat, Use>, v: Phys, use: map<nat, Use>, v': Phys, use': map<nat, Use>, c: nat, f: nat)
    requires v0.Shape() && v.Shape() && v'.Shape() && Linked(v0, use0) && OnlyBelow(use0, use, c)
    requires PtesKept(v0, v, use0) && PagesKept(v0, v, use0)
    requires if f == 0 then v' == v && use' == use
             else f !in use && use' == use[f := Held] && PtesKept(v, v', use) && PagesKept(v, v', use)
    ensures PtesKept(v0, v', use0) && PagesKept(v0, v', use0) && (f != 0 ==> f !in use0)
    ensures Without(use', c) == if f == 0 then use0 else use0[f := Held]
  {
    GiveBack(v0, use0, use, c);
    if f != 0 {
      BelowKept(v0, v, v', use0, use, c);
    }
  }

  lemma GivenBackBut(v0: Phys, v: Phys, v': Phys, use0: map<nat, Use>, use: map<nat, Use>, f: nat)
    requires v0.Shape() && v.Shape() && v'.Shape() && use == (if f == 0 then use0 else use0[f := Held]) && (f != 0 ==> f !in use0)
    requires PtesKept(v0, v, use0) && PagesKept(v0, v, use0) && PtesKept(v, v', use) && PagesKept(v, v', use)
    ensures PtesKept(v0, v', use0) && PagesKept(v0, v', use0)
  {
    assert forall x :: IsDir(use0, x) ==> IsDir(use, x);
  }

  lemma KernelTableHung(v: Phys, use: map<nat, Use>, d: nat, i: nat, t: nat)
    requires v.Shape() && Linked(v, use) && IsDir(use, d) && NUSER <= i < NPT && !Present(v.mem[d][i]) && t in use && use[t] == Held
    ensures var v', use' := v.(mem := v.mem[d := WithEntry(v.mem[d], i, t * 4096 + 7)]), use[t := At(Pde(d, i))];
            && v'.Shape() && Linked(v', use') && PtesKept(v, v', use) && PagesKept(v, v', use)
  {
    hide Linked, Present, FrameOf;
    EntryParts(t, 7);
    KernelTableAdded(v, use, d, i, t, t * 4096 + 7);
  }

  lemma BelowDir(use0: map<nat, Use>, use: map<nat, Use>, c: nat)
    requires OnlyBelow(use0, use, c)
    ensures IsDir(use, c) && c !in use0 && forall f | f in use0 :: f in use && use[f] == use0[f]
  {
  }

  lemma BelowKept(v0: Phys, v: Phys, v': Phys, use0: map<nat, Use>, use: map<nat, Use>, c: nat)
    requires v0.Shape() && v.Shape() && v'.Shape() && OnlyBelow(use0, use, c)
    requires PtesKept(v0, v, use0) && PagesKept(v0, v, use0) && PtesKept(v, v', use) && PagesKept(v, v', use)
    ensures PtesKept(v0, v', use0) && PagesKept(v0, v', use0)
  {
    assert forall x :: IsDir(use0, x) ==> IsDir(use, x);
  }

  lemma BelowMore(use0: map<nat, Use>, use: map<nat, Use>, use': map<nat, Use>, v: Phys, v': Phys, c: nat)
    requires v.Shape() && v'.Shape() && OnlyBelow(use0, use, c) && MoreTables(use, use', c)
    requires PtesKept(v, v', use) && Vacant(v, c, 0, NUSER * NPT)
    ensures OnlyBelow(use0, use', c) && Vacant(v', c, 0, NUSER * NPT)
  {
  }

  /** Giving up the new directory gives back exactly what was taken. */
  lemma GiveBack(v0: Phys, use0: map<nat, Use>, use: map<nat, Use>, c: nat)
    requires v0.Shape() && Linked(v0, use0) && OnlyBelow(use0, use, c)
    ensures Without(use, c) == use0
  {
    forall f | f in use0 ensures !(use0[f].At? && use0[f].s.d == c) {
      if use0[f].At? { assert IsDir(use0, Spot(use0, f).d); }
    }
  }

  lemma GivenBack(v0: Phys, v: Phys, v': Phys, use0: map<nat, Use>)
    requires v0.Shape() && v.Shape() && v'.Shape()
    requires PtesKept(v0, v, use0) && PagesKept(v0, v, use0) && PtesKept(v, v', use0) && PagesKept(v, v', use0)
    ensures PtesKept(v0, v', use0) && PagesKept(v0, v', use0)
  {
  }

  lemma AbandonedSame(use: map<nat, Use>, d: nat)
    requires d in use
    ensures Abandoned(use, d).Keys == use.Keys && Abandoned(use, d)[d] == Held
  {
  }

  /** The tables of an abandoned directory are in the kernel's hands. */
  lemma TablesHeld(v: Phys, use: map<nat, Use>, d: nat)
    requires v.Shape() && Linked(v, use) && IsDir(use, d)
    ensures forall k :: 0 <= k < NPT && Present(v.mem[d][k]) ==>
              var t := FrameOf(v.mem[d][k]); t in use && t != d && use[t] == At(Pde(d, k)) && Abandoned(use, d)[t] == Held
  {
    forall k | 0 <= k < NPT && Present(v.mem[d][k])
      ensures var t := FrameOf(v.mem[d][k]); t in use && t != d && use[t] == At(Pde(d, k)) && Abandoned(use, d)[t] == Held
    {
      TableOf(v, use, d, k);
    }
  }

  lemma NoTables(dir: Page, use: map<nat, Use>)
    ensures Tables(dir, 0) == {} && use - Tables(dir, 0) == use
  {
  }

  lemma NextTable(v: Phys, use: map<nat, Use>, d: nat, i: nat)
    requires v.Shape() && Linked(v, use) && IsDir(use, d) && i < NPT
    ensures var dir, useA := v.mem[d], Abandoned(use, d); var t := FrameOf(dir[i]);
            && d !in Tables(dir, i + 1)
            && if Present(dir[i]) then
                 && t in useA && t !in Tables(dir, i) && useA[t] == Held && Tables(dir, i + 1) == Tables(dir, i) + {t}
                 && useA - Tables(dir, i) - {t} == useA - Tables(dir, i + 1)
               else Tables(dir, i + 1) == Tables(dir, i)
  {
    TablesHeld(v, use, d);
  }

  lemma KeptOn(v1: Phys, v: Phys, v': Phys, use: map<nat, Use>, use': map<nat, Use>)
    requires v1.Shape() && v.Shape() && v'.Shape() && (forall f | f in use' :: f in use && use'[f] == use[f])
    requires PtesKept(v1, v, use) && PagesKept(v1, v, use) && PtesKept(v, v', use) && PagesKept(v, v', use')
    ensures PtesKept(v1, v', use') && PagesKept(v1, v', use')
  {
    assert forall x :: IsDir(use', x) ==> IsDir(use, x);
  }

  lemma HeldKept(v: Phys, v': Phys, use: map<nat, Use>, f: nat)
    requires v.Shape() && v'.Shape() && PagesKept(v, v', use) && f in use && f < v.hi && use[f] == Held
    ensures v'.mem[f] == v.mem[f]
  {
  }

  lemma AllFreed(v0: Phys, use0: map<nat, Use>, v: Phys, use: map<nat, Use>, d: nat)
    requires v0.Shape() && v.Shape() && Linked(v, use) && IsDir(use, d) && use == Cut(use0, d, 0, PageUp(KERNBASE))
    ensures Abandoned(use, d) - Tables(v.mem[d], NPT) - {d} == Without(use0, d)
  {
    TablesHeld(v, use, d);
    var u := Abandoned(use, d) - Tables(v.mem[d], NPT) - {d};
    forall s: Slot | v.Slotted(s) && s.Pte? ensures PageNo(s) < PageUp(KERNBASE) {
    }
    forall f | f in use && f != d && use[f].At? && use[f].s.d == d ensures f in Tables(v.mem[d], NPT) {
      UsePresent(v, use, f);
    }
    forall f | f in Without(use0, d) ensures f in u && u[f] == use0[f] {
      assert f in use;
      assert f !in Tables(v.mem[d], NPT);
    }
    forall f | f in u ensures f in Without(use0, d) {
      assert f in use;
    }
  }

  lemma GoneOthers(v0: Phys, v1: Phys, v': Phys, use0: map<nat, Use>, use1: map<nat, Use>, d: nat)
    requires v0.Shape() && v1.Shape() && v'.Shape() && use1 == Cut(use0, d, 0, PageUp(KERNBASE))
    requires Gone(v0, v1, use0, d, 0, PageUp(KERNBASE)) && PagesKept(v0, v1, use1)
    requires PtesKept(v1, v', Without(use0, d)) && PagesKept(v1, v', Without(use0, d))
    ensures PtesKept(v0, v', Without(use0, d)) && PagesKept(v0, v', Without(use0, d))
  {
    assert forall x :: IsDir(Without(use0, d), x) ==> IsDir(use0, x) && x != d;
    assert forall f | f in Without(use0, d) :: f in use1 && use1[f] == use0[f];
  }

  /** Page n of directory d is now the new frame f, and nothing else was taken but perhaps a table. */
  ghost predicate Grown(v: Phys, use: map<nat, Use>, v': Phys, use': map<nat, Use>, d: nat, n: nat, f: nat, page: Page, flags: nat)
    requires v.Shape() && v'.Shape()
  {
    var s := Pte(d, n / NPT, n % NPT);
    && f !in use && f < v'.hi && v'.mem[f] == page && v.Slotted(s) && v'.Slotted(s) && v'.Entry(s) == f * 4096 + flags
    && PtesBut(v, v', use, s) && PagesKept(v, v', use) && MoreTables(use[f := At(s)], use', d)
  }

  lemma KernelGrown(v: Phys, use: map<nat, Use>, v': Phys, use': map<nat, Use>, d: nat, n: nat, f: nat, page: Page, flags: nat,
                    kmap: seq<(nat, Page)>)
    requires v.Shape() && v'.Shape() && Linked(v, use) && Linked(v', use') && IsDir(use, d) && KMapOk(kmap) && KernelIn(v, d, kmap, |kmap|)
    requires Grown(v, use, v', use', d, n, f, page, flags)
    ensures KernelIn(v', d, kmap, |kmap|)
  {
    hide Linked, PtesBut, KernelIn, PagesKept;
    KernelStays(v, use, v', use', d, kmap, |kmap|);
  }

  lemma VacantAt(v: Phys, v1: Phys, use: map<nat, Use>, use1: map<nat, Use>, f: nat, d: nat, n: nat)
    requires v.Shape() && v1.Shape() && IsDir(use, d) && d < v.hi && n < NUSER * NPT && f !in use && use1 == use[f := Held]
    requires PtesKept(v, v1, use1)
    ensures v1.Slotted(Pte(d, n / NPT, n % NPT)) && (Vacant(v, d, n, n + 1) <==> !Present(v1.Entry(Pte(d, n / NPT, n % NPT))))
  {
    var s := Pte(d, n / NPT, n % NPT);
    assert v.Slotted(s) && PageNo(s) == n;
  }

  lemma GrownBy(v: Phys, use: map<nat, Use>, v1: Phys, use1: map<nat, Use>, v': Phys, use': map<nat, Use>, d: nat, n: nat, f: nat,
                page: Page, flags: nat)
    requires v.Shape() && v1.Shape() && v'.Shape() && IsDir(use, d) && d < v.hi && n < NUSER * NPT
    requires f !in use && f < v.hi && use1 == use[f := Held] && v1 == v.(mem := v.mem[f := page])
    requires PtesKept(v, v1, use1) && PtesBut(v1, v', use1, Pte(d, n / NPT, n % NPT)) && PagesKept(v1, v', use1)
    requires v'.Slotted(Pte(d, n / NPT, n % NPT)) && v'.Entry(Pte(d, n / NPT, n % NPT)) == f * 4096 + flags
    requires MoreTables(use1[f := At(Pte(d, n / NPT, n % NPT))], use', d)
    ensures Grown(v, use, v', use', d, n, f, page, flags)
  {
    var s := Pte(d, n / NPT, n % NPT);
    assert use1[f := At(s)] == use[f := At(s)];
    assert forall x :: IsDir(use, x) ==> IsDir(use1, x);
  }

  lemma FailedBy(v: Phys, use: map<nat, Use>, v1: Phys, use1: map<nat, Use>, v': Phys, f: nat)
    requires v.Shape() && v1.Shape() && v'.Shape() && f !in use && f < v.hi && use1 == use[f := Held]
    requires f < v1.hi && v1 == v.(mem := v.mem[f := v1.mem[f]])
    requires PtesKept(v, v1, use1) && PtesKept(v1, v', use1) && PagesKept(v1, v', use1)
    ensures PtesKept(v, v', use) && PagesKept(v, v', use)
  {
    assert forall x :: IsDir(use, x) ==> IsDir(use1, x);
  }

  lemma FilledNone(v: Phys, use: map<nat, Use>, d: nat, a: nat)
    requires v.Shape()
    ensures Filled(v, use, v, use, d, a, a)
  {
  }

  lemma SameAt(v0: Phys, use0: map<nat, Use>, v: Phys, use: map<nat, Use>, d: nat, a: nat, n: nat)
    requires v0.Shape() && v.Shape() && IsDir(use0, d) && Filled(v0, use0, v, use, d, a, n) && a <= n
    ensures Vacant(v, d, n, n + 1) <==> Vacant(v0, d, n, n + 1)
  {
  }

  lemma VacantNone(v: Phys, d: nat, a: nat)
    requires v.Shape()
    ensures Vacant(v, d, a, a)
  {
  }

  lemma VacantNext(v: Phys, d: nat, a: nat, n: nat)
    requires v.Shape() && Vacant(v, d, a, n) && Vacant(v, d, n, n + 1)
    ensures Vacant(v, d, a, n + 1)
  {
  }

  lemma AtNoTable(v: Phys, use: map<nat, Use>, d: nat, n: nat)
    requires v.Shape() && Linked(v, use) && IsDir(use, d) && d < v.hi && n < NUSER * NPT
    ensures PageCost(v.mem[d], n) == 2 ==> Vacant(v, d, n, n + 1)
    ensures 1 <= PageCost(v.mem[d], n) <= 2
  {
    forall s: Slot | v.Slotted(s) && s.Pte? && s.d == d && PageNo(s) == n && !Present(v.mem[d][n / NPT]) ensures !Present(v.Entry(s)) {
      assert s.i == n / NPT;
    }
  }

  lemma CollidesAt(v: Phys, d: nat, a: nat, b: nat, n: nat)
    requires v.Shape() && a <= n < b && Vacant(v, d, a, n) && !Vacant(v, d, n, n + 1)
    ensures Collides(v, d, a, b, n) && !Vacant(v, d, a, b)
  {
    if Vacant(v, d, a, b) { VacantPart(v, d, a, b, n); }
  }

  /** Stopping at page k, with nothing there up to it and no frame for it, there was no page to collide with on the way. */
  lemma NoCollision(v: Phys, d: nat, a: nat, b: nat, k: nat, dir: Page, nfree: nat)
    requires v.Shape() && a <= k <= b <= NUSER * NPT && Vacant(v, d, a, k)
    requires k == b || nfree <= Needs(dir, a, k) || (Vacant(v, d, k, k + 1) && nfree < Needs(dir, a, k + 1))
    ensures forall n: nat :: Collides(v, d, a, b, n) ==> nfree <= Needs(dir, a, n)
  {
    forall n: nat | Collides(v, d, a, b, n) ensures nfree <= Needs(dir, a, n) {
      if n < k {
        VacantPart(v, d, a, k, n);
      } else if n == k {
        NeedsMore(dir, a, k, n);
      } else {
        NeedsMore(dir, a, k, n);
        NeedsMore(dir, a, k + 1, n);
      }
    }
  }

  lemma VacantPart(v: Phys, d: nat, a: nat, k: nat, n: nat)
    requires v.Shape() && Vacant(v, d, a, k) && a <= n < k
    ensures Vacant(v, d, n, n + 1)
  {
  }

  lemma HeldStays(use: map<nat, Use>, d: nat, a: nat, b: nat, f: nat)
    requires f in use && use[f] == Held
    ensures f in Cut(use, d, a, b) && Cut(use, d, a, b)[f] == Held
  {
  }

  lemma FailedKept(v0: Phys, use0: map<nat, Use>, v: Phys, use: map<nat, Use>, v': Phys, use': map<nat, Use>, d: nat, a: nat, n: nat, f: nat)
    requires v0.Shape() && v.Shape() && v'.Shape() && Linked(v, use) && IsDir(use0, d)
    requires Filled(v0, use0, v, use, d, a, n) && PagesKept(v0, v, use0)
    requires if f == 0 then v' == v && use' == use
             else f !in use && use' == use[f := Held] && PtesKept(v, v', use) && PagesKept(v, v', use)
    ensures Filled(v0, use0, v', if f == 0 then use' else use' - {f}, d, a, n) && PagesKept(v0, v', use0) && f !in use0
  {
  }

  lemma FilledOn(v0: Phys, use0: map<nat, Use>, v: Phys, use: map<nat, Use>, v': Phys, use': map<nat, Use>, d: nat, a: nat, n: nat, f: nat)
    requires v0.Shape() && v.Shape() && v'.Shape() && Linked(v, use) && IsDir(use0, d) && a <= n
    requires Filled(v0, use0, v, use, d, a, n) && PagesKept(v0, v, use0) && Grown(v, use, v', use', d, n, f, ZeroPage(), 7)
    ensures Filled(v0, use0, v', use', d, a, n + 1) && PagesKept(v0, v', use0)
  {
    var s0 := Pte(d, n / NPT, n % NPT);
    assert PageNo(s0) == n;
    EntryParts(f, 7);
    forall s: Slot | v0.Slotted(s) && s.Pte? && IsDir(use0, s.d)
      ensures if s.d == d && a <= PageNo(s) < n + 1 then NewPage(v', use0, v'.Entry(s)) else v'.Entry(s) == v0.Entry(s)
    {
      if s.d == d && PageNo(s) == n {
        SlotOfPage(s, d, n);
      } else {
        assert IsDir(use, s.d) && v'.Entry(s) == v.Entry(s);
      }
    }
  }

  lemma RolledBack(v0: Phys, use0: map<nat, Use>, v: Phys, use: map<nat, Use>, v1: Phys, d: nat, a: nat, n: nat, b: nat, f: nat)
    requires v0.Shape() && v.Shape() && v1.Shape() && Linked(v0, use0) && Vacant(v0, d, a, b) && n <= b
    requires f != 0 ==> f in use && use[f] == Held && f !in use0
    requires Filled(v0, use0, v, if f == 0 then use else use - {f}, d, a, n) && PagesKept(v0, v, use0)
    requires Gone(v, v1, use, d, a, b) && PagesKept(v, v1, Cut(use, d, a, b))
    ensures SameMap(v0, v1, use0) && PagesKept(v0, v1, use0)
    ensures var use2 := Cut(use, d, a, b);
            (f != 0 ==> f in use2 && use2[f] == Held) && MoreTables(use0, if f == 0 then use2 else use2 - {f}, d)
  {
    var use2 := Cut(use, d, a, b);
    forall x | x in use0 ensures x in use2 && use2[x] == use0[x] {
      if use0[x].At? { UsePresent(v0, use0, x); }
    }
    assert forall x :: IsDir(use0, x) ==> IsDir(use, x);
  }

  lemma KFreed(v0: Phys, use0: map<nat, Use>, v1: Phys, use2: map<nat, Use>, v': Phys, f: nat)
    requires v0.Shape() && v1.Shape() && v'.Shape() && f !in use0 && f in use2
    requires forall x | x in use0 :: x in use2 && use2[x] == use0[x]
    requires SameMap(v0, v1, use0) && PagesKept(v0, v1, use0)
    requires PtesKept(v1, v', use2) && PagesKept(v1, v', use2 - {f})
    ensures SameMap(v0, v', use0) && PagesKept(v0, v', use0)
  {
    assert forall x :: IsDir(use0, x) ==> IsDir(use2, x);
  }

  lemma TablesMore(use: map<nat, Use>, use': map<nat, Use>, d: nat)
    requires MoreTables(use, use', d)
    ensures forall x | x in use :: x in use' && use'[x] == use[x]
  {
  }

  lemma KeptSelf(v: Phys, use: map<nat, Use>)
    requires v.Shape()
    ensures PtesKept(v, v, use) && PagesKept(v, v, use)
  {
  }

  lemma KeptEntry(v: Phys, v': Phys, use: map<nat, Use>, s: Slot)
    requires v.Shape() && v'.Shape() && PtesKept(v, v', use) && v.Slotted(s) && s.Pte? && IsDir(use, s.d)
    ensures v'.Slotted(s) && v'.Entry(s) == v.Entry(s)
  {
  }

  lemma HungPtes(v: Phys, v1: Phys, v': Phys, use: map<nat, Use>, use1: map<nat, Use>, s: Slot)
    requires v.Shape() && v1.Shape() && v'.Shape() && PtesKept(v, v1, use) && PtesBut(v1, v', use1, s)
    requires forall f | f in use :: f in use1 && use1[f] == use[f]
    ensures PtesBut(v, v', use, s)
  {
  }

  lemma HungPages(v: Phys, v1: Phys, v': Phys, use: map<nat, Use>, use1: map<nat, Use>)
    requires v.Shape() && v1.Shape() && v'.Shape() && PagesKept(v, v1, use) && PagesKept(v1, v', use1)
    requires forall f | f in use :: f in use1 && use1[f] == use[f]
    ensures PagesKept(v, v', use)
  {
  }

  lemma UnmappedKept(v: Phys, v1: Phys, v': Phys, use: map<nat, Use>, f: nat, s: Slot)
    requires v.Shape() && v1.Shape() && v'.Shape() && f in use && use[f].At? && v.Slotted(s) && s.Pte? && IsDir(use, s.d)
    requires PtesBut(v, v1, use, s) && PagesKept(v, v1, use) && !Present(v1.Entry(s))
    requires PtesKept(v1, v', use[f := Held]) && PagesKept(v1, v', use - {f})
    ensures PtesBut(v, v', use, s) && PagesKept(v, v', use - {f}) && !Present(v'.Entry(s))
  {
    assert forall t: Slot :: IsDir(use, t.d) ==> IsDir(use[f := Held], t.d);
  }

  lemma WalkedKept(v: Phys, v1: Phys, v': Phys, use: map<nat, Use>, use1: map<nat, Use>, t: nat)
    requires v.Shape() && v1.Shape() && v'.Shape() && t !in use && use1 == use[t := Held] && t < v.hi
    requires t < v1.hi && v1 == v.(mem := v.mem[t := v1.mem[t]]) && PtesKept(v, v1, use1) && PtesKept(v1, v', use1) && PagesKept(v1, v', use1)
    ensures PtesKept(v, v', use) && PagesKept(v, v', use)
  {
    assert forall s: Slot :: IsDir(use, s.d) ==> IsDir(use1, s.d);
  }

  lemma NoTable(v: Phys, d: nat, i: nat, j: nat)
    requires v.Shape() && v.Slotted(Pte(d, i, j)) && !Present(v.mem[d][i])
    ensures !Present(v.Entry(Pte(d, i, j)))
  {
  }

  lemma PresentBefore(v: Phys, d: nat, i: nat, j: nat)
    requires v.Shape() && v.Slotted(Pte(d, i, j)) && Present(v.Entry(Pte(d, i, j)))
    ensures Present(v.mem[d][i])
  {
  }

  lemma ChainElsewhere(mem: seq<Page>, mem': seq<Page>, list: nat, free: seq<nat>, d: nat)
    requires Chain(mem, list, free) && |mem'| == |mem| && d < |mem| && mem' == mem[d := mem'[d]] && d !in free
    ensures Chain(mem', list, free)
  {
    ChainKept(mem, mem', list, free);
  }

  lemma TableHung(v: Phys, use: map<nat, Use>, d: nat, i: nat, t: nat)
    requires v.Shape() && Linked(v, use) && IsDir(use, d) && i < NUSER && !Present(v.mem[d][i])
    requires t in use && use[t] == Held && v.mem[t] == ZeroPage()
    ensures var v', use' := v.(mem := v.mem[d := WithEntry(v.mem[d], i, t * 4096 + 7)]), use[t := At(Pde(d, i))];
            && v'.Shape() && Linked(v', use') && PtesKept(v, v', use) && PagesKept(v, v', use)
  {
    hide Linked, Present, FrameOf;
    EntryParts(t, 7);
    TableAdded(v, use, d, i, t, t * 4096 + 7);
  }

  lemma EntryParts(f: nat, flags: nat)
    requires flags < 4096
    ensures var e := f * 4096 + flags; FrameOf(e) == f && Flags(e) == flags && (Present(e) <==> flags % 2 == 1)
  {
  }

  lemma PageHung(v: Phys, use: map<nat, Use>, d: nat, i: nat, j: nat, f: nat, flags: nat)
    requires v.Shape() && Linked(v, use) && IsDir(use, d) && i < NUSER && j < NPT && Present(v.mem[d][i])
    requires !Present(v.Entry(Pte(d, i, j))) && f in use && use[f] == Held && flags < 4096 && flags % 2 == 1
    ensures var t := FrameOf(v.mem[d][i]);
            && t < v.hi && t in use && t != f && t != d
            && var v', use' := v.(mem := v.mem[t := WithEntry(v.mem[t], j, f * 4096 + flags)]), use[f := At(Pte(d, i, j))];
               && v'.Shape() && Linked(v', use') && v'.Entry(Pte(d, i, j)) == f * 4096 + flags
               && PtesBut(v, v', use, Pte(d, i, j)) && PagesKept(v, v', use)
  {
    TableOf(v, use, d, i);
    EntrySet(v, use, d, i, j, f * 4096 + flags);
    var t := FrameOf(v.mem[d][i]);
    LinkedGrows(v, v.(mem := v.mem[t := WithEntry(v.mem[t], j, f * 4096 + flags)]), use, Pte(d, i, j), f);
  }

  lemma PageTaken(v: Phys, use: map<nat, Use>, d: nat, i: nat, j: nat)
    requires v.Shape() && Linked(v, use) && IsDir(use, d) && i < NUSER && j < NPT && Present(v.mem[d][i])
    requires Present(v.Entry(Pte(d, i, j)))
    ensures var t, f := FrameOf(v.mem[d][i]), FrameOf(v.Entry(Pte(d, i, j)));
            && t < v.hi && t in use && t != f && f != d && t != d && f in use && use[f] == At(Pte(d, i, j)) && v.lo <= f < v.hi
            && v.Entry(Pte(d, i, j)) == v.mem[t][j]
            && var v', use' := v.(mem := v.mem[t := WithEntry(v.mem[t], j, 0)]), use[f := Held];
               && v'.Shape() && Linked(v', use') && !Present(v'.Entry(Pte(d, i, j)))
               && PtesBut(v, v', use, Pte(d, i, j)) && PagesKept(v, v', use)
  {
    TableOf(v, use, d, i);
    EntrySet(v, use, d, i, j, 0);
    var t := FrameOf(v.mem[d][i]);
    LinkedShrinks(v, v.(mem := v.mem[t := WithEntry(v.mem[t], j, 0)]), use, Pte(d, i, j));
  }

  lemma LinkedMore(v: Phys, use: map<nat, Use>, f: nat)
    requires v.Shape() && Linked(v, use) && v.lo <= f < v.hi && f !in use
    ensures Linked(v, use[f := Held])
  {
    var use' := use[f := Held];
    forall x {:trigger Spot(use', x)} | x in use' && use'[x].At?
      ensures var t := Spot(use', x); v.Slotted(t) && IsDir(use', t.d) && Present(v.Entry(t)) && FrameOf(v.Entry(t)) == x
    {
      assert Spot(use', x) == Spot(use, x);
    }
  }

  lemma LinkedLess(v: Phys, use: map<nat, Use>, f: nat)
    requires v.Shape() && Linked(v, use) && f in use && use[f] == Held
    ensures Linked(v, use - {f})
  {
    var use' := use - {f};
    forall x {:trigger Spot(use', x)} | x in use' && use'[x].At?
      ensures var t := Spot(use', x); v.Slotted(t) && IsDir(use', t.d) && Present(v.Entry(t)) && FrameOf(v.Entry(t)) == x
    {
      assert Spot(use', x) == Spot(use, x);
    }
  }

  // ----- Ranges of pages -----

  lemma SlotOfPage(s: Slot, d: nat, n: nat)
    requires s.Pte? && s.d == d && s.j < NPT && PageNo(s) == n
    ensures s == Pte(d, n / NPT, n % NPT)
  {
  }

  /** No table: all its pages are absent. */
  lemma SkippedTable(v: Phys, use: map<nat, Use>, d: nat, i: nat, n: nat, next: nat)
    requires v.Shape() && Linked(v, use) && IsDir(use, d) && i < NUSER && !Present(v.mem[d][i]) && d < v.hi
    requires i == n / NPT && next == (i + 1) * NPT
    ensures Cut(use, d, n, next) == use && Gone(v, v, use, d, n, next)
  {
    forall s: Slot | v.Slotted(s) && s.Pte? && s.d == d && n <= PageNo(s) < next ensures !Present(v.Entry(s)) {
      assert s.i == i;
    }
    forall f | f in use && use[f].At? ensures !InRange(use[f], d, n, next) {
      UsePresent(v, use, f);
    }
  }

  lemma NoPageThere(v: Phys, use: map<nat, Use>, d: nat, n: nat)
    requires v.Shape() && Linked(v, use) && IsDir(use, d) && d < v.hi && n < NUSER * NPT && Present(v.mem[d][n / NPT])
    requires var t := FrameOf(v.mem[d][n / NPT]); t < v.hi && !Present(v.mem[t][n % NPT])
    ensures Cut(use, d, n, n + 1) == use && Gone(v, v, use, d, n, n + 1)
  {
    forall s: Slot | v.Slotted(s) && s.Pte? && s.d == d && n <= PageNo(s) < n + 1 ensures !Present(v.Entry(s)) {
      SlotOfPage(s, d, n);
    }
    forall f | f in use && use[f].At? ensures !InRange(use[f], d, n, n + 1) {
      UsePresent(v, use, f);
    }
  }

  lemma OnePageGone(v: Phys, use: map<nat, Use>, v': Phys, d: nat, n: nat, f: nat)
    requires v.Shape() && v'.Shape() && Linked(v, use) && IsDir(use, d) && d < v.hi && n < NUSER * NPT
    requires f in use && use[f] == At(Pte(d, n / NPT, n % NPT)) && PtesBut(v, v', use, Pte(d, n / NPT, n % NPT))
    requires !Present(v'.Entry(Pte(d, n / NPT, n % NPT)))
    ensures Cut(use, d, n, n + 1) == use - {f} && Gone(v, v', use, d, n, n + 1)
  {
    var s0 := Pte(d, n / NPT, n % NPT);
    assert PageNo(s0) == n;
    forall s: Slot | v.Slotted(s) && s.Pte? && s.d == d && n <= PageNo(s) < n + 1 ensures s == s0 {
      SlotOfPage(s, d, n);
    }
    assert FrameOf(v.Entry(s0)) == f by { assert Spot(use, f) == s0; }
    forall x | x in use && InRange(use[x], d, n, n + 1) ensures x == f {
      assert v.Slotted(Spot(use, x)) && FrameOf(v.Entry(Spot(use, x))) == x;
      SlotOfPage(use[x].s, d, n);
    }
  }

  lemma CutNone(v: Phys, use: map<nat, Use>, d: nat, a: nat, b: nat)
    requires v.Shape()
    ensures Cut(use, d, a, a) == use && Gone(v, v, use, d, a, a)
    ensures b <= a ==> Cut(use, d, a, b) == use && Gone(v, v, use, d, a, b)
  {
  }

  lemma CutLess(v: Phys, use: map<nat, Use>, d: nat, n: nat, m: nat, next: nat)
    requires v.Shape() && m <= next && Cut(use, d, n, next) == use && Gone(v, v, use, d, n, next)
    ensures Cut(use, d, n, m) == use && Gone(v, v, use, d, n, m)
  {
    forall f | f in use ensures !InRange(use[f], d, n, m) {
      assert f in Cut(use, d, n, next);
    }
  }

  lemma CutOn(v0: Phys, v: Phys, v': Phys, use0: map<nat, Use>, use: map<nat, Use>, d: nat, a: nat, n: nat, next: nat)
    requires v0.Shape() && v.Shape() && v'.Shape() && a <= n <= next
    requires use == Cut(use0, d, a, n) && Gone(v0, v, use0, d, a, n) && PagesKept(v0, v, use)
    requires Gone(v, v', use, d, n, next) && PagesKept(v, v', Cut(use, d, n, next))
    ensures Cut(use, d, n, next) == Cut(use0, d, a, next) && Gone(v0, v', use0, d, a, next)
    ensures PagesKept(v0, v', Cut(use, d, n, next))
  {
    assert forall f :: IsDir(use0, f) ==> IsDir(use, f);
  }
}

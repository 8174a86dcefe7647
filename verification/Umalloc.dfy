/**
 umalloc.c: the allocator of section 8.7 of The C Programming Language. Addresses count
 units of sizeof(Header); memory is a sequence of units that sbrk extends.
 */
module Umalloc {
  import opened FreeList
  import opened Options

  const U32 := 0x1_0000_0000
  const HEADER := 8                  // sizeof(Header)
  const CORE := 4096                 // the least that morecore asks for

  /** nbytes rounded up to units, in 32-bit arithmetic, and one for the header. */
  function NUnits(nbytes: nat): (n: nat)
    ensures n >= 1
  {
    (nbytes + HEADER - 1) % U32 / HEADER + 1
  }

  /** A block of NUnits has room for nbytes exactly when the rounding does not wrap. */
  lemma EnoughExactly(nbytes: nat)
    requires nbytes < U32
    ensures (NUnits(nbytes) - 1) * HEADER >= nbytes <==> nbytes + HEADER - 1 < U32
  {
  }

  function Asked(nunits: nat): nat { if nunits < CORE then CORE else nunits }

  /** nu * sizeof(Header) as sbrk gets it: wrapped, and then an int. */
  function SbrkArg(nu: nat): int {
    var arg := nu * HEADER % U32;
    if arg < U32 / 2 then arg else arg - U32
  }

  /** The units that a successful sbrk moves the break up by. */
  function Moved(nu: nat): nat { if SbrkArg(nu) < 0 then 0 else SbrkArg(nu) / HEADER }

  /** sbrk is asked for the size of nu units exactly below 2^28 units; from there on it is asked for less. */
  lemma SbrkExactly(nu: nat)
    requires nu < U32
    ensures SbrkArg(nu) == nu * HEADER <==> nu < 0x1000_0000
    ensures nu >= 0x1000_0000 ==> Moved(nu) < nu
    ensures nu < 0x1000_0000 ==> Moved(nu) == nu
  {
  }

  /** A request for which malloc, if it needs memory, asks sbrk for too little. */
  predicate TooLarge(nbytes: nat) { 0x7fff_fff1 <= nbytes <= 0xffff_fff8 }

  lemma TooLargeExactly(nbytes: nat)
    requires nbytes < U32
    ensures NUnits(nbytes) < U32 && (TooLarge(nbytes) <==> Asked(NUnits(nbytes)) >= 0x1000_0000)
  {
  }

  /** One such request: sbrk(0) succeeds, and a header is written for 2^29 units of which there is none. */
  lemma TooLargeCase()
    ensures TooLarge(0xffff_fff8) && Asked(NUnits(0xffff_fff8)) == 0x2000_0000
    ensures SbrkArg(0x2000_0000) == 0 && Moved(0x2000_0000) == 0
  {
  }

  /**
   Another: half the address space. The argument is negative, but for a process of any size below 2 GB the new size
   wraps round to more than the old one; the shrinking branch then leaves the size alone, and sbrk succeeds.
   */
  lemma NegativeCase()
    ensures TooLarge(0x8000_0000) && SbrkArg(Asked(NUnits(0x8000_0000))) == -0x7fff_fff8
    ensures forall sz: nat {:trigger (sz - 0x7fff_fff8) % U32} :: sz < 0x7fff_fff8 ==> (sz - 0x7fff_fff8) % U32 > sz
  {
  }

  /** One byte more than the largest that rounds: the block has a header and no room. */
  lemma NoRoomCase()
    ensures NUnits(0xffff_fff9) == 1 && (NUnits(0xffff_fff9) - 1) * HEADER < 0xffff_fff9
  {
  }

  // ----- The invariant -----

  /**
   Free blocks are listed in address order, all coalesced; live blocks have their headers;
   and every unit obtained is in exactly one block.
   */
  ghost predicate Ok(mem: seq<Header>, base: nat, fl: seq<nat>, avail: map<nat, nat>, live: map<nat, nat>, heap: set<nat>) {
    && Chained(mem, fl) && Listed(mem, fl, avail) && fl[0] == base
    && Apart(live) && (forall a | a in live :: base < a < |mem| && mem[a].size == live[a])
    && (forall x :: !(Covered(avail, x) && Covered(live, x)))
    && (forall x :: x in heap <==> Covered(avail, x) || Covered(live, x))
    && (forall x :: x in heap ==> base < x < |mem|)
  }

  lemma Inside(m: map<nat, nat>, a: nat, x: nat)
    requires a in m && Within(a, m[a], x)
    ensures Covered(m, x)
  {
  }

  lemma Unpack(mem: seq<Header>, base: nat, fl: seq<nat>, avail: map<nat, nat>, live: map<nat, nat>, heap: set<nat>)
    requires Ok(mem, base, fl, avail, live, heap)
    ensures Chained(mem, fl) && Listed(mem, fl, avail) && fl[0] == base && Increasing(fl) && Apart(avail) && Apart(live)
    ensures forall a | a in live :: base < a && a + live[a] <= |mem| && mem[a].size == live[a]
  {
    ListedApart(mem, fl, avail);
    forall a | a in live ensures a + live[a] <= |mem| {
      Inside(live, a, a + live[a] - 1);
    }
  }

  lemma BlockAt(mem: seq<Header>, base: nat, fl: seq<nat>, avail: map<nat, nat>, live: map<nat, nat>, heap: set<nat>, i: nat)
    requires Ok(mem, base, fl, avail, live, heap) && 1 <= i < |fl|
    ensures base < fl[i] < |mem| && fl[i] in avail && 1 <= mem[fl[i]].size == avail[fl[i]] && fl[i] + mem[fl[i]].size <= |mem|
    ensures fl[i - 1] < |mem| && fl[i - 1] != fl[i] && mem[fl[i - 1]].ptr == fl[i]
  {
    Inside(avail, fl[i], fl[i] + avail[fl[i]] - 1);
    assert mem[fl[i - 1]].ptr == After(fl, i - 1);
  }

  /** A live block lies between two neighbours of the list, clear of both. */
  lemma Between(mem: seq<Header>, base: nat, fl: seq<nat>, avail: map<nat, nat>, live: map<nat, nat>, heap: set<nat>, t: nat, b: nat)
    requires Ok(mem, base, fl, avail, live, heap) && b in live && t < |fl|
    requires fl[t] < b && (t + 1 < |fl| ==> b <= fl[t + 1])
    ensures live[b] >= 1 && (t >= 1 ==> fl[t] + avail[fl[t]] <= b) && (t + 1 < |fl| ==> b + live[b] <= fl[t + 1])
    ensures b !in fl && b !in avail
  {
    Inside(live, b, b);
    if t >= 1 && fl[t] + avail[fl[t]] > b {
      Inside(avail, fl[t], b);
      assert false;
    }
    if t + 1 < |fl| && b + live[b] > fl[t + 1] {
      Inside(avail, fl[t + 1], fl[t + 1]);
      Inside(live, b, fl[t + 1]);
      assert false;
    }
    NotListed(mem, base, fl, avail, live, heap, b);
  }

  // ----- What free does to the list -----

  lemma CoveredWiden(m: map<nat, nat>, a: nat, n: nat, x: nat)
    requires Apart(m) && a in m && n >= m[a]
    ensures Covered(m[a := n], x) <==> Covered(m, x) || Within(a, n, x)
  {
    assert m[a := n] == (m - {a})[a := n];
    CoveredPut(m - {a}, a, n, x);
    CoveredDrop(m, a, x);
  }

  /** Joining the block above, if b reaches it: the block, the list and the pointer that goes past it. */
  function Above(fl: seq<nat>, avail: map<nat, nat>, t: nat, b: nat, n: nat): (seq<nat>, map<nat, nat>, nat)
    requires t < |fl| && forall i :: 1 <= i < |fl| ==> fl[i] in avail
  {
    if t + 1 < |fl| && b + n == fl[t + 1] then (Remove(fl, t + 1), avail - {fl[t + 1]}, n + avail[fl[t + 1]])
    else (fl, avail, n)
  }

  lemma AboveJoined(mem: seq<Header>, fl: seq<nat>, avail: map<nat, nat>, t: nat, b: nat, n: nat)
    requires Chained(mem, fl) && Listed(mem, fl, avail) && t < |fl| && n >= 1
    requires t + 1 < |fl| ==> b + n <= fl[t + 1]
    ensures var (fl1, avail1, n1) := Above(fl, avail, t, b, n);
            && t < |fl1| && fl1[..t + 1] == fl[..t + 1] && n1 >= n && (t + 1 < |fl1| ==> b + n1 < fl1[t + 1])
            && var mem1 := mem[fl[t] := mem[fl[t]].(ptr := After(fl1, t))];
               Chained(mem1, fl1) && Listed(mem1, fl1, avail1) && Increasing(fl1)
  {
    var (fl1, avail1, n1) := Above(fl, avail, t, b, n);
    if t + 1 < |fl| && b + n == fl[t + 1] {
      Removed(mem, fl, avail, t + 1);
      assert mem[fl[t + 1]].ptr == After(fl, t + 1) == After(fl1, t);
      if t + 1 < |fl1| { assert fl1[t + 1] == fl[t + 2]; }
    } else {
      assert mem[fl[t]].ptr == After(fl, t);
      assert mem[fl[t] := mem[fl[t]].(ptr := After(fl1, t))] == mem;
    }
  }

  lemma AboveCovered(mem: seq<Header>, fl: seq<nat>, avail: map<nat, nat>, t: nat, b: nat, n: nat, x: nat)
    requires Increasing(fl) && Listed(mem, fl, avail) && t < |fl|
    ensures var (fl1, avail1, n1) := Above(fl, avail, t, b, n);
            Covered(avail1, x) || Within(b, n1, x) <==> Covered(avail, x) || Within(b, n, x)
  {
    if t + 1 < |fl| && b + n == fl[t + 1] {
      ListedApart(mem, fl, avail);
      CoveredDrop(avail, fl[t + 1], x);
    }
  }

  /** Joining the block below, if it reaches b, and otherwise going into the list after it. */
  function Below(fl: seq<nat>, avail: map<nat, nat>, t: nat, b: nat, n: nat): (seq<nat>, map<nat, nat>)
    requires t < |fl|
  {
    var p := fl[t];
    if t >= 1 && p in avail && p + avail[p] == b then (fl, avail[p := avail[p] + n])
    else (Insert(fl, t, b), avail[b := n])
  }

  lemma BelowJoined(mem: seq<Header>, fl: seq<nat>, avail: map<nat, nat>, t: nat, b: nat, n: nat)
    requires Chained(mem, fl) && Listed(mem, fl, avail) && t < |fl| && n >= 1 && fl[t] < b < |mem|
    requires (t + 1 < |fl| ==> b + n < fl[t + 1]) && (t >= 1 ==> fl[t] + avail[fl[t]] <= b)
    ensures var p, (fl2, avail2) := fl[t], Below(fl, avail, t, b, n);
            var mem1 := mem[b := Header(After(fl, t), n)];
            var mem2 := mem1[p := if p + mem[p].size == b then Header(After(fl, t), mem[p].size + n) else mem[p].(ptr := b)];
            Chained(mem2, fl2) && Listed(mem2, fl2, avail2) && fl2[0] == fl[0] && p in fl2 && b !in avail
  {
    var p := fl[t];
    NotInList(mem, fl, avail, t, b);
    SizeBelow(mem, fl, avail, t, b);
    hide Chained, Listed;
    if p + mem[p].size == b {
      MergedBelow(mem, fl, avail, t, b, n);
    } else {
      Inserted(mem, fl, avail, t, b, n);
      assert Insert(fl, t, b)[t] == p;
    }
  }

  lemma NotInList(mem: seq<Header>, fl: seq<nat>, avail: map<nat, nat>, t: nat, b: nat)
    requires Increasing(fl) && Listed(mem, fl, avail) && t < |fl| && fl[t] < b && (t + 1 < |fl| ==> b < fl[t + 1])
    ensures b !in fl && b !in avail
  {
    if b in avail { IsListed(mem, fl, avail, b); }
  }

  lemma SizeBelow(mem: seq<Header>, fl: seq<nat>, avail: map<nat, nat>, t: nat, b: nat)
    requires Listed(mem, fl, avail) && t < |fl| && fl[t] < b
    ensures fl[t] < |mem| && if t >= 1 then fl[t] in avail && mem[fl[t]].size == avail[fl[t]] else mem[fl[t]].size == 0
  {
  }

  lemma MergedBelow(mem: seq<Header>, fl: seq<nat>, avail: map<nat, nat>, t: nat, b: nat, n: nat)
    requires Chained(mem, fl) && Listed(mem, fl, avail) && 1 <= t < |fl| && n >= 1 && fl[t] < b < |mem| && b !in fl
    requires (t + 1 < |fl| ==> b + n < fl[t + 1]) && fl[t] + mem[fl[t]].size == b
    ensures var p, h := fl[t], Header(After(fl, t), n);
            var mem2 := mem[b := h][p := Header(After(fl, t), mem[p].size + n)];
            Chained(mem2, fl) && Listed(mem2, fl, avail[p := mem[p].size + n])
  {
    var p, h := fl[t], Header(After(fl, t), n);
    assert mem[p].ptr == After(fl, t);
    ElsewhereKept(mem, fl, avail, b, h);
    Widened(mem[b := h], fl, avail, t, mem[p].size + n);
  }

  lemma BelowCovered(mem: seq<Header>, fl: seq<nat>, avail: map<nat, nat>, t: nat, b: nat, n: nat, x: nat)
    requires Increasing(fl) && Listed(mem, fl, avail) && t < |fl| && b !in avail
    ensures var (fl2, avail2) := Below(fl, avail, t, b, n);
            Covered(avail2, x) <==> Covered(avail, x) || Within(b, n, x)
  {
    var p := fl[t];
    if t >= 1 && p in avail && p + avail[p] == b {
      ListedApart(mem, fl, avail);
      CoveredWiden(avail, p, avail[p] + n, x);
      if Within(p, avail[p], x) { Inside(avail, p, x); }
    } else {
      CoveredPut(avail, b, n, x);
    }
  }

  /** A live block whose units have all become free. */
  lemma Freed(mem: seq<Header>, base: nat, fl: seq<nat>, avail: map<nat, nat>, live: map<nat, nat>, heap: set<nat>, b: nat,
              mem': seq<Header>, fl': seq<nat>, avail': map<nat, nat>)
    requires Ok(mem, base, fl, avail, live, heap) && b in live
    requires Chained(mem', fl') && Listed(mem', fl', avail') && fl'[0] == base && |mem'| == |mem|
    requires forall y :: 0 <= y < |mem| && y !in fl && y != b ==> mem'[y] == mem[y]
    requires forall x :: Covered(avail', x) <==> Covered(avail, x) || Within(b, live[b], x)
    ensures Ok(mem', base, fl', avail', live - {b}, heap)
  {
    forall x ensures Covered(live, x) <==> Covered(live - {b}, x) || Within(b, live[b], x)
      ensures !(Covered(live - {b}, x) && Within(b, live[b], x))
    {
      CoveredDrop(live, b, x);
    }
    forall a | a in live - {b} ensures mem'[a].size == live[a] {
      NotListed(mem, base, fl, avail, live, heap, a);
    }
  }

  lemma NotListed(mem: seq<Header>, base: nat, fl: seq<nat>, avail: map<nat, nat>, live: map<nat, nat>, heap: set<nat>, a: nat)
    requires Ok(mem, base, fl, avail, live, heap) && a in live
    ensures a !in fl && a !in avail
  {
    Inside(live, a, a);
    forall i | 0 <= i < |fl| ensures fl[i] != a {
      if i >= 1 { Inside(avail, fl[i], fl[i]); }
    }
    if a in avail { IsListed(mem, fl, avail, a); }
  }

  ghost predicate Placed(mem: seq<Header>, fl: seq<nat>, avail: map<nat, nat>, t: nat, b: nat) {
    t < |fl| && fl[t] < b < |mem| && forall i :: 1 <= i < |fl| ==> fl[i] in avail
  }

  lemma ListedKeys(mem: seq<Header>, fl: seq<nat>, avail: map<nat, nat>)
    requires Listed(mem, fl, avail)
    ensures forall i :: 1 <= i < |fl| ==> fl[i] in avail
  {
  }

  /** free, once the place in the list is found. */
  ghost function Settled(mem: seq<Header>, fl: seq<nat>, avail: map<nat, nat>, t: nat, b: nat, n: nat): (r: (seq<Header>, seq<nat>, map<nat, nat>))
    requires Placed(mem, fl, avail, t, b)
  {
    var (fl1, avail1, n1) := Above(fl, avail, t, b, n);
    var (fl2, avail2) := Below(fl1, avail1, t, b, n1);
    var p, nx := fl[t], After(fl1, t);
    (mem[b := Header(nx, n1)][p := if p + mem[p].size == b then Header(nx, mem[p].size + n1) else mem[p].(ptr := b)], fl2, avail2)
  }

  lemma FreeDone(mem: seq<Header>, base: nat, fl: seq<nat>, avail: map<nat, nat>, live: map<nat, nat>, heap: set<nat>, t: nat, b: nat)
    requires Ok(mem, base, fl, avail, live, heap) && b in live && t < |fl| && fl[t] < b && (t + 1 < |fl| ==> b <= fl[t + 1])
    ensures Placed(mem, fl, avail, t, b)
    ensures var (mem', fl', avail') := Settled(mem, fl, avail, t, b, live[b]);
            && Ok(mem', base, fl', avail', live - {b}, heap) && fl[t] in fl' && |mem'| == |mem|
            && (forall a | a in live && a != b :: a < |mem| && mem'[a] == mem[a]) && Has(avail', live[b])
  {
    hide Ok, Chained, Listed, Covered, Above, Below, Has;
    Unpack(mem, base, fl, avail, live, heap);
    ListedKeys(mem, fl, avail);
    var n := live[b];
    forall a | a in live && a != b ensures a < |mem| && a !in fl {
      NotListed(mem, base, fl, avail, live, heap, a);
    }
    Between(mem, base, fl, avail, live, heap, t, b);
    AboveJoined(mem, fl, avail, t, b, n);
    var (fl1, avail1, n1) := Above(fl, avail, t, b, n);
    var p, nx := fl[t], After(fl1, t);
    var mem1 := mem[p := mem[p].(ptr := nx)];
    assert fl1[t] == p && fl1[0] == fl[0] by { assert fl1[..t + 1][t] == p && fl1[..t + 1][0] == fl[..t + 1][0]; }
    SettledList(mem, mem1, fl, avail, t, b, n);
    var (mem', fl', avail') := Settled(mem, fl, avail, t, b, n);
    SettledHas(mem, fl, avail, t, b, n);
    forall x ensures Covered(avail', x) <==> Covered(avail, x) || Within(b, n, x) {
      AboveCovered(mem, fl, avail, t, b, n, x);
      BelowCovered(mem1, fl1, avail1, t, b, n1, x);
    }
    Freed(mem, base, fl, avail, live, heap, b, mem', fl', avail');
  }

  lemma SettledList(mem: seq<Header>, mem1: seq<Header>, fl: seq<nat>, avail: map<nat, nat>, t: nat, b: nat, n: nat)
    requires Listed(mem, fl, avail) && t < |fl| && fl[t] < b < |mem|
    requires var (fl1, avail1, n1) := Above(fl, avail, t, b, n);
             && t < |fl1| && fl1[t] == fl[t] && n1 >= 1 && (t + 1 < |fl1| ==> b + n1 < fl1[t + 1])
             && mem1 == mem[fl[t] := mem[fl[t]].(ptr := After(fl1, t))]
             && Chained(mem1, fl1) && Listed(mem1, fl1, avail1)
             && (t >= 1 ==> fl[t] + avail[fl[t]] <= b)
    ensures Placed(mem, fl, avail, t, b)
    ensures var (fl1, avail1, n1) := Above(fl, avail, t, b, n);
            var (mem', fl', avail') := Settled(mem, fl, avail, t, b, n);
            Chained(mem', fl') && Listed(mem', fl', avail') && fl'[0] == fl1[0] && fl[t] in fl' && b !in avail1
  {
    hide Chained, Listed, Above, Below;
    ListedKeys(mem, fl, avail);
    var (fl1, avail1, n1) := Above(fl, avail, t, b, n);
    SizeBelow(mem1, fl1, avail1, t, b);
    SizeBelow(mem, fl, avail, t, b);
    BelowJoined(mem1, fl1, avail1, t, b, n1);
    SameStore(mem, fl[t], b, After(fl1, t), n1);
  }

  lemma SettledHas(mem: seq<Header>, fl: seq<nat>, avail: map<nat, nat>, t: nat, b: nat, n: nat)
    requires Placed(mem, fl, avail, t, b)
    ensures Has(Settled(mem, fl, avail, t, b, n).2, n)
  {
    var (fl1, avail1, n1) := Above(fl, avail, t, b, n);
    var (fl2, avail2) := Below(fl1, avail1, t, b, n1);
    var p: nat := fl1[t];
    assert avail2[if t >= 1 && p in avail1 && p + avail1[p] == b then p else b] >= n;
  }

  lemma SameStore(mem: seq<Header>, p: nat, b: nat, nx: nat, n: nat)
    requires p < |mem| && b < |mem| && p != b
    ensures var mem1 := mem[p := mem[p].(ptr := nx)];
            mem1[b := Header(nx, n)][p := if p + mem1[p].size == b then Header(nx, mem1[p].size + n) else mem1[p].(ptr := b)] ==
            mem[b := Header(nx, n)][p := if p + mem[p].size == b then Header(nx, mem[p].size + n) else mem[p].(ptr := b)]
  {
  }

  /** The headers of the live blocks are as they were. */
  ghost predicate Kept(mem: seq<Header>, mem': seq<Header>, live: map<nat, nat>) {
    forall a | a in live :: a < |mem| && a < |mem'| && mem'[a] == mem[a]
  }

  /** Some free block has n units or more. */
  ghost predicate Has(avail: map<nat, nat>, n: nat) {
    exists a :: a in avail && avail[a] >= n
  }

  // ----- What malloc does to the list -----

  /** More memory does not disturb the list. */
  lemma GrownList(mem: seq<Header>, fl: seq<nat>, avail: map<nat, nat>, mem': seq<Header>)
    requires Chained(mem, fl) && Listed(mem, fl, avail) && |mem| <= |mem'|
    requires forall x :: 0 <= x < |mem| ==> mem'[x] == mem[x]
    ensures Chained(mem', fl) && Listed(mem', fl, avail)
  {
    assert forall i {:trigger After(fl, i)} :: 0 <= i < |fl| ==> mem[fl[i]].ptr == After(fl, i);
  }

  /** sbrk's units, the last nu of them as a live block. */
  lemma Grown(mem: seq<Header>, base: nat, fl: seq<nat>, avail: map<nat, nat>, live: map<nat, nat>, heap: set<nat>,
              mem': seq<Header>, hp: nat, nu: nat)
    requires Ok(mem, base, fl, avail, live, heap) && |mem| <= hp && hp + nu == |mem'| && nu >= 1
    requires (forall x :: 0 <= x < |mem| ==> mem'[x] == mem[x]) && mem'[hp].size == nu
    ensures hp !in live && Ok(mem', base, fl, avail, live[hp := nu], heap + Units(hp, nu))
  {
    hide Chained, Listed, Covered, Units;
    Unpack(mem, base, fl, avail, live, heap);
    GrownList(mem, fl, avail, mem');
    forall x ensures Covered(live[hp := nu], x) <==> Covered(live, x) || Within(hp, nu, x) {
      CoveredPut(live, hp, nu, x);
    }
  }

  /** One more live block, out of units that were free. */
  lemma Allotted(mem: seq<Header>, base: nat, fl: seq<nat>, avail: map<nat, nat>, live: map<nat, nat>, heap: set<nat>,
                 mem': seq<Header>, fl': seq<nat>, avail': map<nat, nat>, q: nat, n: nat)
    requires Ok(mem, base, fl, avail, live, heap) && |mem'| == |mem| && base < q < |mem| && q !in live
    requires Chained(mem', fl') && Listed(mem', fl', avail') && fl'[0] == base && mem'[q].size == n && Apart(live[q := n])
    requires forall y :: 0 <= y < |mem| && y !in fl && y != q ==> mem'[y] == mem[y]
    requires forall x :: Covered(live[q := n], x) <==> Covered(live, x) || Within(q, n, x)
    requires forall x :: Covered(avail', x) <==> Covered(avail, x) && !Within(q, n, x)
    requires forall x :: Within(q, n, x) ==> Covered(avail, x)
    ensures Ok(mem', base, fl', avail', live[q := n], heap)
    ensures forall a | a in live :: a < |mem| && mem'[a] == mem[a]
  {
    forall a | a in live ensures a !in fl {
      NotListed(mem, base, fl, avail, live, heap, a);
    }
    hide Chained, Listed, Covered;
  }

  /** The i-th block is taken whole. */
  lemma TakenWhole(mem: seq<Header>, base: nat, fl: seq<nat>, avail: map<nat, nat>, live: map<nat, nat>, heap: set<nat>, i: nat)
    requires Ok(mem, base, fl, avail, live, heap) && 1 <= i < |fl|
    ensures var p, n := fl[i], mem[fl[i]].size;
            var mem' := mem[fl[i - 1] := mem[fl[i - 1]].(ptr := mem[p].ptr)];
            && p !in live && Ok(mem', base, Remove(fl, i), avail - {p}, live[p := n], heap)
            && forall a | a in live :: a < |mem| && mem'[a] == mem[a]
  {
    var p, n := fl[i], mem[fl[i]].size;
    Removed(mem, fl, avail, i);
    ListedApart(mem, fl, avail);
    LiveClear(mem, base, fl, avail, live, heap, i, p);
    MovedIn(live, p, n);
    MovedOut(avail, p);
    var mem' := mem[fl[i - 1] := mem[fl[i - 1]].(ptr := mem[p].ptr)];
    Allotted(mem, base, fl, avail, live, heap, mem', Remove(fl, i), avail - {p}, p, n);
  }

  lemma PartList(mem: seq<Header>, fl: seq<nat>, avail: map<nat, nat>, i: nat, n: nat)
    requires Chained(mem, fl) && Listed(mem, fl, avail) && 1 <= i < |fl| && 1 <= n < mem[fl[i]].size
    requires fl[i] + mem[fl[i]].size <= |mem|
    ensures var p, rest := fl[i], mem[fl[i]].size - n; var q := p + rest;
            var mem' := mem[p := mem[p].(size := rest)][q := mem[q].(size := n)];
            Chained(mem', fl) && Listed(mem', fl, avail[p := rest])
  {
    var p, rest := fl[i], mem[fl[i]].size - n;
    InnerFree(mem, fl, avail, i, p + rest);
    PartSpace(mem, fl, avail, i);
    Widened(mem, fl, avail, i, rest);
    hide Chained, Listed;
    var mem1 := mem[p := mem[p].(size := rest)];
    ElsewhereKept(mem1, fl, avail[p := rest], p + rest, mem1[p + rest].(size := n));
  }

  lemma PartSpace(mem: seq<Header>, fl: seq<nat>, avail: map<nat, nat>, i: nat)
    requires Listed(mem, fl, avail) && 1 <= i < |fl|
    ensures i + 1 < |fl| ==> fl[i] + mem[fl[i]].size < fl[i + 1]
  {
  }

  /** The last n units of the i-th block are taken. */
  lemma TakenPart(mem: seq<Header>, base: nat, fl: seq<nat>, avail: map<nat, nat>, live: map<nat, nat>, heap: set<nat>, i: nat, n: nat)
    requires Ok(mem, base, fl, avail, live, heap) && 1 <= i < |fl| && 1 <= n < mem[fl[i]].size
    ensures var p, rest := fl[i], mem[fl[i]].size - n; var q := p + rest;
            && q < |mem| && q != p && q !in live && p < |mem|
            && var mem' := mem[p := mem[p].(size := rest)][q := mem[q].(size := n)];
               && Ok(mem', base, fl, avail[p := rest], live[q := n], heap)
               && forall a | a in live :: a < |mem| && mem'[a] == mem[a]
  {
    hide Ok, Chained, Listed, Covered, Apart;
    Unpack(mem, base, fl, avail, live, heap);
    BlockAt(mem, base, fl, avail, live, heap, i);
    var p, rest := fl[i], mem[fl[i]].size - n;
    var q := p + rest;
    LiveClear(mem, base, fl, avail, live, heap, i, q);
    PartList(mem, fl, avail, i, n);
    MovedIn(live, q, n);
    CutOff(avail, p, q, n);
    var mem' := mem[p := mem[p].(size := rest)][q := mem[q].(size := n)];
    Allotted(mem, base, fl, avail, live, heap, mem', fl, avail[p := rest], q, n);
  }

  /** Inside a block of the list there is no other node. */
  lemma InnerFree(mem: seq<Header>, fl: seq<nat>, avail: map<nat, nat>, i: nat, q: nat)
    requires Increasing(fl) && Listed(mem, fl, avail) && 1 <= i < |fl| && fl[i] < q < fl[i] + avail[fl[i]]
    ensures q !in fl
  {
    forall k | 0 <= k < |fl| ensures fl[k] != q {
      if k > i { assert fl[i] + avail[fl[i]] < fl[k]; }
    }
  }

  /** No live block starts at, or overlaps, the free units from q to the end of the i-th block. */
  lemma LiveClear(mem: seq<Header>, base: nat, fl: seq<nat>, avail: map<nat, nat>, live: map<nat, nat>, heap: set<nat>, i: nat, q: nat)
    requires Ok(mem, base, fl, avail, live, heap) && 1 <= i < |fl| && Within(fl[i], avail[fl[i]], q)
    ensures q !in live && base < q < |mem|
    ensures forall a | a in live :: a + live[a] <= q || fl[i] + avail[fl[i]] <= a
  {
    var p: nat := fl[i];
    Inside(avail, p, q);
    if q in live { Inside(live, q, q); assert false; }
    forall a | a in live ensures a + live[a] <= q || p + avail[p] <= a {
      if a + live[a] > q && a < p + avail[p] {
        var x := if a < q then q else a;
        Inside(live, a, x);
        Inside(avail, p, x);
        assert false;
      }
    }
  }

  /** Units q to q + n, clear of the live blocks, become one. */
  lemma MovedIn(live: map<nat, nat>, q: nat, n: nat)
    requires Apart(live) && q !in live && n >= 1
    requires forall a | a in live :: a + live[a] <= q || q + n <= a
    ensures Apart(live[q := n])
    ensures forall x :: Covered(live[q := n], x) <==> Covered(live, x) || Within(q, n, x)
  {
    forall x ensures Covered(live[q := n], x) <==> Covered(live, x) || Within(q, n, x) {
      CoveredPut(live, q, n, x);
    }
  }

  /** A whole block, or the end of one, leaves the free blocks. */
  lemma MovedOut(avail: map<nat, nat>, q: nat)
    requires Apart(avail) && q in avail
    ensures forall x :: Covered(avail - {q}, x) <==> Covered(avail, x) && !Within(q, avail[q], x)
    ensures forall x :: Within(q, avail[q], x) ==> Covered(avail, x)
  {
    forall x ensures Covered(avail - {q}, x) <==> Covered(avail, x) && !Within(q, avail[q], x)
      ensures Within(q, avail[q], x) ==> Covered(avail, x)
    {
      CoveredDrop(avail, q, x);
    }
  }

  lemma CutOff(avail: map<nat, nat>, p: nat, q: nat, n: nat)
    requires Apart(avail) && p in avail && p < q && q + n == p + avail[p]
    ensures forall x :: Covered(avail[p := q - p], x) <==> Covered(avail, x) && !Within(q, n, x)
    ensures forall x :: Within(q, n, x) ==> Covered(avail, x)
  {
    assert avail[p := q - p] == (avail - {p})[p := q - p];
    forall x ensures Covered(avail[p := q - p], x) <==> Covered(avail, x) && !Within(q, n, x)
      ensures Within(q, n, x) ==> Covered(avail, x)
    {
      CoveredDrop(avail, p, x);
      CoveredPut(avail - {p}, p, q - p, x);
    }
  }

  /** sbrk refused; or moved the break by less than the block that morecore makes of it; or by enough. */
  datatype CoreResult = Denied | Short | Grew

  datatype MallocResult = Block(ap: nat) | Null | Wild

  class Heap {
    const base: nat
    var mem: seq<Header>
    var freep: Option<nat>
    ghost var fl: seq<nat>
    ghost var avail: map<nat, nat>
    ghost var live: map<nat, nat>    // what malloc has returned and free has not taken back
    ghost var heap: set<nat>         // every unit obtained from sbrk

    /** Before the first malloc there is nothing. */
    ghost predicate Valid()
      reads this
    {
      && base < |mem|
      && if freep.None? then live == map[] && avail == map[] && heap == {}
         else Ok(mem, base, fl, avail, live, heap) && freep.value in fl
    }

    constructor (base: nat, mem: seq<Header>)
      requires base < |mem|
      ensures Valid() && live == map[] && heap == {} && this.mem == mem
    {
      this.base, this.mem, freep := base, mem, None;
      fl, avail, live, heap := [], map[], map[], {};
    }

    /** free's loop, from wherever freep is, round the list to the neighbours of bp. */
    method FindPlace(bp: nat) returns (p: nat, ghost t: nat)
      requires Valid() && freep.Some? && bp in live
      ensures t < |fl| && p == fl[t] && p < bp && (t + 1 < |fl| ==> bp <= fl[t + 1])
    {
      hide Listed;
      NotListed(mem, base, fl, avail, live, heap, bp);
      ghost var goal := Goal(fl, bp);
      p := freep.value;
      t :| 0 <= t < |fl| && fl[t] == p;
      while !(bp > p && bp < mem[p].ptr)
        invariant t < |fl| && p == fl[t]
        decreases if t <= goal then goal - t else goal + |fl| - t
      {
        assert mem[p].ptr == After(fl, t);
        if p >= mem[p].ptr && (bp > p || bp < mem[p].ptr) {
          break;
        }
        t := if t + 1 < |fl| then t + 1 else 0;
        p := mem[p].ptr;
      }
      assert mem[p].ptr == After(fl, t);
    }

    /** free: the block's units join the free ones, coalesced with both neighbours. */
    method Free(ap: nat)
      requires Valid() && ap >= 1 && ap - 1 in live
      modifies this`mem, this`freep, this`fl, this`avail, this`live
      ensures Valid() && live == old(live) - {ap - 1} && |mem| == |old(mem)|
      ensures forall x | x in live :: x < |mem| && mem[x] == old(mem[x])
      ensures freep.Some? && Has(avail, old(live)[ap - 1])
    {
      hide Ok, Above, Below, Has;
      var bp := ap - 1;
      var p; ghost var t;
      p, t := FindPlace(bp);
      FreeDone(mem, base, fl, avail, live, heap, t, bp);
      ghost var was, r := mem, Settled(mem, fl, avail, t, bp, live[bp]);
      Joining(mem, base, fl, avail, live, heap, t, bp);
      if bp + mem[bp].size == mem[p].ptr {
        var q := mem[p].ptr;
        mem := mem[bp := Header(mem[q].ptr, mem[bp].size + mem[q].size)];
      } else {
        mem := mem[bp := mem[bp].(ptr := mem[p].ptr)];
      }
      if p + mem[p].size == bp {
        mem := mem[p := Header(mem[bp].ptr, mem[p].size + mem[bp].size)];
      } else {
        mem := mem[p := mem[p].(ptr := bp)];
      }
      assert mem == r.0;
      freep := Some(p);
      fl, avail, live := r.1, r.2, live - {bp};
    }

    /** morecore. `got` is sbrk's answer: what the break has moved over, the units asked for last. */
    method MoreCore(nunits: nat, got: Option<seq<Header>>) returns (r: CoreResult)
      requires Valid() && freep.Some? && 1 <= nunits < U32 && (got.Some? ==> |got.value| >= Moved(Asked(nunits)))
      modifies this`mem, this`freep, this`fl, this`avail, this`live, this`heap
      ensures r == if got.None? then Denied else if Asked(nunits) >= 0x1000_0000 then Short else Grew
      ensures !r.Short? ==> Valid() && freep.Some? && live == old(live)
      ensures !r.Grew? ==> mem == old(mem) && heap == old(heap) && live == old(live)
      ensures r.Grew? ==> heap == old(heap) + Core(|mem|, nunits) && |mem| == |old(mem)| + |got.value|
      ensures r.Grew? ==> Has(avail, nunits)
      ensures !r.Short? ==> forall x | x in live :: x < |old(mem)| && x < |mem| && mem[x] == old(mem[x])
    {
      hide Ok, Has, Units, Moved, SbrkArg;
      LiveBound(mem, base, fl, avail, live, heap);
      var nu := Asked(nunits);
      if got.None? {
        return Denied;
      }
      SbrkExactly(nu);
      if Moved(nu) < nu {
        return Short;                  // the header that is written next is for memory that is not there
      }
      ghost var was := mem;
      var hp := |mem| + |got.value| - nu;
      mem := mem + got.value;
      mem := mem[hp := mem[hp].(size := nu)];
      Grown(was, base, fl, avail, live, heap, mem, hp, nu);
      ghost var live0 := live;
      live, heap := live[hp := nu], heap + Units(hp, nu);
      Free(hp + 1);
      assert live == live0;
      HasLess(avail, nu, nunits);
      r := Grew;
    }

    /** malloc's fit: all of the block if it is exact, its end if it is larger. */
    method Take(prevp: nat, p: nat, nunits: nat, ghost i: nat) returns (q: nat)
      requires Valid() && freep.Some? && 1 <= i < |fl| && prevp == fl[i - 1] && p == fl[i] && p < |mem| && 1 <= nunits <= mem[p].size
      modifies this`mem, this`freep, this`fl, this`avail, this`live
      ensures Valid() && freep == Some(prevp) && q !in old(live) && live == old(live)[q := nunits] && |mem| == |old(mem)|
      ensures Kept(old(mem), mem, old(live))
    {
      hide Ok;
      BlockAt(mem, base, fl, avail, live, heap, i);
      if mem[p].size == nunits {
        TakeWhole(prevp, p, i);
        q := p;
      } else {
        q := TakePart(p, nunits, i);
      }
      freep := Some(prevp);
    }

    method TakeWhole(prevp: nat, p: nat, ghost i: nat)
      requires Valid() && freep.Some? && 1 <= i < |fl| && prevp == fl[i - 1] && p == fl[i] && p < |mem|
      modifies this`mem, this`fl, this`avail, this`live
      ensures Ok(mem, base, fl, avail, live, heap) && prevp in fl
      ensures p !in old(live) && live == old(live)[p := old(mem[p].size)] && |mem| == |old(mem)|
      ensures forall x | x in old(live) :: x < |mem| && mem[x] == old(mem[x])
    {
      hide Ok, Remove;
      BlockAt(mem, base, fl, avail, live, heap, i);
      TakenWhole(mem, base, fl, avail, live, heap, i);
      StillThere(fl, i);
      live := live[p := mem[p].size];
      mem := mem[prevp := mem[prevp].(ptr := mem[p].ptr)];
      fl, avail := Remove(fl, i), avail - {p};
    }

    method TakePart(p: nat, nunits: nat, ghost i: nat) returns (q: nat)
      requires Valid() && freep.Some? && 1 <= i < |fl| && p == fl[i] && p < |mem| && 1 <= nunits < mem[p].size
      modifies this`mem, this`avail, this`live
      ensures Ok(mem, base, fl, avail, live, heap)
      ensures q !in old(live) && live == old(live)[q := nunits] && |mem| == |old(mem)|
      ensures forall x | x in old(live) :: x < |mem| && mem[x] == old(mem[x])
    {
      hide Ok;
      BlockAt(mem, base, fl, avail, live, heap, i);
      TakenPart(mem, base, fl, avail, live, heap, i, nunits);
      avail := avail[p := mem[p].size - nunits];
      mem := mem[p := mem[p].(size := mem[p].size - nunits)];
      q := p + mem[p].size;
      mem := mem[q := mem[q].(size := nunits)];
      live := live[q := nunits];
    }

    /** The first malloc makes a list of the base alone. */
    method Begin()
      requires Valid() && freep.None?
      modifies this`mem, this`freep, this`fl, this`avail
      ensures Valid() && freep.Some? && avail == map[] && live == map[]
    {
      mem := mem[base := Header(base, 0)];
      freep, fl, avail := Some(base), [base], map[];
      EmptyOk(mem, base);
    }

    /** morecore, and a new lap that has what it brought ahead of it. */
    method Refill(nunits: nat, got: Option<seq<Header>>) returns (r: CoreResult, ghost f: nat)
      requires Valid() && freep.Some? && 1 <= nunits < U32 && (got.Some? ==> |got.value| >= Moved(Asked(nunits)))
      modifies this`mem, this`freep, this`fl, this`avail, this`live, this`heap
      ensures r == if got.None? then Denied else if Asked(nunits) >= 0x1000_0000 then Short else Grew
      ensures !r.Short? ==> Valid() && freep.Some? && live == old(live) && Kept(old(mem), mem, live)
      ensures heap == if r.Grew? then old(heap) + Core(|mem|, nunits) else old(heap)
      ensures r.Grew? ==> freep.value < |mem| && At(fl, f) == freep.value && Ahead(mem, fl, f, 0, nunits)
      ensures r.Grew? ==> OnLap(mem, fl, f, 0, freep.value, mem[freep.value].ptr)
    {
      hide Ok, Has, Moved, Core, Chained, Listed, Apart, Increasing, Ahead, OnLap, At;
      f := 0;
      r := MoreCore(nunits, got);
      if r.Grew? {
        Unpack(mem, base, fl, avail, live, heap);
        f := LapStart(mem, fl, freep.value);
        LapHas(mem, base, fl, avail, live, heap, f, nunits);
      }
    }

    /** A block that is large enough is not the base, and is taken. */
    method Fit(prevp: nat, p: nat, nunits: nat, ghost i: nat, ghost mem0: seq<Header>) returns (q: nat)
      requires Valid() && freep.Some? && i < |fl| && fl[i] == p && (i >= 1 ==> fl[i - 1] == prevp)
      requires p < |mem| && mem[p].size >= nunits >= 1 && Kept(mem0, mem, live)
      modifies this`mem, this`freep, this`fl, this`avail, this`live
      ensures Valid() && q !in old(live) && live == old(live)[q := nunits] && |mem| == |old(mem)|
      ensures Kept(mem0, mem, old(live)) && Has(old(avail), nunits)
    {
      hide Ok, Has, Kept;
      NotBase(mem, base, fl, avail, live, heap, i, nunits);
      ghost var was := mem;
      q := Take(prevp, p, nunits, i);
      KeptOn(mem0, was, mem, old(live));
    }

    /** malloc's loop, for nunits: once round the list, morecore, and round again to what it brought. */
    method Search(nunits: nat, got: Option<seq<Header>>) returns (r: MallocResult)
      requires Valid() && 1 <= nunits < U32 && (got.Some? ==> |got.value| >= Moved(Asked(nunits)))
      modifies this`mem, this`freep, this`fl, this`avail, this`live, this`heap
      ensures r.Null? <==> !Has(old(avail), nunits) && got.None?
      ensures r.Wild? <==> !Has(old(avail), nunits) && got.Some? && Asked(nunits) >= 0x1000_0000
      ensures !r.Wild? ==> Valid() && Kept(old(mem), mem, old(live))
      ensures r.Block? ==> r.ap >= 1 && r.ap - 1 !in old(live) && live == old(live)[r.ap - 1 := nunits]
      ensures r.Null? ==> live == old(live)
      ensures !r.Wild? ==> heap == if Has(old(avail), nunits) || got.None? then old(heap) else old(heap) + Core(|mem|, nunits)
    {
      hide Moved, Asked, Ok, Has, Kept, Core, Chained, Listed, Apart, Increasing, Ahead, OnLap, At;
      if freep.None? {
        Begin();
      }
      KeptNone(old(mem), mem, base, fl, avail, live, heap);
      Unpack(mem, base, fl, avail, live, heap);
      ghost var f := LapStart(mem, fl, freep.value);
      ghost var had := Has(avail, nunits);
      ghost var j, grown := 0, false;
      if had {
        LapHas(mem, base, fl, avail, live, heap, f, nunits);
      }
      var prevp := freep.value;
      var p := mem[prevp].ptr;
      while true
        invariant Valid() && freep.Some? && OnLap(mem, fl, f, j, prevp, p) && At(fl, f) == freep.value && 0 <= j < |fl|
        invariant live == old(live) && (!grown ==> heap == old(heap))
        invariant grown ==> !had && got.Some? && Asked(nunits) < 0x1000_0000 && heap == old(heap) + Core(|mem|, nunits)
        invariant had || grown ==> Ahead(mem, fl, f, j, nunits)
        invariant !grown ==> avail == old(avail)
        invariant Kept(old(mem), mem, live)
        decreases if grown then 0 else 1, |fl| - j
      {
        Unpack(mem, base, fl, avail, live, heap);
        ghost var i := LapNext(mem, fl, f, j, prevp, p);
        if mem[p].size >= nunits {
          var q := Fit(prevp, p, nunits, i, old(mem));
          return Block(q + 1);
        }
        if had || grown { AheadNext(mem, fl, f, j, nunits, prevp, p); }
        if p == freep.value {
          ghost var was := mem;
          var core;
          core, f := Refill(nunits, got);
          if core.Short? {
            return Wild;
          }
          KeptOn(old(mem), was, mem, live);
          if core.Denied? {
            return Null;
          }
          p := freep.value;
          j, grown := 0, true;
        } else {
          j := j + 1;
        }
        prevp := p;
        p := mem[p].ptr;
      }
    }

    /**
     malloc: a block of NUnits(nbytes) units, apart from all live and free blocks, with the other
     live headers untouched. Where a free block is large enough it asks for nothing more; else it
     fails exactly when sbrk does, and goes wrong, with sbrk asked for too little, exactly for the
     requests that are too large. The block has room for nbytes exactly when rounding does not wrap.
     morecore is called at most once: the lap that follows finds what it brought.
     */
    method Malloc(nbytes: nat, got: Option<seq<Header>>) returns (r: MallocResult)
      requires Valid() && nbytes < U32 && (got.Some? ==> |got.value| >= Moved(Asked(NUnits(nbytes))))
      modifies this`mem, this`freep, this`fl, this`avail, this`live, this`heap
      ensures r.Null? <==> !Has(old(avail), NUnits(nbytes)) && got.None?
      ensures r.Wild? <==> !Has(old(avail), NUnits(nbytes)) && got.Some? && TooLarge(nbytes)
      ensures !r.Wild? ==> Valid() && Kept(old(mem), mem, old(live))
      ensures r.Block? ==> r.ap >= 1 && r.ap - 1 !in old(live) && live == old(live)[r.ap - 1 := NUnits(nbytes)]
      ensures r.Block? ==> ((live[r.ap - 1] - 1) * HEADER >= nbytes <==> nbytes + HEADER - 1 < U32)
      ensures r.Null? ==> live == old(live)
      ensures !r.Wild? ==>
        heap == if Has(old(avail), NUnits(nbytes)) || got.None? then old(heap) else old(heap) + Core(|mem|, NUnits(nbytes))
    {
      EnoughExactly(nbytes);
      TooLargeExactly(nbytes);
      hide Ok, Has, Kept, Core, Moved, TooLarge, Asked, NUnits;
      r := Search(NUnits(nbytes), got);
    }

    /** The program writes in a block that malloc gave it: no bookkeeping is there. */
    method Store(a: nat, x: nat, h: Header)
      requires Valid() && a in live && a < x < a + live[a]
      modifies this`mem
      ensures Valid() && |mem| == |old(mem)| && x < |mem| && mem == old(mem)[x := h]
      ensures forall b | b in live && b != x :: b < |mem| && mem[b] == old(mem[b])
    {
      Unpack(mem, base, fl, avail, live, heap);
      StoreOk(mem, base, fl, avail, live, heap, a, x, h);
      mem := mem[x := h];
    }
  }

  /** The units that morecore has just obtained, of `len` in all. */
  ghost function Core(len: nat, nunits: nat): set<nat> {
    if len < Asked(nunits) then {} else Units(len - Asked(nunits), Asked(nunits))
  }

  lemma StillThere(fl: seq<nat>, i: nat)
    requires 1 <= i < |fl|
    ensures fl[i - 1] in Remove(fl, i)
  {
    assert Remove(fl, i)[i - 1] == fl[i - 1];
  }

  lemma LiveBound(mem: seq<Header>, base: nat, fl: seq<nat>, avail: map<nat, nat>, live: map<nat, nat>, heap: set<nat>)
    requires Ok(mem, base, fl, avail, live, heap)
    ensures forall a | a in live :: a < |mem|
  {
  }

  lemma HasLess(avail: map<nat, nat>, n: nat, m: nat)
    requires Has(avail, n) && m <= n
    ensures Has(avail, m)
  {
  }

  lemma KeptNone(mem: seq<Header>, mem': seq<Header>, base: nat, fl: seq<nat>, avail: map<nat, nat>, live: map<nat, nat>, heap: set<nat>)
    requires Ok(mem', base, fl, avail, live, heap) && (mem' == mem || live == map[])
    ensures Kept(mem, mem', live)
  {
    LiveBound(mem', base, fl, avail, live, heap);
  }

  lemma KeptOn(mem0: seq<Header>, mem: seq<Header>, mem': seq<Header>, live: map<nat, nat>)
    requires Kept(mem0, mem, live) && Kept(mem, mem', live)
    ensures Kept(mem0, mem', live)
  {
  }

  lemma EmptyOk(mem: seq<Header>, base: nat)
    requires base < |mem| && mem[base] == Header(base, 0)
    ensures Ok(mem, base, [base], map[], map[], {})
  {
  }

  lemma NotBase(mem: seq<Header>, base: nat, fl: seq<nat>, avail: map<nat, nat>, live: map<nat, nat>, heap: set<nat>, i: nat, n: nat)
    requires Ok(mem, base, fl, avail, live, heap) && i < |fl| && mem[fl[i]].size >= n >= 1
    ensures i >= 1 && Has(avail, n)
  {
    assert fl[i] in avail;
  }

  lemma StoreOk(mem: seq<Header>, base: nat, fl: seq<nat>, avail: map<nat, nat>, live: map<nat, nat>, heap: set<nat>, a: nat, x: nat, h: Header)
    requires Ok(mem, base, fl, avail, live, heap) && a in live && a < x < a + live[a]
    ensures x < |mem| && x !in live && Ok(mem[x := h], base, fl, avail, live, heap)
  {
    Unpack(mem, base, fl, avail, live, heap);
    Inside(live, a, x);
    forall i | 0 <= i < |fl| ensures fl[i] != x {
      if i >= 1 { Inside(avail, fl[i], fl[i]); }
    }
    ElsewhereKept(mem, fl, avail, x, h);
  }

  // ----- Once round the list, from the node after freep to freep -----

  ghost function Lap(fl: seq<nat>, f: nat): (r: seq<nat>)
    requires f < |fl|
    ensures |r| == |fl|
  {
    fl[f + 1..] + fl[..f + 1]
  }

  /** The place in the list of the j-th node of the lap. */
  ghost function LapAt(fl: seq<nat>, f: nat, j: nat): (i: nat)
    requires f < |fl| && j < |fl|
    ensures i < |fl| && fl[i] == Lap(fl, f)[j]
  {
    if f + 1 + j < |fl| then f + 1 + j else f + 1 + j - |fl|
  }

  /** The loop of malloc is at the j-th node of the lap. */
  ghost predicate OnLap(mem: seq<Header>, fl: seq<nat>, f: int, j: int, prevp: nat, p: nat) {
    && 0 <= f < |fl| && 0 <= j < |fl| && p == Lap(fl, f)[j] && p < |mem|
    && prevp == if j == 0 then fl[f] else Lap(fl, f)[j - 1]
  }

  ghost function At(fl: seq<nat>, f: int): nat { if 0 <= f < |fl| then fl[f] else 0 }

  lemma LapStart(mem: seq<Header>, fl: seq<nat>, a: nat) returns (f: nat)
    requires Chained(mem, fl) && a in fl
    ensures a < |mem| && f < |fl| && At(fl, f) == a && OnLap(mem, fl, f, 0, a, mem[a].ptr)
  {
    f := Index(fl, a);
    assert mem[fl[f]].ptr == After(fl, f);
    if f + 1 == |fl| { assert Lap(fl, f)[0] == fl[0]; }
  }

  /** Where the lap goes next, and where it is in the list. */
  lemma LapNext(mem: seq<Header>, fl: seq<nat>, f: int, j: int, prevp: nat, p: nat) returns (i: nat)
    requires Chained(mem, fl) && OnLap(mem, fl, f, j, prevp, p)
    ensures 0 <= f && 0 <= j && p < |mem| && (p == At(fl, f) <==> j == |fl| - 1)
    ensures j + 1 < |fl| ==> OnLap(mem, fl, f, j + 1, p, mem[p].ptr)
    ensures i < |fl| && fl[i] == p && (i >= 1 ==> fl[i - 1] == prevp)
  {
    i := LapAt(fl, f, j);
    assert mem[fl[i]].ptr == After(fl, i);
  }

  /** A block of n units is still ahead on the lap. */
  ghost predicate Ahead(mem: seq<Header>, fl: seq<nat>, f: nat, j: nat, n: nat) {
    f < |fl| && exists k :: j <= k < |fl| && Lap(fl, f)[k] < |mem| && mem[Lap(fl, f)[k]].size >= n
  }

  lemma AheadNext(mem: seq<Header>, fl: seq<nat>, f: nat, j: nat, n: nat, prevp: nat, p: nat)
    requires Ahead(mem, fl, f, j, n) && OnLap(mem, fl, f, j, prevp, p) && mem[p].size < n
    ensures j + 1 < |fl| && Ahead(mem, fl, f, j + 1, n)
  {
    var k :| j <= k < |fl| && Lap(fl, f)[k] < |mem| && mem[Lap(fl, f)[k]].size >= n;
    assert k != j;
  }

  lemma LapHas(mem: seq<Header>, base: nat, fl: seq<nat>, avail: map<nat, nat>, live: map<nat, nat>, heap: set<nat>, f: nat, n: nat)
    requires Ok(mem, base, fl, avail, live, heap) && Has(avail, n) && f < |fl|
    ensures Ahead(mem, fl, f, 0, n)
  {
    var a :| a in avail && avail[a] >= n;
    var i := Index(fl, a);
    var k := if i > f then i - f - 1 else i + |fl| - f - 1;
    assert Lap(fl, f)[k] == a;
  }

  /** The node that b goes after. */
  ghost function Goal(fl: seq<nat>, b: nat): (t: nat)
    requires |fl| >= 1 && fl[0] < b && Increasing(fl)
    ensures t < |fl| && fl[t] < b && (t + 1 < |fl| ==> b <= fl[t + 1])
  {
    if fl[|fl| - 1] < b then |fl| - 1 else Goal(fl[..|fl| - 1], b)
  }

  /** What the tests in free find: the block after, by its address; the block before, by its size. */
  lemma Joining(mem: seq<Header>, base: nat, fl: seq<nat>, avail: map<nat, nat>, live: map<nat, nat>, heap: set<nat>, t: nat, b: nat)
    requires Ok(mem, base, fl, avail, live, heap) && b in live && t < |fl| && fl[t] < b && (t + 1 < |fl| ==> b <= fl[t + 1])
    ensures var p, n := fl[t], live[b]; var (fl1, avail1, n1) := Above(fl, avail, t, b, n);
            && b < |mem| && mem[b].size == n && p < |mem| && mem[p].ptr < |mem| && p != b
            && (b + n == mem[p].ptr <==> t + 1 < |fl| && b + n == fl[t + 1])
            && (b + n == mem[p].ptr ==> After(fl1, t) == mem[mem[p].ptr].ptr && n1 == n + mem[mem[p].ptr].size && mem[p].ptr != b && mem[p].ptr != p)
            && (b + n != mem[p].ptr ==> After(fl1, t) == mem[p].ptr && n1 == n)
  {
    Between(mem, base, fl, avail, live, heap, t, b);
    assert mem[fl[t]].ptr == After(fl, t);
    if t + 1 < |fl| {
      assert mem[fl[t + 1]].ptr == After(fl, t + 1);
    }
  }
}

/**
 The free list of umalloc.c as values: headers in memory, chained in address order from the
 base and back to it, and the units that the blocks cover.
 */
module FreeList {

  /** A unit of memory seen as a block header. */
  datatype Header = Header(ptr: nat, size: nat)

  // ----- Units covered by blocks -----

  predicate Within(a: nat, n: nat, x: nat) { a <= x < a + n }

  /** x is inside some block of m, which maps starts to sizes. */
  ghost predicate Covered(m: map<nat, nat>, x: nat) {
    exists a :: a in m && Within(a, m[a], x)
  }

  /** No two blocks of m overlap. */
  ghost predicate Apart(m: map<nat, nat>) {
    && (forall a | a in m :: m[a] >= 1)
    && (forall a, b | a in m && b in m && a < b :: a + m[a] <= b)
  }

  lemma CoveredPut(m: map<nat, nat>, a: nat, n: nat, x: nat)
    requires a !in m
    ensures Covered(m[a := n], x) <==> Covered(m, x) || Within(a, n, x)
  {
    var m' := m[a := n];
    if Covered(m, x) {
      var b :| b in m && Within(b, m[b], x);
      assert b in m' && Within(b, m'[b], x);
    }
    if Within(a, n, x) {
      assert a in m' && Within(a, m'[a], x);
    }
  }

  lemma CoveredDrop(m: map<nat, nat>, a: nat, x: nat)
    requires Apart(m) && a in m
    ensures Covered(m, x) <==> Covered(m - {a}, x) || Within(a, m[a], x)
    ensures !(Covered(m - {a}, x) && Within(a, m[a], x))
  {
    assert (m - {a})[a := m[a]] == m;
    CoveredPut(m - {a}, a, m[a], x);
  }

  /** A range of new units. */
  function Units(a: nat, n: nat): (r: set<nat>)
    ensures forall x :: x in r <==> Within(a, n, x)
    ensures |r| == n
  {
    if n == 0 then {} else Units(a, n - 1) + {a + n - 1}
  }

  // ----- The chain -----

  ghost predicate Increasing(fl: seq<nat>) {
    forall i, j :: 0 <= i < j < |fl| ==> fl[i] < fl[j]
  }

  /** The node after the i-th, round the end. */
  function After(fl: seq<nat>, i: nat): nat
    requires i < |fl|
  {
    if i + 1 < |fl| then fl[i + 1] else fl[0]
  }

  /** One address descent: the pointers follow fl and close the circle. */
  ghost predicate Chained(mem: seq<Header>, fl: seq<nat>) {
    && |fl| >= 1 && Increasing(fl)
    && (forall i :: 0 <= i < |fl| ==> fl[i] < |mem|)
    && (forall i {:trigger After(fl, i)} :: 0 <= i < |fl| ==> mem[fl[i]].ptr == After(fl, i))
  }

  /** Where a is in fl. */
  ghost function Index(fl: seq<nat>, a: nat): nat {
    if exists i :: 0 <= i < |fl| && fl[i] == a then var i :| 0 <= i < |fl| && fl[i] == a; i else |fl|
  }

  /** fl is the base and then the blocks of avail, whose headers have their sizes; no two touch. */
  ghost predicate Listed(mem: seq<Header>, fl: seq<nat>, avail: map<nat, nat>) {
    && (forall i :: 0 <= i < |fl| ==> fl[i] < |mem|)
    && (forall i :: 1 <= i < |fl| ==> fl[i] in avail && mem[fl[i]].size == avail[fl[i]] >= 1)
    && (forall i, j :: 1 <= i < j < |fl| && fl[i] in avail ==> fl[i] + avail[fl[i]] < fl[j])
    && (forall a {:trigger Index(fl, a)} | a in avail :: 1 <= Index(fl, a) < |fl| && fl[Index(fl, a)] == a)
    && (|fl| >= 1 ==> mem[fl[0]].size == 0)
  }

  lemma IsListed(mem: seq<Header>, fl: seq<nat>, avail: map<nat, nat>, a: nat)
    requires Listed(mem, fl, avail) && a in avail
    ensures a in fl
  {
    assert fl[Index(fl, a)] == a;
  }

  lemma ListedApart(mem: seq<Header>, fl: seq<nat>, avail: map<nat, nat>)
    requires Listed(mem, fl, avail) && Increasing(fl)
    ensures Apart(avail)
  {
    forall a | a in avail ensures avail[a] >= 1 {
      assert fl[Index(fl, a)] == a;
    }
    forall a, b | a in avail && b in avail && a < b ensures a + avail[a] <= b {
      var i, j := Index(fl, a), Index(fl, b);
      assert fl[i] == a && fl[j] == b && i < j;
    }
  }

  /** Writing elsewhere. */
  lemma ElsewhereKept(mem: seq<Header>, fl: seq<nat>, avail: map<nat, nat>, x: nat, h: Header)
    requires Chained(mem, fl) && Listed(mem, fl, avail) && x < |mem| && x !in fl
    ensures Chained(mem[x := h], fl) && Listed(mem[x := h], fl, avail)
  {
  }

  function Insert(fl: seq<nat>, t: nat, b: nat): seq<nat>
    requires t < |fl|
  {
    fl[..t + 1] + [b] + fl[t + 1..]
  }

  function Remove(fl: seq<nat>, t: nat): seq<nat>
    requires t < |fl|
  {
    fl[..t] + fl[t + 1..]
  }

  // ----- Steps -----

  /** A block put between the t-th node and the next, touching neither. */
  lemma Inserted(mem: seq<Header>, fl: seq<nat>, avail: map<nat, nat>, t: nat, b: nat, n: nat)
    requires Chained(mem, fl) && Listed(mem, fl, avail) && t < |fl| && n >= 1
    requires fl[t] < b < |mem| && (t >= 1 ==> fl[t] + mem[fl[t]].size < b) && (t + 1 < |fl| ==> b + n < fl[t + 1])
    ensures var mem' := mem[b := Header(After(fl, t), n)][fl[t] := mem[fl[t]].(ptr := b)];
            Chained(mem', Insert(fl, t, b)) && Listed(mem', Insert(fl, t, b), avail[b := n]) && b !in avail
  {
    InsertedChain(mem, fl, t, b, n);
    InsertedList(mem, fl, avail, t, b, n);
  }

  lemma InsertedChain(mem: seq<Header>, fl: seq<nat>, t: nat, b: nat, n: nat)
    requires Chained(mem, fl) && t < |fl| && fl[t] < b < |mem| && (t + 1 < |fl| ==> b < fl[t + 1])
    ensures var mem' := mem[b := Header(After(fl, t), n)][fl[t] := mem[fl[t]].(ptr := b)]; Chained(mem', Insert(fl, t, b))
  {
    var mem' := mem[b := Header(After(fl, t), n)][fl[t] := mem[fl[t]].(ptr := b)];
    var r := Insert(fl, t, b);
    forall i {:trigger After(r, i)} | 0 <= i < |r| ensures mem'[r[i]].ptr == After(r, i) {
      if i != t && i != t + 1 {
        var k := if i < t then i else i - 1;
        assert r[i] == fl[k] && mem[fl[k]].ptr == After(fl, k);
      }
    }
  }

  lemma InsertedList(mem: seq<Header>, fl: seq<nat>, avail: map<nat, nat>, t: nat, b: nat, n: nat)
    requires Increasing(fl) && Listed(mem, fl, avail) && t < |fl| && n >= 1
    requires fl[t] < b < |mem| && (t >= 1 ==> fl[t] + mem[fl[t]].size < b) && (t + 1 < |fl| ==> b + n < fl[t + 1])
    ensures var mem' := mem[b := Header(After(fl, t), n)][fl[t] := mem[fl[t]].(ptr := b)];
            Listed(mem', Insert(fl, t, b), avail[b := n]) && b !in avail
  {
    assert b !in fl;
    if b in avail { IsListed(mem, fl, avail, b); }
    InsertedIndex(fl, avail, t, b, n);
    InsertedSpace(mem, fl, avail, t, b, n);
    InsertedSizes(mem, fl, avail, t, b, n);
    hide Increasing, Index, Insert;
  }

  lemma InsertedSizes(mem: seq<Header>, fl: seq<nat>, avail: map<nat, nat>, t: nat, b: nat, n: nat)
    requires t < |fl| && n >= 1 && b < |mem| && b !in fl && fl[0] < |mem| && mem[fl[0]].size == 0
    requires forall i :: 0 <= i < |fl| ==> fl[i] < |mem|
    requires forall i :: 1 <= i < |fl| ==> fl[i] in avail && mem[fl[i]].size == avail[fl[i]] >= 1
    ensures var r, mem', avail' := Insert(fl, t, b), mem[b := Header(After(fl, t), n)][fl[t] := mem[fl[t]].(ptr := b)], avail[b := n];
            && (forall i :: 0 <= i < |r| ==> r[i] < |mem'|) && mem'[r[0]].size == 0
            && (forall i :: 1 <= i < |r| ==> r[i] in avail' && mem'[r[i]].size == avail'[r[i]] >= 1)
  {
    var r, avail' := Insert(fl, t, b), avail[b := n];
    forall i | 0 <= i < |r| ensures r[i] == if i <= t then fl[i] else if i == t + 1 then b else fl[i - 1] {
    }
  }

  lemma InsertedIndex(fl: seq<nat>, avail: map<nat, nat>, t: nat, b: nat, n: nat)
    requires Increasing(fl) && t < |fl| && b !in fl
    requires forall a {:trigger Index(fl, a)} | a in avail :: 1 <= Index(fl, a) < |fl| && fl[Index(fl, a)] == a
    ensures var r := Insert(fl, t, b);
            forall a {:trigger Index(r, a)} | a in avail[b := n] :: 1 <= Index(r, a) < |r| && r[Index(r, a)] == a
  {
    var r := Insert(fl, t, b);
    forall a {:trigger Index(r, a)} | a in avail[b := n] ensures 1 <= Index(r, a) < |r| && r[Index(r, a)] == a {
      if a == b {
        assert r[t + 1] == b;
      } else {
        var i := Index(fl, a);
        assert r[if i <= t then i else i + 1] == a;
      }
      assert r[0] == fl[0] != a;
    }
  }

  lemma InsertedSpace(mem: seq<Header>, fl: seq<nat>, avail: map<nat, nat>, t: nat, b: nat, n: nat)
    requires Increasing(fl) && t < |fl| && b !in fl
    requires forall i :: 1 <= i < |fl| ==> fl[i] < |mem| && fl[i] in avail && mem[fl[i]].size == avail[fl[i]]
    requires forall i, j :: 1 <= i < j < |fl| && fl[i] in avail ==> fl[i] + avail[fl[i]] < fl[j]
    requires fl[t] < b && fl[t] < |mem| && (t >= 1 ==> fl[t] + mem[fl[t]].size < b) && (t + 1 < |fl| ==> b + n < fl[t + 1])
    ensures var r := Insert(fl, t, b);
            forall i, j :: 1 <= i < j < |r| && r[i] in avail[b := n] ==> r[i] + avail[b := n][r[i]] < r[j]
  {
    var r := Insert(fl, t, b);
    forall i, j | 1 <= i < j < |r| && r[i] in avail[b := n] ensures r[i] + avail[b := n][r[i]] < r[j] {
      var i', j' := if i <= t then i else i - 1, if j <= t then j else j - 1;
      if i == t + 1 {
        assert r[i] == b && r[j] == fl[j'] && fl[t + 1] <= fl[j'];
      } else if j == t + 1 {
        assert r[i] == fl[i'] && fl[i'] != b;
        assert i' < t ==> fl[i'] + avail[fl[i']] < fl[t];
      } else {
        assert r[i] == fl[i'] && r[j] == fl[j'] && fl[i'] != b;
      }
    }
  }

  /** The t-th block is given n more units, up to but not touching the next. */
  lemma Widened(mem: seq<Header>, fl: seq<nat>, avail: map<nat, nat>, t: nat, n: nat)
    requires Chained(mem, fl) && Listed(mem, fl, avail) && 1 <= t < |fl| && n >= 1
    requires t + 1 < |fl| ==> fl[t] + n < fl[t + 1]
    ensures var p := fl[t];
            Chained(mem[p := mem[p].(size := n)], fl) && Listed(mem[p := mem[p].(size := n)], fl, avail[p := n])
  {
    var avail' := avail[fl[t] := n];
    forall i, j | 1 <= i < j < |fl| && fl[i] in avail' ensures fl[i] + avail'[fl[i]] < fl[j] {
      if i == t && j != t + 1 { assert fl[t + 1] < fl[j]; }
    }
    assert forall i {:trigger After(fl, i)} :: 0 <= i < |fl| ==> mem[fl[i]].ptr == After(fl, i);
  }

  /** The t-th block leaves the list. */
  lemma Removed(mem: seq<Header>, fl: seq<nat>, avail: map<nat, nat>, t: nat)
    requires Chained(mem, fl) && Listed(mem, fl, avail) && 1 <= t < |fl|
    ensures var q, p := fl[t], fl[t - 1];
            var mem' := mem[p := mem[p].(ptr := mem[q].ptr)];
            Chained(mem', Remove(fl, t)) && Listed(mem', Remove(fl, t), avail - {q})
  {
    RemovedChain(mem, fl, t);
    RemovedIndex(fl, avail, t);
    RemovedList(mem, fl, avail, t);
  }

  lemma RemovedIndex(fl: seq<nat>, avail: map<nat, nat>, t: nat)
    requires Increasing(fl) && 1 <= t < |fl|
    requires forall a {:trigger Index(fl, a)} | a in avail :: 1 <= Index(fl, a) < |fl| && fl[Index(fl, a)] == a
    ensures var r := Remove(fl, t);
            forall a {:trigger Index(r, a)} | a in avail - {fl[t]} :: 1 <= Index(r, a) < |r| && r[Index(r, a)] == a
  {
    var r := Remove(fl, t);
    forall a {:trigger Index(r, a)} | a in avail - {fl[t]} ensures 1 <= Index(r, a) < |r| && r[Index(r, a)] == a {
      var i := Index(fl, a);
      assert r[if i < t then i else i - 1] == a;
      assert r[0] == fl[0] != a;
    }
  }

  lemma RemovedList(mem: seq<Header>, fl: seq<nat>, avail: map<nat, nat>, t: nat)
    requires Increasing(fl) && Listed(mem, fl, avail) && 1 <= t < |fl|
    ensures var q, r, avail' := fl[t], Remove(fl, t), avail - {fl[t]};
            var mem' := mem[fl[t - 1] := mem[fl[t - 1]].(ptr := mem[q].ptr)];
            && (forall i :: 0 <= i < |r| ==> r[i] < |mem'|) && mem'[r[0]].size == 0
            && (forall i :: 1 <= i < |r| ==> r[i] in avail' && mem'[r[i]].size == avail'[r[i]] >= 1)
            && (forall i, j :: 1 <= i < j < |r| && r[i] in avail' ==> r[i] + avail'[r[i]] < r[j])
  {
    var r, avail' := Remove(fl, t), avail - {fl[t]};
    forall i | 0 <= i < |r| ensures r[i] == fl[if i < t then i else i + 1] && r[i] != fl[t] {
    }
  }

  lemma RemovedChain(mem: seq<Header>, fl: seq<nat>, t: nat)
    requires Chained(mem, fl) && 1 <= t < |fl|
    ensures var q, p := fl[t], fl[t - 1]; Chained(mem[p := mem[p].(ptr := mem[q].ptr)], Remove(fl, t))
  {
    var q, p := fl[t], fl[t - 1];
    var mem' := mem[p := mem[p].(ptr := mem[q].ptr)];
    var r := Remove(fl, t);
    forall i {:trigger After(r, i)} | 0 <= i < |r| ensures mem'[r[i]].ptr == After(r, i) {
      var k := if i < t then i else i + 1;
      assert r[i] == fl[k] && mem[fl[k]].ptr == After(fl, k);
      assert mem[q].ptr == After(fl, t);
    }
  }
}

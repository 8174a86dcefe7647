/**
 What itrunc's steps do to ownership: a block is released and its pointer cleared, or,
 below an indirect block, all the entries are released first and cleared together.
 */
module FsTrunc {
  import opened Blocks
  import opened FsLayout
  import opened FsState
  import opened FsGrowth
  import opened FsContents
  import opened FsFiles

  /** The owners without those in inode i. */
  function Others(owner: map<nat, Slot>, i: nat): map<nat, Slot> {
    map b | b in owner && owner[b].inum != i :: owner[b]
  }

  /** Only addresses of the locked inode and bits of the bitmap have changed. */
  ghost predicate Cut(v: View, v': View)
    requires v.Shape() && v'.Shape()
  {
    && v'.sb == v.sb && v'.inum == v.inum && v'.ip == v.ip.(addrs := v'.ip.addrs)
    && (forall i :: 0 <= i < v.sb.ninodes ==> v'.Disk(i) == v.Disk(i))
    && (forall t: Slot :: v.Slotted(t) && t.inum != v.inum ==> v'.Ptr(t) == v.Ptr(t))
    && (forall y :: v.sb.NMeta() <= y < v.sb.size ==> v'.blocks[y] == v.blocks[y])
  }

  lemma CutNothing(v: View)
    requires v.Shape()
    ensures Cut(v, v)
  {
  }

  lemma CutOn(v0: View, v: View, v': View)
    requires v0.Shape() && v.Shape() && v'.Shape() && Cut(v0, v) && Cut(v, v')
    ensures Cut(v0, v')
  {
  }

  /** What a pointer points at is in use. */
  lemma Pointed(v: View, owner: map<nat, Slot>, live: set<nat>, s: Slot)
    requires v.Shape() && Linked(v, owner) && Marked(v, live) && v.Slotted(s) && v.Ptr(s) != 0
    ensures var b := v.Ptr(s); v.sb.NMeta() <= b < v.sb.size && b in owner && owner[b] == s && (v.Used(b) <==> b in live)
  {
  }

  /** Clearing address k of the locked inode. */
  function Cleared(v: View, k: nat): (v': View)
    requires v.Shape() && k < NDIRECT + 1
    ensures v'.Shape()
  {
    v.(ip := v.ip.(addrs := v.ip.addrs[k := 0]))
  }

  lemma ClearedPtrs(v: View, k: nat)
    requires v.Shape() && k < NDIRECT + 1
    ensures forall t: Slot :: v.Slotted(t) && t.inum != v.inum ==> Cleared(v, k).Ptr(t) == v.Ptr(t)
    ensures forall t: Slot :: v.Slotted(t) && k != NDIRECT && t != Direct(v.inum, k) ==> Cleared(v, k).Ptr(t) == v.Ptr(t)
    ensures Cleared(v, k).Ptr(Direct(v.inum, k)) == 0
    ensures k == NDIRECT ==> forall j :: 0 <= j < NINDIRECT ==> Cleared(v, k).Ptr(Entry(v.inum, j)) == 0
  {
  }

  /** The pointers that remain are those of the owners that remain. */
  lemma LinkedShrinks(v: View, v': View, owner: map<nat, Slot>, owner': map<nat, Slot>)
    requires v.Shape() && v'.Shape() && Linked(v, owner) && v'.sb == v.sb
    requires forall b | b in owner' :: b in owner && owner'[b] == owner[b]
    requires forall t: Slot :: v.Slotted(t) ==> v'.Ptr(t) == 0 || v'.Ptr(t) == v.Ptr(t)
    requires forall b {:trigger Place(owner, b)} | b in owner :: b in owner' <==> (v.Slotted(Place(owner, b)) && v'.Ptr(Place(owner, b)) != 0)
    ensures Linked(v', owner')
  {
    hide View.Ptr;
    forall b {:trigger Place(owner', b)} | b in owner' ensures v'.Slotted(Place(owner', b)) && v'.Ptr(Place(owner', b)) == b {
      assert Place(owner', b) == Place(owner, b);
    }
    forall s: Slot | v'.Slotted(s) && v'.Ptr(s) != 0
      ensures v.sb.NMeta() <= v'.Ptr(s) < v.sb.size && v'.Ptr(s) in owner' && owner'[v'.Ptr(s)] == s
    {
      assert v.Slotted(s) && v'.Ptr(s) == v.Ptr(s);
      assert Place(owner, v.Ptr(s)) == s;
    }
  }

  /** bfree of b, then clearing address k: what that does to the bitmap, and to everything but the inode. */
  lemma ReleaseCut(v: View, owner: map<nat, Slot>, live: set<nat>, b: nat, k: nat)
    requires v.Shape() && Linked(v, owner) && Marked(v, live) && v.sb.NMeta() <= b < v.sb.size && k < NDIRECT + 1
    ensures var v1 := Release(v, b); var v' := Cleared(v1, k);
            Linked(v1, owner) && Marked(v', live - {b}) && Cut(v, v')
  {
    var v1 := Release(v, b);
    Released(v, owner, live, b);
    ClearedPtrs(v1, k);
    var v' := Cleared(v1, k);
    assert forall y :: 0 <= y < v.sb.size ==> (v'.Used(y) <==> v1.Used(y));
    assert forall i :: 0 <= i < v.sb.ninodes ==> v'.Disk(i) == v1.Disk(i);
  }

  /** bfree of address k, then clearing it. */
  lemma AddressFreed(v: View, owner: map<nat, Slot>, k: nat)
    requires v.Shape() && Linked(v, owner) && Marked(v, owner.Keys) && k < NDIRECT && v.ip.addrs[k] != 0
    ensures var b := v.ip.addrs[k]; b < v.sb.size && v.Used(b)
    ensures var b := v.ip.addrs[k]; var v', owner' := Cleared(Release(v, b), k), owner - {b};
            Linked(v', owner') && Marked(v', owner'.Keys) && Cut(v, v')
  {
    var b := v.ip.addrs[k];
    assert v.Ptr(Direct(v.inum, k)) == b;
    Pointed(v, owner, owner.Keys, Direct(v.inum, k));
    ReleaseCut(v, owner, owner.Keys, b, k);
    AddressCut(Release(v, b), owner, k, b);
    assert (owner - {b}).Keys == owner.Keys - {b};
  }

  lemma AddressCut(v: View, owner: map<nat, Slot>, k: nat, b: nat)
    requires v.Shape() && Linked(v, owner) && k < NDIRECT && b in owner && owner[b] == Direct(v.inum, k)
    ensures Linked(Cleared(v, k), owner - {b})
  {
    ClearedPtrs(v, k);
    var s := Direct(v.inum, k);
    var v' := Cleared(v, k);
    var owner' := owner - {b};
    assert Place(owner, b) == s && v.Ptr(s) == b;
    forall x {:trigger Place(owner, x)} | x in owner ensures x in owner' <==> (v.Slotted(Place(owner, x)) && v'.Ptr(Place(owner, x)) != 0) {
      assert v.Ptr(Place(owner, x)) == x;
    }
    LinkedShrinks(v, v', owner, owner');
  }

  // ----- The indirect block -----

  /** The blocks that the entries below j of inode i's indirect block point at. */
  function FreedBefore(owner: map<nat, Slot>, i: nat, j: nat): set<nat> {
    set b | b in owner && owner[b].Entry? && owner[b].inum == i && owner[b].k < j
  }

  lemma FreedNext(v: View, owner: map<nat, Slot>, j: nat)
    requires v.Shape() && Linked(v, owner) && j < NINDIRECT
    ensures var b := v.Ptr(Entry(v.inum, j));
            FreedBefore(owner, v.inum, j + 1) == FreedBefore(owner, v.inum, j) + if b == 0 then {} else {b}
    ensures v.Ptr(Entry(v.inum, j)) !in FreedBefore(owner, v.inum, j)
  {
    var s := Entry(v.inum, j);
    forall b | b in FreedBefore(owner, v.inum, j + 1) && b !in FreedBefore(owner, v.inum, j) ensures b == v.Ptr(s) && b != 0 {
      assert Place(owner, b) == s;
    }
    assert v.Slotted(s);
  }

  lemma NoneFreed(owner: map<nat, Slot>, i: nat)
    ensures FreedBefore(owner, i, 0) == {}
  {
  }

  /** bfree of entry j, which is in use if it is set; its pointer stays. */
  lemma EntryFreed(v: View, owner: map<nat, Slot>, x: nat, j: nat)
    requires v.Shape() && Linked(v, owner) && x == v.ip.addrs[NDIRECT] != 0 && j < NINDIRECT
    requires Marked(v, owner.Keys - FreedBefore(owner, v.inum, j))
    ensures x < v.sb.size
    ensures var a := WordAt(v.blocks[x], j);
            if a == 0 then Marked(v, owner.Keys - FreedBefore(owner, v.inum, j + 1)) else
              a < v.sb.size && v.Used(a)
              && var v' := Release(v, a);
                 Linked(v', owner) && Cut(v, v') && Marked(v', owner.Keys - FreedBefore(owner, v.inum, j + 1))
  {
    var live := owner.Keys - FreedBefore(owner, v.inum, j);
    IndirectBlock(v, owner, v.inum);
    var a := WordAt(v.blocks[x], j);
    assert a == v.Ptr(Entry(v.inum, j));
    FreedNext(v, owner, j);
    if a != 0 {
      Pointed(v, owner, live, Entry(v.inum, j));
      Released(v, owner, live, a);
      assert live - {a} == owner.Keys - FreedBefore(owner, v.inum, j + 1);
    } else {
      assert FreedBefore(owner, v.inum, j + 1) == FreedBefore(owner, v.inum, j);
    }
  }

  lemma AllFreed(v: View, owner: map<nat, Slot>, x: nat)
    requires v.Shape() && Linked(v, owner) && x in owner && owner[x] == Direct(v.inum, NDIRECT)
    requires forall k :: 0 <= k < NDIRECT ==> v.ip.addrs[k] == 0
    ensures Others(owner, v.inum).Keys == owner.Keys - FreedBefore(owner, v.inum, NINDIRECT) - {x}
  {
    forall b | b in owner && b !in Others(owner, v.inum) ensures b in FreedBefore(owner, v.inum, NINDIRECT) || b == x {
      assert v.Slotted(Place(owner, b)) && v.Ptr(Place(owner, b)) == b;
      assert v.Ptr(Place(owner, x)) == x;
    }
  }

  /** The last step: the indirect block freed and its address cleared, after its entries. */
  lemma IndirectCut(v: View, owner: map<nat, Slot>, x: nat)
    requires v.Shape() && Linked(v, owner) && x in owner && owner[x] == Direct(v.inum, NDIRECT)
    requires forall k :: 0 <= k < NDIRECT ==> v.ip.addrs[k] == 0
    ensures Linked(Cleared(v, NDIRECT), Others(owner, v.inum))
  {
    ClearedPtrs(v, NDIRECT);
    var v' := Cleared(v, NDIRECT);
    var owner' := Others(owner, v.inum);
    forall t: Slot | v.Slotted(t) && t.inum == v.inum ensures v'.Ptr(t) == 0 {
    }
    forall b {:trigger Place(owner, b)} | b in owner ensures b in owner' <==> (v.Slotted(Place(owner, b)) && v'.Ptr(Place(owner, b)) != 0) {
      assert v.Ptr(Place(owner, b)) == b;
    }
    LinkedShrinks(v, v', owner, owner');
  }

  lemma IndirectFreed(v: View, owner: map<nat, Slot>, x: nat)
    requires v.Shape() && Linked(v, owner) && x == v.ip.addrs[NDIRECT] != 0
    requires Marked(v, owner.Keys - FreedBefore(owner, v.inum, NINDIRECT))
    requires forall k :: 0 <= k < NDIRECT ==> v.ip.addrs[k] == 0
    ensures x < v.sb.size && v.Used(x)
    ensures var v' := Cleared(Release(v, x), NDIRECT);
            Linked(v', Others(owner, v.inum)) && Marked(v', Others(owner, v.inum).Keys) && Cut(v, v')
  {
    var live := owner.Keys - FreedBefore(owner, v.inum, NINDIRECT);
    assert v.Ptr(Direct(v.inum, NDIRECT)) == x;
    Pointed(v, owner, live, Direct(v.inum, NDIRECT));
    ReleaseCut(v, owner, live, x, NDIRECT);
    AllFreed(v, owner, x);
    IndirectCut(Release(v, x), owner, x);
  }

  // ----- The whole of it -----

  /** An inode with no addresses owns nothing. */
  lemma NothingOwned(v: View, owner: map<nat, Slot>)
    requires v.Shape() && Linked(v, owner) && forall k :: 0 <= k <= NDIRECT ==> v.ip.addrs[k] == 0
    ensures Others(owner, v.inum) == owner && Mapped(v, v.inum, 0)
  {
    forall b | b in owner ensures owner[b].inum != v.inum {
      assert v.Slotted(Place(owner, b)) && v.Ptr(Place(owner, b)) == b;
    }
  }

  /** The blocks given up are those of the inode and no others. */
  lemma OwnersCut(v: View, owner: map<nat, Slot>, v': View, owner': map<nat, Slot>)
    requires v.Shape() && v'.Shape() && Linked(v, owner) && Linked(v', owner') && Cut(v, v')
    requires forall k :: 0 <= k <= NDIRECT ==> v'.ip.addrs[k] == 0
    ensures owner' == Others(owner, v.inum)
  {
    NothingOwned(v', owner');
    forall b | b in owner' ensures b in owner && owner[b] == owner'[b] {
      assert v'.Slotted(Place(owner', b)) && v'.Ptr(Place(owner', b)) == b;
    }
    forall b | b in owner && owner[b].inum != v.inum ensures b in owner' {
      assert v.Slotted(Place(owner, b)) && v.Ptr(Place(owner, b)) == b;
    }
  }

  lemma CutBytes(v: View, owner: map<nat, Slot>, v': View)
    requires v.Shape() && v'.Shape() && Linked(v, owner) && Cut(v, v')
    ensures OthersKept(v, v')
  {
    forall i | 0 <= i < v.sb.ninodes && i != v.inum && v.Ino(i).size <= MAXBYTES
      ensures v'.Ino(i) == v.Ino(i) && Contents(v', i) == Contents(v, i)
    {
      assert v'.Ino(i) == v.Ino(i);
      forall p | 0 <= p < v.Ino(i).size ensures Contents(v', i)[p] == Contents(v, i)[p] {
        CutByte(v, owner, v', i, p);
      }
    }
  }

  lemma CutByte(v: View, owner: map<nat, Slot>, v': View, i: nat, p: nat)
    requires v.Shape() && v'.Shape() && Linked(v, owner) && Cut(v, v') && i < v.sb.ninodes && i != v.inum && p < MAXBYTES
    ensures Byte(v', i, p) == Byte(v, i, p)
  {
    assert v.Slotted(SlotOf(i, p / BSIZE));
  }

  /** Cutting, then recording size 0, empties the file and keeps the others and the invariant. */
  lemma TruncDone(v0: View, owner0: map<nat, Slot>, v: View, owner: map<nat, Slot>, v': View)
    requires v0.Shape() && v.Shape() && v'.Shape() && Linked(v0, owner0) && Linked(v, owner) && Marked(v, owner.Keys)
    requires HoleFree(v0) && Cut(v0, v) && (forall k :: 0 <= k <= NDIRECT ==> v.ip.addrs[k] == 0) && v' == Sized(v, 0)
    ensures Linked(v', owner) && Marked(v', owner.Keys) && owner == Others(owner0, v0.inum)
    ensures HoleFree(v') && v'.Disk(v'.inum) == v'.ip && Contents(v', v'.inum) == [] && OthersKept(v0, v')
    ensures SameKind(v0.ip, v'.ip) && v'.ip.size == 0
  {
    OwnersCut(v0, owner0, v, owner);
    SizedPtrs(v, owner, 0);
    StillMarked(v, v', owner.Keys);
    TruncKept(v0, owner0, v, owner, v');
    NothingOwned(v', owner);
    HoleFreeKept(v0, v');
  }

  lemma TruncKept(v0: View, owner0: map<nat, Slot>, v: View, owner: map<nat, Slot>, v': View)
    requires v0.Shape() && v.Shape() && v'.Shape() && Linked(v0, owner0) && Linked(v, owner) && Marked(v, owner.Keys)
    requires Cut(v0, v) && v' == Sized(v, 0)
    ensures OthersKept(v0, v')
    ensures forall t: Slot :: v0.Slotted(t) && t.inum != v0.inum ==> v'.Ptr(t) == v0.Ptr(t)
    ensures forall i :: 0 <= i < v0.sb.ninodes && i != v0.inum ==> v'.Disk(i) == v0.Disk(i)
  {
    CutBytes(v0, owner0, v);
    SizedPtrs(v, owner, 0);
    NoBytes(v);
    SizedBytes(v, owner, 0, v, 0, []);
    ContentsKept(v, v', 0, []);
  }

  lemma NoBytes(v: View)
    requires v.Shape()
    ensures BytesWritten(v, v, 0, [])
  {
  }

  // ----- How many blocks come back -----

  ghost function Owned(owner: map<nat, Slot>, i: nat): set<nat> {
    set b | b in owner && owner[b].inum == i
  }

  /** The blocks of the locked inode's first n block numbers. */
  ghost function Data(v: View, n: nat): set<nat>
    requires v.Shape() && n <= MAXFILE
  {
    set k | 0 <= k < n :: v.Ptr(SlotOf(v.inum, k)) as nat
  }

  /** They are n different ones. */
  lemma {:induction false} DataCount(v: View, owner: map<nat, Slot>, n: nat)
    requires v.Shape() && Linked(v, owner) && n <= MAXFILE
    requires forall k :: 0 <= k < n ==> v.Ptr(SlotOf(v.inum, k)) != 0
    ensures |Data(v, n)| == n
  {
    hide Linked, View.Ptr;
    if n == 0 {
      assert Data(v, 0) == {};
    } else {
      DataCount(v, owner, n - 1);
      var b := v.Ptr(SlotOf(v.inum, n - 1));
      forall k | 0 <= k < n - 1 ensures v.Ptr(SlotOf(v.inum, k)) != b {
        PtrsDiffer(v, owner, SlotOf(v.inum, k), SlotOf(v.inum, n - 1));
      }
      assert Data(v, n) == Data(v, n - 1) + {b};
    }
  }

  lemma PtrsDiffer(v: View, owner: map<nat, Slot>, s: Slot, t: Slot)
    requires v.Shape() && Linked(v, owner) && v.Slotted(s) && v.Slotted(t) && s != t && v.Ptr(s) != 0
    ensures v.Ptr(s) != v.Ptr(t)
  {
    hide View.Ptr;
  }

  /** A file owns its data blocks and its indirect block, and so as many as its size takes. */
  lemma OwnedCount(v: View, owner: map<nat, Slot>)
    requires v.Shape() && Linked(v, owner) && v.ip.size <= MAXBYTES && Mapped(v, v.inum, NBlocks(v.ip.size))
    ensures |Owned(owner, v.inum)| == Takes(v.ip.size)
  {
    var n := NBlocks(v.ip.size);
    DataCount(v, owner, n);
    OwnedIs(v, owner, n);
    if n > NDIRECT {
      var x := v.ip.addrs[NDIRECT];
      assert v.Slotted(Direct(v.inum, NDIRECT)) && v.Ptr(Direct(v.inum, NDIRECT)) == x;
      hide Linked, View.Ptr;
      forall k | 0 <= k < n ensures v.Ptr(SlotOf(v.inum, k)) != x {
        PtrsDiffer(v, owner, SlotOf(v.inum, k), Direct(v.inum, NDIRECT));
      }
      assert |Data(v, n) + {x}| == n + 1;
    }
  }

  lemma OwnedIs(v: View, owner: map<nat, Slot>, n: nat)
    requires v.Shape() && Linked(v, owner) && n <= MAXFILE && Mapped(v, v.inum, n)
    ensures Owned(owner, v.inum) == Data(v, n) + if n > NDIRECT then {v.ip.addrs[NDIRECT]} else {}
  {
    var data := Data(v, n) + if n > NDIRECT then {v.ip.addrs[NDIRECT]} else {};
    forall b | b in Owned(owner, v.inum) ensures b in data {
      var s := Place(owner, b);
      assert v.Slotted(s) && v.Ptr(s) == b && s == owner[b];
      if !Indirect(s) {
        var k := if s.Direct? then s.k else NDIRECT + s.k;
        assert s == SlotOf(v.inum, k) && v.Ptr(SlotOf(v.inum, k)) == b;
      }
    }
    forall k | 0 <= k < n ensures v.Ptr(SlotOf(v.inum, k)) in Owned(owner, v.inum) {
      assert v.Slotted(SlotOf(v.inum, k));
    }
    assert v.Slotted(Direct(v.inum, NDIRECT));
  }

  /** Truncation gives back exactly what the size took. */
  lemma TruncSpare(v0: View, owner0: map<nat, Slot>, v': View)
    requires v0.Shape() && v'.Shape() && v'.sb == v0.sb && Linked(v0, owner0) && HoleFree(v0)
    requires Marked(v0, owner0.Keys) && Marked(v', Others(owner0, v0.inum).Keys)
    ensures Spare(v') == Spare(v0) + Takes(v0.ip.size)
  {
    hide Linked, Marked, HoleFree, Takes, Mapped, Owned;
    LockedMapped(v0);
    OwnedCount(v0, owner0);
    GivenBack(v0, owner0, v');
    assert |Unused(v0) + Owned(owner0, v0.inum)| == |Unused(v0)| + |Owned(owner0, v0.inum)|;
  }

  lemma GivenBack(v0: View, owner0: map<nat, Slot>, v': View)
    requires v0.Shape() && v'.Shape() && v'.sb == v0.sb && Linked(v0, owner0)
    requires Marked(v0, owner0.Keys) && Marked(v', Others(owner0, v0.inum).Keys)
    ensures Unused(v') == Unused(v0) + Owned(owner0, v0.inum) && Unused(v0) !! Owned(owner0, v0.inum)
  {
    hide View.Used;
    assert forall b | b in owner0 :: v0.sb.NMeta() <= b < v0.sb.size;
    hide Linked;
  }
}

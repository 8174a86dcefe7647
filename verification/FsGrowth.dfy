/**
 What allocation does to the file system state: one slot of the locked inode gains a
 fresh block, and every other pointer, inode and data block stays as it was.
 */
module FsGrowth {
  import opened Blocks
  import opened FsLayout
  import opened FsState

  /** Slot s, empty in v, holds the fresh zeroed block b in v'; nothing else has moved. */
  ghost predicate Grew(v: View, owner: map<nat, Slot>, v': View, owner': map<nat, Slot>, s: Slot, b: nat)
    requires v.Shape() && v'.Shape()
  {
    && v'.sb == v.sb && v'.inum == v.inum && v'.ip == v.ip.(addrs := v'.ip.addrs)
    && b !in owner && owner' == owner[b := s] && v.sb.NMeta() <= b < v.sb.size && v'.blocks[b] == ZeroBlock()
    && v.Slotted(s) && s.inum == v.inum && v.Ptr(s) == 0 && v'.Ptr(s) == b
    && (forall t: Slot :: v.Slotted(t) && t != s ==> v'.Ptr(t) == v.Ptr(t))
    && (forall i :: 0 <= i < v.sb.ninodes ==> v'.Disk(i) == v.Disk(i))
    && (forall x | x in owner && !Indirect(owner[x]) && x < v.sb.size :: v'.blocks[x] == v.blocks[x])
  }

  /** Block bn of the locked inode, unmapped in v, is the fresh zeroed block b in v'; the indirect block may be new as well. */
  ghost predicate Extended(v: View, owner: map<nat, Slot>, v': View, owner': map<nat, Slot>, bn: nat, b: nat)
    requires v.Shape() && v'.Shape() && bn < MAXFILE
  {
    && v'.sb == v.sb && v'.inum == v.inum && v'.ip == v.ip.(addrs := v'.ip.addrs)
    && b !in owner && v.sb.NMeta() <= b < v.sb.size && v'.blocks[b] == ZeroBlock()
    && b in owner' && owner'[b] == SlotOf(v.inum, bn) && v'.Ptr(SlotOf(v.inum, bn)) == b
    && (forall x | x in owner :: x in owner' && owner'[x] == owner[x])
    && (forall t: Slot :: v.Slotted(t) && t != SlotOf(v.inum, bn) && t != Direct(v.inum, NDIRECT) ==> v'.Ptr(t) == v.Ptr(t))
    && (v.ip.addrs[NDIRECT] != 0 || bn < NDIRECT ==> v'.ip.addrs[NDIRECT] == v.ip.addrs[NDIRECT])
    && (bn >= NDIRECT ==> v'.ip.addrs[NDIRECT] != 0)
    && (forall i :: 0 <= i < v.sb.ninodes ==> v'.Disk(i) == v.Disk(i))
    && (forall x | x in owner && !Indirect(owner[x]) && x < v.sb.size :: v'.blocks[x] == v.blocks[x])
  }

  // ----- How many blocks are left -----

  ghost function Unused(v: View): set<nat>
    requires v.Shape()
  {
    set b | 0 <= b < v.sb.size && !v.Used(b)
  }

  /** The number of blocks the bitmap has as free. */
  ghost function Spare(v: View): nat
    requires v.Shape()
  {
    |Unused(v)|
  }

  lemma SpareNone(v: View)
    requires v.Shape() && forall x :: 0 <= x < v.sb.size ==> v.Used(x)
    ensures Spare(v) == 0
  {
    assert Unused(v) == {};
  }

  lemma SpareKept(v: View, v': View)
    requires v.Shape() && v'.Shape() && SameUse(v, v')
    ensures Spare(v') == Spare(v)
  {
    assert Unused(v') == Unused(v);
  }

  /** A block that is taken is one less. */
  lemma SpareTaken(v: View, owner: map<nat, Slot>, v': View, owner': map<nat, Slot>, s: Slot, b: nat)
    requires v.Shape() && v'.Shape() && Marked(v, owner.Keys) && Marked(v', owner'.Keys) && Grew(v, owner, v', owner', s, b)
    ensures Spare(v) == Spare(v') + 1
  {
    assert b in Unused(v) && b !in Unused(v');
    assert Unused(v') == Unused(v) - {b};
  }

  lemma GrewExtended(v: View, owner: map<nat, Slot>, v': View, owner': map<nat, Slot>, bn: nat, b: nat)
    requires v.Shape() && v'.Shape() && bn < MAXFILE && Grew(v, owner, v', owner', SlotOf(v.inum, bn), b)
    requires bn >= NDIRECT ==> v.ip.addrs[NDIRECT] != 0
    ensures Extended(v, owner, v', owner', bn, b)
  {
    assert v'.Ptr(Direct(v.inum, NDIRECT)) == v.Ptr(Direct(v.inum, NDIRECT));
  }

  lemma GrewTwice(v: View, owner: map<nat, Slot>, v1: View, owner1: map<nat, Slot>, v2: View, owner2: map<nat, Slot>,
                  bn: nat, x: nat, b: nat)
    requires v.Shape() && v1.Shape() && v2.Shape() && NDIRECT <= bn < MAXFILE
    requires Grew(v, owner, v1, owner1, Direct(v.inum, NDIRECT), x)
    requires Grew(v1, owner1, v2, owner2, SlotOf(v.inum, bn), b)
    ensures Extended(v, owner, v2, owner2, bn, b)
  {
    assert v2.Ptr(Direct(v.inum, NDIRECT)) == x;
  }

  lemma GrewAddress(v: View, owner: map<nat, Slot>, k: nat, b: nat)
    requires v.Shape() && Linked(v, owner) && Marked(v, owner.Keys) && k < NDIRECT + 1 && v.ip.addrs[k] == 0
    requires b < v.sb.size && !v.Used(b)
    ensures var v', owner' := Allocate(v, b).(ip := v.ip.(addrs := v.ip.addrs[k := b])), owner[b := Direct(v.inum, k)];
            && v'.Shape() && Linked(v', owner') && Marked(v', owner'.Keys)
            && Grew(v, owner, v', owner', Direct(v.inum, k), b)
  {
    Allocated(v, owner, owner.Keys, b);
    AddressSet(Allocate(v, b), owner, k, b);
    assert owner[b := Direct(v.inum, k)].Keys == owner.Keys + {b};
  }

  lemma GrewEntry(v: View, owner: map<nat, Slot>, j: nat, b: nat)
    requires v.Shape() && Linked(v, owner) && Marked(v, owner.Keys) && j < NINDIRECT
    requires v.ip.addrs[NDIRECT] != 0 && v.Ptr(Entry(v.inum, j)) == 0
    requires b < v.sb.size && !v.Used(b)
    ensures v.ip.addrs[NDIRECT] < v.sb.size && b !in owner
    ensures var v', owner' := SetEntry(Allocate(v, b), j, b), owner[b := Entry(v.inum, j)];
            && v'.Shape() && Linked(v', owner') && Marked(v', owner'.Keys)
            && Grew(v, owner, v', owner', Entry(v.inum, j), b)
  {
    hide View.Disk, View.Used, Allocate, SetEntry;
    var v1 := Allocate(v, b);
    Allocated(v, owner, owner.Keys, b);
    IndirectBlock(v, owner, v.inum);
    EntrySet(v1, owner, j, b);
    var v', owner' := SetEntry(v1, j, b), owner[b := Entry(v.inum, j)];
    assert Marked(v', owner'.Keys) by {
      EntryTables(v1, owner, j, b);
      assert owner'.Keys == owner.Keys + {b};
    }
    assert Grew(v, owner, v', owner', Entry(v.inum, j), b) by {
      EntryTables(v1, owner, j, b);
      EntryPtrs(v1, owner, j, b);
      EntryData(v, owner, v1, j, b);
    }
  }

  lemma EntryData(v: View, owner: map<nat, Slot>, v1: View, j: nat, b: nat)
    requires v.Shape() && Linked(v, owner) && j < NINDIRECT && v.ip.addrs[NDIRECT] != 0
    requires v1.Shape() && v1 == v.(blocks := v1.blocks) && b < v.sb.size && b !in owner
    requires forall x | x in owner && x >= v.sb.NMeta() && x < v.sb.size :: v1.blocks[x] == v.blocks[x]
    ensures v.ip.addrs[NDIRECT] < v.sb.size && SetEntry(v1, j, b).blocks[b] == v1.blocks[b]
    ensures forall x | x in owner && !Indirect(owner[x]) && x < v.sb.size :: SetEntry(v1, j, b).blocks[x] == v.blocks[x]
  {
    IndirectBlock(v, owner, v.inum);
  }

  lemma Scanned(v: View, b: nat, bi: nat)
    requires v.Shape() && b % BPB == 0 && b < v.sb.size && bi <= BPB && b + bi <= v.sb.size
    requires forall k :: 0 <= k < bi ==> BlockBit(v.blocks[v.sb.BBlock(b)], k)
    ensures forall x :: b <= x < b + bi ==> v.Used(x)
  {
    forall x | b <= x < b + bi ensures v.Used(x) {
      BitmapBlock(v.sb, b, x - b);
    }
  }

  lemma BitmapBlock(sb: Super, b: nat, k: nat)
    requires b % BPB == 0 && k < BPB
    ensures sb.BBlock(b + k) == sb.BBlock(b) && (b + k) % BPB == k
  {
  }
}

/**
 filewrite (file.c): a write of any length, cut into transactions that fit the log.
 */
module File {
  import opened Blocks
  import opened FsLayout
  import opened FsState
  import opened FsGrowth
  import opened FsContents
  import opened FsFiles
  import opened Fs

  /** v is v0 with s written at off, over zero or more transactions. */
  ghost predicate Wrote(v0: View, v: View, off: nat, s: seq<byte>)
    requires v0.Shape() && v.Shape()
  {
    if s == [] then v == v0
    else
      && v.sb == v0.sb && v.inum == v0.inum && off <= v0.ip.size <= MAXBYTES && v.ip.size <= MAXBYTES
      && Contents(v, v.inum) == Splice(Contents(v0, v0.inum), off, s) && SameKind(v0.ip, v.ip) && OthersKept(v0, v)
  }

  lemma SpliceTwice(s: seq<byte>, off: nat, a: seq<byte>, b: seq<byte>)
    requires off <= |s|
    ensures Splice(Splice(s, off, a), off + |a|, b) == Splice(s, off, a + b)
  {
  }

  lemma WroteOn(v0: View, v: View, v': View, off: nat, a: seq<byte>, b: seq<byte>)
    requires v0.Shape() && v.Shape() && v'.Shape() && HoleFree(v0) && b != []
    requires Wrote(v0, v, off, a) && off + |a| <= v.ip.size <= MAXBYTES && Spliced(v, v', off + |a|, b)
    ensures Wrote(v0, v', off, a + b)
  {
    hide Byte, HoleFree, View.Disk, Mapped;
    if a == [] {
      assert a + b == b;
    } else {
      SpliceTwice(Contents(v0, v0.inum), off, a, b);
      forall i | 0 <= i < v0.sb.ninodes && i != v0.inum && v0.Ino(i).size <= MAXBYTES
        ensures v'.Ino(i) == v0.Ino(i) && Contents(v', i) == Contents(v0, i)
      {
        assert v.Ino(i) == v0.Ino(i);
      }
    }
  }

  /** Would a write of n bytes at off fail? It would start past the end, or end past the largest file. */
  predicate Refused(off: nat, n: nat, size: nat) { off > size || off + n > MAXBYTES }

  /** A transaction within the budget, and within the tighter one of a disk with a single bitmap block. */
  ghost predicate Fits(sb: Super, t: Tally) {
    Within(sb, t) && |t.All()| <= 10 && (sb.size <= BPB ==> |t.All()| <= 7)
  }

  /** k more transactions, each of which fits. */
  ghost predicate Added(sb: Super, h: seq<Tally>, h': seq<Tally>, k: nat) {
    |h'| == |h| + k && h'[..|h|] == h && forall j :: |h| <= j < |h'| ==> Fits(sb, h'[j])
  }

  /** An open file on an inode, in a file system of its own. */
  class OpenFile {
    const fs: FileSystem
    var off: uint32
    const writable: bool
    ghost var history: seq<Tally>    // what each finished transaction logged

    constructor (fs: FileSystem, writable: bool)
      ensures this.fs == fs && this.writable == writable && off == 0 && history == []
    {
      this.fs := fs;
      this.writable := writable;
      off, history := 0, [];
    }

    method BeginOp()
      modifies fs`log
      ensures fs.log == Tally({}, {}, {}, {})
    {
      fs.log := Tally({}, {}, {}, {});
    }

    method EndOp()
      modifies this`history
      ensures history == old(history) + [fs.log]
    {
      history := history + [fs.log];
    }

    /** One turn of filewrite's loop: a transaction that writes at most WINDOW bytes. */
    method Window(chunk: seq<byte>) returns (r: IoResult)
      requires fs.Valid() && 1 <= |chunk| <= WINDOW
      modifies this`off, this`history, fs
      ensures r.Device? <==> old(fs.ip.typ) == T_DEV
      ensures r.Fail? <==> old(fs.ip.typ) != T_DEV && Refused(old(off), |chunk|, old(fs.ip.size))
      ensures r.Device? || r.Fail? ==> fs.Valid() && fs.Now() == old(fs.Now()) && off == old(off)
      ensures r.Done? ==> r.n == |chunk| && fs.Valid() && Spliced(old(fs.Now()), fs.Now(), old(off), chunk)
      ensures r.Done? ==> off == old(off) + |chunk|
      ensures !r.Panic? ==> Added(fs.sb, old(history), history, 1) && Recorded(old(fs.blocks), fs.blocks, history, |old(history)|)
      ensures r.Panic? ==> old(off) + |chunk| > old(fs.ip.size) && fs.Now().Shape() && fs.Full()
      ensures r.Panic? <==> !r.Device? && !r.Fail? && More(old(fs.ip.size), old(off) + |chunk|) > Spare(old(fs.Now()))
      ensures r.Done? <==> Writes(old(fs.Now()), old(off), |chunk|)
      ensures r.Done? ==> Spare(fs.Now()) == Spare(old(fs.Now())) - More(old(fs.ip.size), old(off) + |chunk|)
    {
      hide Linked, Marked, HoleFree, Mapped, Spliced, Charged, More, Spare;
      BeginOp();
      ghost var v0 := fs.Now();
      ghost var v;
      r, v := fs.WriteI(off, chunk);
      if r.Panic? {
        return;
      }
      if r.Done? {
        WindowFits(v0, v, fs.log, off, |chunk|);
        off := off + r.n;
      }
      EndOp();
      assert history[|old(history)|] == fs.log;
    }

    /**
     filewrite on an inode. It writes all of src, or, where a window is refused, the windows
     before it; the offset says how far it got. Each transaction fits the log. From the state
     before: whether it writes all.
     */
    method FileWrite(src: seq<byte>, n: int) returns (r: IoResult)
      requires fs.Valid() && n <= |src|
      modifies this`off, this`history, fs
      ensures !r.Panic? ==> fs.Valid() && off >= old(off) && off - old(off) <= |src|
      ensures !r.Panic? ==> Wrote(old(fs.Now()), fs.Now(), old(off), src[..off - old(off)])
      ensures r.Done? ==> r.n == n && off - old(off) == n
      ensures r.Fail? && writable && n >= 0 ==>
        var i := off - old(off);
        i < n && i % WINDOW == 0 && Refused(off, if n - i > WINDOW then WINDOW else n - i, fs.ip.size)
      ensures r.Done? ==> Added(fs.sb, old(history), history, (n + WINDOW - 1) / WINDOW)
      ensures !r.Panic? ==> exists k :: Added(fs.sb, old(history), history, k)
      ensures !r.Panic? ==> Recorded(old(fs.blocks), fs.blocks, history, |old(history)|)
      ensures !writable || n < 0 ==> r.Fail? && off == old(off) && fs.Now() == old(fs.Now()) && history == old(history)
      ensures r.Device? ==> old(fs.ip.typ) == T_DEV
      ensures r.Panic? ==> fs.Now().Shape() && fs.Full()
      ensures r.Done? <==> writable && n >= 0 && (n == 0 || Writes(old(fs.Now()), old(off), n))
      ensures r.Done? && n > 0 ==> Spare(fs.Now()) == Spare(old(fs.Now())) - More(old(fs.ip.size), old(off) + n)
    {
      hide Linked, Marked, HoleFree, Spliced, Wrote, Fits, Added, FileSystem.Full, View.Disk, Writes, More, Spare, Recorded;
      ghost var v0, h0 := fs.Now(), history;
      NothingWrote(v0, off, src, fs.sb, h0);
      NothingRecorded(v0.blocks, h0);
      if !writable {
        return Fail;
      }
      var i := 0;
      ghost var off0 := off;
      while i < n
        invariant 0 <= i <= |src| && (i <= n || i == 0) && fs.Valid() && off == off0 + i
        invariant Wrote(v0, fs.Now(), off0, src[..i]) && fs.ip.typ == v0.ip.typ
        invariant Added(fs.sb, h0, history, (i + WINDOW - 1) / WINDOW) && (i % WINDOW == 0 || i == n)
        invariant i == 0 ==> fs.Now() == v0 && history == h0
        invariant Recorded(v0.blocks, fs.blocks, history, |h0|)
        invariant i > 0 ==> Writes(v0, off0, i) && Spare(fs.Now()) == Spare(v0) - More(v0.ip.size, off0 + i)
        modifies this`off, this`history, fs
      {
        var n1 := n - i;
        if n1 > WINDOW {
          n1 := WINDOW;
        }
        ghost var v, h := fs.Now(), history;
        WroteSize(v0, v, off0, src[..i]);
        OneMore(v0, v, off0, i, n1, n);
        r := Window(src[i..i + n1]);
        if !r.Panic? {
          AddedThen(fs.sb, h0, h, history, (i + WINDOW - 1) / WINDOW);
          RecordedThen(fs.sb, v0.blocks, v.blocks, fs.blocks, h0, h, history, (i + WINDOW - 1) / WINDOW);
          AnotherWindow(i, n1);
        }
        if !r.Done? {
          return;
        }
        WroteOn(v0, v, fs.Now(), off0, src[..i], src[i..i + n1]);
        WroteType(v0, fs.Now(), off0, src[..i] + src[i..i + n1]);
        assert src[..i] + src[i..i + n1] == src[..i + n1];
        i := i + n1;
      }
      r := if i == n then Done(n) else Fail;
    }
  }

  /** There is no gap, the file does not get too long, and the blocks it needs are free. */
  ghost predicate Writes(v: View, off: nat, n: nat)
    requires v.Shape()
  {
    v.ip.typ != T_DEV && off <= v.ip.size && off + n <= MAXBYTES && More(v.ip.size, off + n) <= Spare(v)
  }

  /** With i bytes written, the next n1 can be exactly if i + n1 could be from the start. */
  lemma OneMore(v0: View, v: View, off: nat, i: nat, n1: nat, n: nat)
    requires v0.Shape() && v.Shape() && 1 <= n1 && i + n1 <= n && v.ip.typ == v0.ip.typ
    requires if i == 0 then v == v0 else
      v.ip.size == Max(v0.ip.size, off + i) && Writes(v0, off, i) && Spare(v) == Spare(v0) - More(v0.ip.size, off + i)
    ensures Writes(v, off + i, n1) <==> Writes(v0, off, i + n1)
    ensures Writes(v0, off, n) ==> Writes(v0, off, i + n1)
    ensures Spare(v) - More(v.ip.size, off + i + n1) == Spare(v0) - More(v0.ip.size, off + i + n1)
  {
    hide Takes, Spare;
    TakesMore(Max(v0.ip.size, off + i + n1), Max(v0.ip.size, off + n));
  }

  lemma WroteSize(v0: View, v: View, off: nat, s: seq<byte>)
    requires v0.Shape() && v.Shape() && Wrote(v0, v, off, s)
    ensures v.ip.size == if s == [] then v0.ip.size else Max(v0.ip.size, off + |s|)
  {
  }

  /** Every block that has changed was logged by one of the transactions from `from` on. */
  ghost predicate Recorded(was: seq<Block>, now: seq<Block>, h: seq<Tally>, from: nat) {
    |now| == |was| && forall x :: 0 <= x < |was| && now[x] != was[x] ==> exists k :: from <= k < |h| && x in h[k].All()
  }

  lemma NothingRecorded(was: seq<Block>, h: seq<Tally>)
    ensures Recorded(was, was, h, |h|)
  {
  }

  lemma RecordedThen(sb: Super, a: seq<Block>, b: seq<Block>, c: seq<Block>, h0: seq<Tally>, h: seq<Tally>, h': seq<Tally>, i: nat)
    requires Added(sb, h0, h, i) && Added(sb, h, h', 1) && Recorded(a, b, h, |h0|) && Recorded(b, c, h', |h|)
    ensures Recorded(a, c, h', |h0|)
  {
    forall x | 0 <= x < |a| && c[x] != a[x] ensures exists k :: |h0| <= k < |h'| && x in h'[k].All() {
      if b[x] != a[x] {
        var k :| |h0| <= k < |h| && x in h[k].All();
        assert h'[k] == h'[..|h|][k];
      }
    }
  }

  lemma WroteType(v0: View, v: View, off: nat, s: seq<byte>)
    requires v0.Shape() && v.Shape() && Wrote(v0, v, off, s)
    ensures v.ip.typ == v0.ip.typ
  {
  }

  lemma NothingWrote(v: View, off: nat, src: seq<byte>, sb: Super, h: seq<Tally>)
    requires v.Shape()
    ensures Wrote(v, v, off, src[..0]) && Added(sb, h, h, 0)
  {
  }

  lemma AnotherWindow(i: nat, n1: nat)
    requires i % WINDOW == 0 && 1 <= n1 <= WINDOW
    ensures (i + n1 + WINDOW - 1) / WINDOW == (i + WINDOW - 1) / WINDOW + 1
    ensures n1 == WINDOW ==> (i + n1) % WINDOW == 0
  {
  }

  lemma AddedThen(sb: Super, h0: seq<Tally>, h: seq<Tally>, h': seq<Tally>, i: nat)
    requires Added(sb, h0, h, i) && Added(sb, h, h', 1)
    ensures Added(sb, h0, h', i + 1)
  {
    assert h'[..|h0|] == h'[..|h|][..|h0|];
    forall j | |h0| <= j < |h'| ensures Fits(sb, h'[j]) {
      if j < |h| { assert h'[j] == h'[..|h|][j]; }
    }
  }
}

/**
 pipe.c: a ring of 512 bytes with two 32-bit counters that wrap. Each method is what a reader
 or a writer does between two points where it can sleep, so any number of both may interleave.
 */
module Pipe {
  import opened Blocks

  const PIPESIZE := 512

  /** What is done with the processor at the end of a critical section. */
  datatype Outcome = Done(n: nat) | Killed | Asleep

  class Ring {
    var data: seq<byte>
    var nread: uint32
    var nwrite: uint32
    var readopen: bool
    var writeopen: bool
    ghost var accepted: seq<byte>    // every byte that pipewrite has put in
    ghost var delivered: seq<byte>   // every byte that piperead has taken out

    /**
     The bytes delivered are a prefix of those accepted, at most PIPESIZE are in between, and those
     are in the ring. The counters are the two totals modulo 2^32, which PIPESIZE divides.
     */
    ghost predicate Valid()
      reads this
    {
      && |data| == PIPESIZE && delivered <= accepted && |accepted| - |delivered| <= PIPESIZE
      && nread == |delivered| % U32 && nwrite == |accepted| % U32
      && forall i :: |delivered| <= i < |accepted| ==> data[i % PIPESIZE] == accepted[i]
    }

    constructor ()
      ensures Valid() && accepted == [] && delivered == [] && readopen && writeopen
    {
      data, nread, nwrite, readopen, writeopen := seq(PIPESIZE, _ => 0), 0, 0, true, true;
      accepted, delivered := [], [];
    }

    /** The test of the full pipe, with nread + PIPESIZE in 32 bits, is right, wrapped or not. */
    predicate Full()
      reads this
    {
      nwrite == (nread + PIPESIZE) % U32
    }

    predicate IsEmpty()
      reads this
    {
      nread == nwrite
    }

    lemma Tests()
      requires Valid()
      ensures Full() <==> |accepted| - |delivered| == PIPESIZE
      ensures IsEmpty() <==> accepted == delivered
    {
      var a, d := |accepted|, |delivered|;
      assert a % U32 == d % U32 <==> (a - d) % U32 == 0;
      assert a % U32 == (d % U32 + PIPESIZE) % U32 <==> (a - d - PIPESIZE) % U32 == 0;
      if a == d {
        assert accepted[..d] == delivered;
      }
    }

    /**
     pipewrite from byte i of src on, until it is done, has to sleep, or gives up. The bytes it
     has put in are accepted in order, and it stops only with all of them in or the pipe full.
     */
    method Write(src: seq<byte>, i: nat, killed: bool) returns (r: Outcome, k: nat)
      requires Valid() && i <= |src|
      modifies this`data, this`nwrite, this`accepted
      ensures Valid() && i <= k <= |src| && accepted == old(accepted) + src[i..k]
      ensures r.Done? <==> k == |src|
      ensures r.Done? ==> r.n == |src|
      ensures !r.Done? ==> |accepted| - |delivered| == PIPESIZE
      ensures r.Killed? <==> k < |src| && (!readopen || killed)
    {
      k := i;
      while k < |src|
        invariant i <= k <= |src| && Valid() && accepted == old(accepted) + src[i..k]
      {
        Tests();
        if Full() {
          r := if !readopen || killed then Killed else Asleep;
          return;
        }
        PutByte(src[k]);
        assert src[i..k] + [src[k]] == src[i..k + 1];
        k := k + 1;
      }
      r := Done(|src|);
    }

    method PutByte(x: byte)
      requires Valid() && |accepted| - |delivered| < PIPESIZE
      modifies this`data, this`nwrite, this`accepted
      ensures Valid() && accepted == old(accepted) + [x]
    {
      Slot(|accepted|);
      var at := nwrite % PIPESIZE;
      data := data[at := x];
      nwrite := (nwrite + 1) % U32;
      accepted := accepted + [x];
      forall i | |delivered| <= i < |accepted| ensures data[i % PIPESIZE] == accepted[i] {
        OtherSlot(i, |accepted| - 1);
      }
    }

    /**
     piperead up to its first sleep or its return. What it returns are the next bytes accepted,
     as many as there are and were asked for.
     */
    method Read(n: nat, killed: bool) returns (r: Outcome, dst: seq<byte>)
      requires Valid()
      modifies this`nread, this`delivered
      ensures Valid() && delivered == old(delivered) + dst
      ensures r.Asleep? || r.Killed? ==> dst == [] && accepted == delivered && writeopen
      ensures r.Killed? <==> old(accepted == delivered) && writeopen && killed
      ensures r.Done? ==> r.n == |dst| <= n && (|dst| < n ==> accepted == delivered)
      ensures r.Asleep? || r.Killed? <==> old(accepted == delivered) && writeopen
    {
      dst := [];
      Tests();
      if IsEmpty() && writeopen {
        r := if killed then Killed else Asleep;
        return;
      }
      while |dst| < n
        invariant |dst| <= n && Valid() && delivered == old(delivered) + dst
        decreases n - |dst|
      {
        Tests();
        if IsEmpty() {
          break;
        }
        var x := GetByte();
        dst := dst + [x];
      }
      r := Done(|dst|);
    }

    method GetByte() returns (x: byte)
      requires Valid() && |delivered| < |accepted|
      modifies this`nread, this`delivered
      ensures Valid() && delivered == old(delivered) + [x]
    {
      Slot(|delivered|);
      x := data[nread % PIPESIZE];
      nread := (nread + 1) % U32;
      assert accepted[..|delivered|] == delivered && accepted[..|delivered| + 1] == delivered + [accepted[|delivered|]];
      delivered := delivered + [x];
    }

    /** pipeclose: true when both ends are closed and the page may be freed. */
    method Close(writable: bool) returns (gone: bool)
      requires Valid()
      modifies this`readopen, this`writeopen
      ensures Valid() && accepted == old(accepted) && delivered == old(delivered)
      ensures writeopen == (old(writeopen) && !writable) && readopen == (old(readopen) && writable)
      ensures gone <==> !readopen && !writeopen
    {
      if writable {
        writeopen := false;
      } else {
        readopen := false;
      }
      gone := !readopen && !writeopen;
    }
  }

  /** The slot of a byte is the same by the wrapped counter as by the total, because 512 divides 2^32. */
  lemma Slot(total: nat)
    ensures total % U32 % PIPESIZE == total % PIPESIZE && (total + 1) % U32 == (total % U32 + 1) % U32
  {
  }

  /** Fewer than 512 apart, different bytes have different slots. */
  lemma OtherSlot(i: nat, j: nat)
    requires i <= j < i + PIPESIZE
    ensures i % PIPESIZE == j % PIPESIZE <==> i == j
  {
  }
}

/** The ring buffer of lab2/pipe.c.  The counters nread and nwrite are 32-bit and
    wrap; the buffer has 512 bytes, which divides 2^32, so positions stay right.

    `stored` and `delivered` are all the bytes that ever went in and came out. */
module PipeBuffer {
  import opened Words

  const PIPESIZE: int := 512

  function Smaller(a: int, b: int): int { if a < b then a else b }

  class Pipe {
    const data: array<int>
    var nread: uint32
    var nwrite: uint32
    var readopen: bool
    var writeopen: bool
    ghost var stored: seq<int>
    ghost var delivered: seq<int>

    /** The bytes delivered are a prefix of the bytes stored, at most PIPESIZE are
        pending, and those lie in the buffer where the counters say. */
    ghost predicate Valid()
      reads this, data
    {
      && data.Length == PIPESIZE
      && |delivered| <= |stored| <= |delivered| + PIPESIZE
      && delivered == stored[..|delivered|]
      && nread == |delivered| % WRAP && nwrite == |stored| % WRAP
      && forall k :: |delivered| <= k < |stored| ==> data[k % PIPESIZE] == stored[k]
    }

    /** The code's two tests, on wrapping counters, mean full and empty. */
    lemma TestsMean()
      requires Valid()
      ensures nwrite == (nread + PIPESIZE) % WRAP <==> |stored| == |delivered| + PIPESIZE
      ensures nread == nwrite <==> |stored| == |delivered|
    {
    }

    constructor ()
      ensures Valid() && stored == [] && delivered == [] && readopen && writeopen
      ensures fresh(data)
    {
      data := new int[PIPESIZE];
      nread, nwrite, readopen, writeopen := 0, 0, true, true;
      stored, delivered := [], [];
    }

    /** p->data[p->nwrite++ % PIPESIZE] = x */
    method Put(x: int)
      requires Valid() && nwrite != (nread + PIPESIZE) % WRAP
      modifies data, this`nwrite, this`stored
      ensures Valid() && stored == old(stored) + [x]
    {
      TestsMean();
      SlotsDiffer(|delivered|, |stored|);
      CounterWraps(|stored|);
      data[nwrite % PIPESIZE] := x;
      nwrite := (nwrite + 1) % WRAP;
      stored := stored + [x];
    }

    /** p->data[p->nread++ % PIPESIZE] */
    method Get() returns (x: int)
      requires Valid() && nread != nwrite
      modifies this`nread, this`delivered
      ensures Valid() && delivered == old(delivered) + [x]
    {
      TestsMean();
      CounterWraps(|delivered|);
      x := data[nread % PIPESIZE];
      nread := (nread + 1) % WRAP;
      delivered := delivered + [x];
    }

    /** pipewrite from byte i on, up to where it sleeps or is done: it stores bytes
        until all are in or the buffer is full. */
    method WriteSome(addr: seq<int>, i: nat) returns (i': nat)
      requires Valid() && i <= |addr|
      modifies data, this`nwrite, this`stored
      ensures Valid() && i <= i' <= |addr|
      ensures stored == old(stored) + addr[i..i']
      ensures i' < |addr| ==> nwrite == (nread + PIPESIZE) % WRAP
    {
      i' := i;
      while i' < |addr|
        invariant Valid() && i <= i' <= |addr|
        invariant stored == old(stored) + addr[i..i']
      {
        if nwrite == (nread + PIPESIZE) % WRAP { break; }
        Put(addr[i']);
        assert addr[i..i' + 1] == addr[i..i'] + [addr[i']];
        i' := i' + 1;
      }
    }

    /** The copying loop of piperead: as many bytes as there are, up to n. */
    method ReadSome(n: int) returns (got: seq<int>)
      requires Valid()
      modifies this`nread, this`delivered
      ensures Valid() && delivered == old(delivered) + got
      ensures |got| == Smaller(if n < 0 then 0 else n, |stored| - |old(delivered)|)
    {
      got := [];
      var i := 0;
      while i < n
        invariant Valid() && delivered == old(delivered) + got && |got| == i
        invariant 0 <= i <= (if n < 0 then 0 else n) && i <= |stored| - |old(delivered)|
      {
        TestsMean();
        if nread == nwrite { break; }
        var x := Get();
        got := got + [x];
        i := i + 1;
      }
      TestsMean();
    }
  }

  /** A wrapped counter counts on, and names the slot of the unwrapped one:
      512 divides 2^32. */
  lemma CounterWraps(n: nat)
    ensures (n % WRAP + 1) % WRAP == (n + 1) % WRAP
    ensures n % WRAP % PIPESIZE == n % PIPESIZE
  {
    var q, r := n / WRAP, n % WRAP;
    if r + 1 < WRAP {
      DivIs(n + 1, WRAP, q, r + 1);
    } else {
      DivIs(n + 1, WRAP, q + 1, 0);
    }
    DivIs(n, PIPESIZE, q * 0x80_0000 + r / PIPESIZE, r % PIPESIZE);
  }

  /** Positions less than PIPESIZE apart have different slots. */
  lemma SlotsDiffer(lo: nat, hi: nat)
    requires lo <= hi < lo + PIPESIZE
    ensures forall k :: lo <= k < hi ==> k % PIPESIZE != hi % PIPESIZE
  {
  }
}

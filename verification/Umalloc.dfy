/** The user-level allocator of lab2/umalloc.c (Kernighan and Ritchie, section
    8.7): a circular list of free blocks in address order.

    `mem` holds the headers in user memory.  The ghost field `g` says which
    blocks there are, which of them form the ring, and which block each unit
    obtained from sbrk belongs to; `Valid` ties it to the pointers in memory. */
module Umalloc {
  import opened Words
  import opened Blocks
  import F = FreeList
  import opened FreeList
  import opened FirstFit

  /** (nbytes + sizeof(Header) - 1)/sizeof(Header) + 1, in unsigned arithmetic. */
  function Units(nbytes: uint32): (n: uint32)
    ensures 1 <= n <= MAXUNITS
  {
    (nbytes + UNIT - 1) % WRAP / UNIT + 1
  }

  /** No request has more units. */
  const MAXUNITS: int := 0x2000_0000

  /** morecore asks for no less than 4096 units. */
  function CoreUnits(nu: uint32): uint32 { if nu < 4096 then 4096 else nu }

  /** The argument of sbrk is an int: the unsigned product, read as signed. */
  function SbrkArg(nu: uint32): int
  {
    var bytes := nu * UNIT % WRAP;
    if bytes < KERNBASE then bytes else bytes - WRAP
  }

  /** What malloc does: a pointer, the null pointer, or a call of sbrk with an
      argument that is not positive, after which nothing is modelled. */
  datatype Outcome = Null | Ptr(ap: int) | Wild

  ghost function Dist(from: nat, to: nat, n: nat): nat
    requires from < n && to < n
  {
    if from <= to then to - from else to - from + n
  }

  lemma {:induction false} PlaceExists(ring: seq<int>, b: int, n: nat) returns (t: nat)
    requires 0 < n <= |ring| && ring[0] < b && b !in ring
    requires n == |ring| || b < ring[n]
    requires forall i, j :: 0 <= i < j < |ring| ==> ring[i] < ring[j]
    ensures t < n && Place(ring, t, b)
  {
    if ring[n - 1] < b {
      t := n - 1;
    } else {
      t := PlaceExists(ring, b, n - 1);
    }
  }

  /** The tests of the search in free, at ring[k]: between it and its successor,
      or at the end of the ring, where the order wraps. */
  predicate FoundPlace(ring: seq<int>, k: nat, b: int)
    requires k < |ring|
  {
    var p, next := ring[k], Succ(ring, k);
    (b > p && b < next) || (p >= next && (b > p || b < next))
  }

  lemma FoundPlaceIff(ring: seq<int>, k: nat, b: int)
    requires k < |ring| && ring[0] < b && b !in ring
    requires forall i, j :: 0 <= i < j < |ring| ==> ring[i] < ring[j]
    ensures FoundPlace(ring, k, b) <==> Place(ring, k, b)
  {
  }

  /** What the search reads at a node. */
  ghost predicate Hop(mem: Memory, ring: seq<int>, b: int, k: nat)
    requires k < |ring|
  {
    ring[k] in mem && mem[ring[k]].ptr == Succ(ring, k) && (FoundPlace(ring, k, b) <==> Place(ring, k, b))
  }

  lemma SearchReady(mem: Memory, freep: int, base: int, brk: int, g: Arena, b: int) returns (t: nat)
    requires HeapOk(mem, freep, base, brk, g) && freep != 0 && b in Live(g.bs, g.ring)
    ensures freep in g.ring
    ensures forall k :: 0 <= k < |g.ring| ==> Hop(mem, g.ring, b, k)
    ensures t < |g.ring| && Place(g.ring, t, b)
  {
    HeapIs(mem, freep, base, brk, g);
    TiledIs(g);
    forall k | 0 <= k < |g.ring| ensures Hop(mem, g.ring, b, k) {
      NextNode(mem, g.bs, g.ring, k);
      FoundPlaceIff(g.ring, k, b);
    }
    t := PlaceExists(g.ring, b, |g.ring|);
  }

  /** The search at the top of free: the free block after which bp belongs.  It
      starts anywhere on the ring and ends after at most one turn. */
  method FindPlace(mem: Memory, freep: int, bp: int, ghost base: int, ghost brk: int, ghost g: Arena)
    returns (p: int, ghost t: nat)
    requires HeapOk(mem, freep, base, brk, g) && freep != 0 && bp in Live(g.bs, g.ring)
    ensures t < |g.ring| && p == g.ring[t] && Place(g.ring, t, bp)
  {
    ghost var goal := SearchReady(mem, freep, base, brk, g, bp);
    p := freep;
    t :| 0 <= t < |g.ring| && g.ring[t] == p;
    assert Hop(mem, g.ring, bp, t);
    while !(bp > p && bp < mem[p].ptr)
      invariant 0 <= t < |g.ring| && p == g.ring[t] && Hop(mem, g.ring, bp, t)
      decreases Dist(t, goal, |g.ring|)
    {
      if p >= mem[p].ptr && (bp > p || bp < mem[p].ptr) {
        break;
      }
      assert t != goal;
      p := mem[p].ptr;
      t := if t + 1 < |g.ring| then t + 1 else 0;
      assert Hop(mem, g.ring, bp, t);
    }
  }

  /** The arena before a block is taken: as at the start, or after morecore. */
  ghost predicate Before(g: Arena, g': Arena, n: int, grew: bool)
  {
    if grew then Extended(g, g', n) else g' == g
  }

  /** The units asked for hold nbytes exactly when the sum did not wrap. */
  lemma UnitsSuffice(nbytes: uint32)
    ensures UNIT * (Units(nbytes) - 1) >= nbytes <==> nbytes <= WRAP - UNIT
  {
  }

  lemma WildUnits(n: uint32)
    requires 1 <= n <= MAXUNITS
    ensures SbrkArg(CoreUnits(n)) <= 0 <==> n * UNIT >= KERNBASE
  {
  }

  /** For which requests morecore would call sbrk with an argument that is not positive:
      from 15 bytes below 2 GB up to where the size wraps. */
  lemma WildIff(nbytes: uint32)
    ensures SbrkArg(CoreUnits(Units(nbytes))) <= 0 <==> KERNBASE - 15 <= nbytes <= WRAP - UNIT
  {
    WildUnits(Units(nbytes));
  }

  lemma SmallIsExact(n: uint32)
    requires 1 <= n <= MAXUNITS && n * UNIT < KERNBASE
    ensures SbrkArg(CoreUnits(n)) > 0
  {
    WildUnits(n);
  }

  /** By how much morecore moves the break. */
  function MoreBytes(nu: uint32): int { if nu < 4096 then 0x8000 else 8 * nu }

  /** When malloc calls sbrk: only when no free block has n units, and then once.  It gives
      up only when sbrk refuses.  Without sbrk it hands out the first block that fits. */
  ghost predicate Asked(g: Arena, freep: int, g': Arena, freep': int, q: int, n: uint32, wild: bool, moved: int, asked: int, refused: int)
  {
    && (HasFit(g, n) ==> !wild && q != 0 && moved == asked == refused == 0 && Served(g, freep, g', freep', q, n) && g'.units.Keys == g.units.Keys)
    && (!HasFit(g, n) && !wild ==> asked == 1 && refused == (if q == 0 then 1 else 0) && moved == if q == 0 then 0 else MoreBytes(n))
  }

  class Heap {
    var mem: Memory
    var freep: int
    var brk: int
    const base: int
    ghost var g: Arena
    /** How often sbrk was called, and how often it refused. */
    ghost var asked: nat
    ghost var refused: nat

    /** Blocks handed out and not yet freed. */
    ghost function Live(): set<int>
      reads this
    {
      F.Live(g.bs, g.ring)
    }

    ghost predicate Valid()
      reads this
    {
      HeapOk(mem, freep, base, brk, g)
    }

    constructor (base: int, brk: int)
      requires 0 < base && base + UNIT <= brk <= KERNBASE
      ensures Valid() && freep == 0 && Live() == {} && g.units == map[] && asked == refused == 0
    {
      asked, refused := 0, 0;
      this.base, this.brk, mem, freep := base, brk, map[], 0;
      g := Arena(map[base := 0], map[], [base], base, brk);
      NewHeapOk(base, brk);
    }

    method Free(ap: int)
      requires Valid() && freep != 0 && ap - UNIT in Live()
      modifies this`mem, this`freep, this`g
      ensures Valid() && freep != 0
      ensures SameLive(old(g), g, old(Live()) - {ap - UNIT})
      ensures RoomNear(mem, freep, old(g.bs[ap - UNIT]))
      ensures exists t :: 0 <= t < |old(g.ring)| && Place(old(g.ring), t, ap - UNIT) && freep == old(g.ring)[t]
    {
      var bp := ap - UNIT;
      var p, t := FindPlace(mem, freep, bp, base, brk, g);
      ghost var m0 := mem;
      ghost var g' := FreeOk(mem, freep, base, brk, g, t, bp);
      var next := mem[p].ptr;
      if bp + UNIT * mem[bp].size == next {
        mem := mem[bp := Header(mem[next].ptr, mem[bp].size + mem[next].size)];
      } else {
        mem := mem[bp := Header(next, mem[bp].size)];
      }
      if p + UNIT * mem[p].size == bp {
        mem := mem[p := Header(mem[bp].ptr, mem[p].size + mem[bp].size)];
      } else {
        mem := mem[p := Header(bp, mem[p].size)];
      }
      assert mem == FreedMem(m0, p, next, bp);
      g := g';
      freep := p;
    }

    /** The system call: it fails, or moves the break up and returns the old one. */
    method Sbrk(n: int) returns (q: int)
      requires 0 < n && 0 < brk
      modifies this`brk, this`asked, this`refused
      ensures q == -1 ==> brk == old(brk) && refused == old(refused) + 1
      ensures q != -1 ==> q == old(brk) && brk == old(brk) + n < KERNBASE && refused == old(refused)
      ensures asked == old(asked) + 1
    {
      asked := asked + 1;
      var granted: bool := *;
      if !granted || brk + n >= KERNBASE {
        refused := refused + 1;
        return -1;
      }
      q := brk;
      brk := brk + n;
    }

    /** The program may move the break itself between calls. */
    method UserSbrk(n: int) returns (q: int)
      requires Valid() && 0 < n
      modifies this`brk, this`g, this`asked, this`refused
      ensures Valid() && g == old(g).(brk := brk)
      ensures q == (if refused == old(refused) then old(brk) else -1) && brk == old(brk) + if q == -1 then 0 else n
    {
      q := Sbrk(n);
      RaiseOk(mem, freep, base, old(brk), g, brk);
      g := g.(brk := brk);
    }

    /** morecore: a new block from sbrk goes through free to the ring. */
    method Morecore(nu: uint32) returns (p: int, wild: bool)
      requires Valid() && freep != 0 && 1 <= nu <= MAXUNITS
      modifies this`mem, this`freep, this`brk, this`g, this`asked, this`refused
      ensures wild <==> SbrkArg(CoreUnits(nu)) <= 0
      ensures Valid() && freep != 0
      ensures !wild ==> asked == old(asked) + 1 && refused == old(refused) + if p == 0 then 1 else 0
      ensures !wild && p != 0 ==> brk == old(brk) + MoreBytes(nu)
      ensures wild || p == 0 ==> mem == old(mem) && freep == old(freep) && brk == old(brk) && g == old(g)
      ensures !wild && p != 0 ==> p == freep && RoomNear(mem, freep, nu) && Extended(old(g), g, CoreUnits(nu))
    {
      var n := if nu < 4096 then 4096 else nu;
      wild := SbrkArg(n) <= 0;
      if wild {
        return 0, true;
      }
      var q := Sbrk(SbrkArg(n));
      if q == -1 {
        return 0, false;
      }
      var junk: int := *;
      ghost var g0 := g;
      CoreOk(mem, freep, base, q, g, n, brk, junk);
      mem := mem[q := Header(junk, n)];
      g := Grown(g, q, n, brk);
      Free(q + UNIT);
      ExtendedOk(mem, g0, q, n, brk, g);
      p := freep;
    }

    /** The node p after prevp is large enough: hand it out, or its tail. */
    method Take(nunits: uint32, prevp: int, p: int, ghost j: nat) returns (q: int)
      requires Valid() && freep != 0 && 1 <= nunits
      requires j + 1 < |g.ring| && prevp == g.ring[j] && p == g.ring[j + 1] && p in mem && mem[p].size >= nunits
      modifies this`mem, this`freep, this`g
      ensures Valid() && freep == prevp != 0
      ensures Taken(old(g), g, q, nunits) && CutFrom(old(g), g, q, nunits, j + 1)
    {
      ScanOk(mem, freep, base, brk, g, j);
      if mem[p].size == nunits {
        CutWhole(mem, freep, base, brk, g, j + 1);
        TakeAllOk(mem, freep, base, brk, g, j);
        mem := mem[prevp := Header(mem[p].ptr, mem[prevp].size)];
        g := Unlinked(g, j + 1);
        q := p;
      } else {
        var junk: int := *;
        CutTail(mem, freep, base, brk, g, j + 1, nunits);
        TakeEndOk(mem, freep, base, brk, g, j, nunits, junk);
        q := p + UNIT * (mem[p].size - nunits);
        assert q == Cut(g, j + 1, nunits);
        mem := TrimMem(mem, p, nunits, junk);
        g := Trimmed(g, j + 1, nunits);
      }
      freep := prevp;
    }

    /** Take, and what it means for the arena that malloc began with. */
    method TakeServed(nunits: uint32, prevp: int, p: int, ghost w: Walk, ghost g0: Arena, ghost grew: bool) returns (q: int)
      requires Valid() && freep != 0 && 1 <= nunits <= MAXUNITS && Before(g0, g, CoreUnits(nunits), grew)
      requires w.j + 1 < |g.ring| && prevp == g.ring[w.j] && p == g.ring[w.j + 1] && p in mem && mem[p].size >= nunits
      requires w.f < |g.ring| && g.ring[w.f] == freep && (!grew ==> IsFirst(g, w.f, nunits, w.j + 1))
      modifies this`mem, this`freep, this`g
      ensures Valid() && freep != 0 && q != 0 && Allocated(g0, g, q, nunits, CoreUnits(nunits))
      ensures !grew ==> Served(g0, old(freep), g, freep, q, nunits) && g.units.Keys == g0.units.Keys
    {
      ghost var g1 := g;
      q := Take(nunits, prevp, p, w.j);
      TakenIsAllocated(g0, g1, g, q, nunits, CoreUnits(nunits));
    }

    /** The loop of malloc: once round the ring, then morecore and on.  The
        result is the block's header, or 0. */
    method Scan(nunits: uint32) returns (q: int, wild: bool)
      requires Valid() && freep != 0 && 1 <= nunits <= MAXUNITS
      modifies this`mem, this`freep, this`brk, this`g, this`asked, this`refused
      ensures Valid() && freep != 0
      ensures wild <==> SbrkArg(CoreUnits(nunits)) <= 0
      ensures wild || q == 0 ==> g == old(g) && brk == old(brk)
      ensures !wild && q != 0 ==> Allocated(old(g), g, q, nunits, CoreUnits(nunits))
      ensures Asked(old(g), old(freep), g, freep, q, nunits, wild, brk - old(brk), asked - old(asked), refused - old(refused))
    {
      ghost var grew := false;
      ghost var w := WalkStart(mem, freep, base, brk, g);
      var prevp := freep;
      var p := mem[prevp].ptr;
      while true
        invariant Valid() && freep != 0 && Walking(mem, freep, prevp, p, g, w)
        invariant Before(old(g), g, CoreUnits(nunits), grew)
        invariant !grew ==> brk == old(brk) && freep == old(freep) && asked == old(asked) && NonePassed(g, nunits, w)
        invariant refused == old(refused)
        invariant grew ==> RoomAhead(mem, freep, prevp, nunits) && SbrkArg(CoreUnits(nunits)) > 0
        invariant grew ==> !HasFit(old(g), nunits) && asked == old(asked) + 1 && brk == old(brk) + MoreBytes(nunits)
        decreases !grew, w.left
      {
        WalkNode(mem, freep, base, brk, g, prevp, p, w);
        if mem[p].size >= nunits {
          SmallIsExact(nunits);
          if !grew { StopsAtFirst(mem, freep, base, brk, g, prevp, p, w, nunits); }
          q := TakeServed(nunits, prevp, p, w, old(g), grew);
          return q, false;
        }
        if !grew { PassesOn(mem, freep, base, brk, g, prevp, p, w, nunits); }
        if p == freep {
          assert !grew;
          q, wild := Morecore(nunits);
          if wild || q == 0 {
            return;
          }
          p := q;
          grew := true;
          w := WalkStart(mem, freep, base, brk, g);
        } else {
          w := WalkStep(mem, freep, base, brk, g, prevp, p, w);
        }
        prevp := p;
        p := mem[p].ptr;
      }
    }

    /** malloc.  A request from 15 bytes below 2 GB makes sbrk shrink the process; one
        whose size wraps gets a block that is too small; any other request is served or
        refused. */
    method Malloc(nbytes: uint32) returns (r: Outcome)
      requires Valid()
      modifies this`mem, this`freep, this`brk, this`g, this`asked, this`refused
      ensures r.Wild? <==> KERNBASE - 15 <= nbytes <= WRAP - UNIT
      ensures Valid() && freep != 0
      ensures r.Null? ==> g == old(g) && brk == old(brk)
      ensures r.Ptr? ==> Allocated(old(g), g, r.ap - UNIT, Units(nbytes), CoreUnits(Units(nbytes)))
      ensures r.Ptr? ==> (UNIT * (Units(nbytes) - 1) >= nbytes <==> nbytes <= WRAP - UNIT)
      ensures HasFit(old(g), Units(nbytes)) ==>
        r.Ptr? && brk == old(brk) && asked == old(asked) && Served(old(g), old(freep), g, freep, r.ap - UNIT, Units(nbytes))
      ensures !HasFit(old(g), Units(nbytes)) && !r.Wild? ==> asked == old(asked) + 1 && (r.Null? <==> refused == old(refused) + 1)
      ensures !HasFit(old(g), Units(nbytes)) && r.Ptr? ==> brk == old(brk) + MoreBytes(Units(nbytes)) && refused == old(refused)
    {
      UnitsSuffice(nbytes);
      WildIff(nbytes);
      if freep == 0 {
        HeapIs(mem, freep, base, brk, g);
        InitOk(mem, base, brk, g);
        mem := mem[base := Header(base, 0)];
        freep := base;
      }
      var q, wild := Scan(Units(nbytes));
      r := if wild then Wild else if q == 0 then Null else Ptr(q + UNIT);
    }
  }
}

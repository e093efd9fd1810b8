/** Which block malloc of lab2/umalloc.c hands out: the first one after freep on the ring
    that is large enough, or its end. */
module FirstFit {
  import opened Rings
  import opened Blocks
  import opened FreeList

  /** Node i of the ring has n units. */
  ghost predicate FitAt(g: Arena, i: int, n: int) { 0 <= i < |g.ring| && g.ring[i] in g.bs && g.bs[g.ring[i]] >= n }

  ghost predicate HasFit(g: Arena, n: int) { exists i :: FitAt(g, i, n) }

  /** The steps from node f around the ring of size nodes to node i, at least one. */
  function Steps(f: int, i: int, size: int): int { if f < i then i - f else i - f + size }

  /** Node k is the first after node f with n units. */
  ghost predicate IsFirst(g: Arena, f: int, n: int, k: int)
  {
    FitAt(g, k, n) && forall i :: FitAt(g, i, n) ==> Steps(f, k, |g.ring|) <= Steps(f, i, |g.ring|)
  }

  /** Block q of n units is the end of node k, which leaves the ring if nothing is left of
      it; no other node has changed. */
  ghost predicate CutFrom(g: Arena, g': Arena, q: int, n: int, k: int)
  {
    && 0 < k < |g.ring| && g.ring[k] in g.bs && q + UNIT * n == g.ring[k] + UNIT * g.bs[g.ring[k]]
    && g'.ring == (if g.bs[g.ring[k]] == n then Without(g.ring, k) else g.ring)
    && forall a :: a in g'.ring ==>
         a in g.bs && a in g'.bs && g'.bs[a] == if a == g.ring[k] then g.bs[a] - n else g.bs[a]
  }

  /** The first block after freep that fits was cut, and freep is now the node before it. */
  ghost predicate Served(g: Arena, freep: int, g': Arena, freep': int, q: int, n: int)
  {
    exists f, k :: 0 <= f < |g.ring| && g.ring[f] == freep && IsFirst(g, f, n, k) && CutFrom(g, g', q, n, k) && freep' == g.ring[k - 1]
  }

  lemma CutWhole(mem: Memory, freep: int, base: int, brk: int, g: Arena, k: nat)
    requires HeapOk(mem, freep, base, brk, g) && 0 < k < |g.ring|
    ensures g.ring[k] in g.bs && CutFrom(g, Unlinked(g, k), g.ring[k], g.bs[g.ring[k]], k)
  {
    HeapIs(mem, freep, base, brk, g);
    forall a | a in Without(g.ring, k) ensures a in g.bs && a != g.ring[k] {
      var i :| 0 <= i < |g.ring| - 1 && Without(g.ring, k)[i] == a;
      WithoutAt(g.ring, k, i);
    }
  }

  lemma CutTail(mem: Memory, freep: int, base: int, brk: int, g: Arena, k: nat, n: int)
    requires HeapOk(mem, freep, base, brk, g) && 0 < k < |g.ring| && g.ring[k] in g.bs && 1 <= n < g.bs[g.ring[k]]
    ensures CutFrom(g, Trimmed(g, k, n), Cut(g, k, n), n, k)
  {
    HeapIs(mem, freep, base, brk, g);
    SizesOk(g);
    TiledIs(g);
  }

  /** Nothing that the scan has passed has n units. */
  ghost predicate NonePassed(g: Arena, n: int, w: Walk)
  {
    forall i :: FitAt(g, i, n) ==> Steps(w.f, i, |g.ring|) >= |g.ring| - w.left
  }

  /** The node at which the scan stops is the first. */
  lemma StopsAtFirst(mem: Memory, freep: int, base: int, brk: int, g: Arena, prevp: int, p: int, w: Walk, n: int)
    requires HeapOk(mem, freep, base, brk, g) && freep != 0 && Walking(mem, freep, prevp, p, g, w) && NonePassed(g, n, w)
    requires 1 <= n <= mem[p].size
    ensures IsFirst(g, w.f, n, w.j + 1)
  {
    ScanOk(mem, freep, base, brk, g, w.j);
  }

  /** A node that is too small is passed; at freep the whole ring has been. */
  lemma PassesOn(mem: Memory, freep: int, base: int, brk: int, g: Arena, prevp: int, p: int, w: Walk, n: int)
    requires HeapOk(mem, freep, base, brk, g) && freep != 0 && Walking(mem, freep, prevp, p, g, w) && NonePassed(g, n, w)
    requires mem[p].size < n
    ensures p == freep ==> !HasFit(g, n)
    ensures p != freep && w.left > 0 ==> NonePassed(g, n, Walk(w.f, FreeList.After(g.ring, w.j), w.left - 1))
  {
    ScanOk(mem, freep, base, brk, g, w.j);
    HeapIs(mem, freep, base, brk, g);
  }
}

/** The units of lab2/umalloc.c, counted: what sbrk gave is free or live. */
module UnitCount {
  import opened Blocks
  import opened FreeList

  /** The units of the blocks at addresses lo to hi - 1 that are on the ring, or are not. */
  ghost function Total(bs: BlockMap, ring: seq<int>, free: bool, lo: int, hi: int): int
    decreases hi - lo
  {
    if hi <= lo then 0
    else Total(bs, ring, free, lo, hi - 1) + if hi - 1 in bs && (hi - 1 in ring) == free then bs[hi - 1] else 0
  }

  /** The addresses of n units from a on. */
  function Cells(a: int, n: int): (r: set<int>)
    requires n >= 0
    ensures |r| == n
    ensures forall u :: u in r <==> a <= u < a + UNIT * n && OnUnit(a, u)
  {
    if n == 0 then {} else Cells(a, n - 1) + {a + UNIT * (n - 1)}
  }

  /** The units in the blocks at addresses lo to hi - 1. */
  ghost function UnitsIn(units: map<int, int>, lo: int, hi: int): set<int> { set u | u in units && lo <= units[u] < hi }

  lemma BlockUnits(bs: BlockMap, units: map<int, int>, a: int)
    requires Partition(bs, units) && a in bs && bs[a] >= 0
    ensures UnitsIn(units, a, a + 1) == Cells(a, bs[a])
  {
    forall u ensures u in UnitsIn(units, a, a + 1) <==> u in Cells(a, bs[a]) {
      assert Covers(bs, a, u) <==> u in Cells(a, bs[a]);
    }
  }

  lemma {:induction false} UnitsCounted(bs: BlockMap, units: map<int, int>, ring: seq<int>, lo: int, hi: int)
    requires Partition(bs, units) && forall a :: a in bs ==> bs[a] >= 0
    ensures |UnitsIn(units, lo, hi)| == Total(bs, ring, true, lo, hi) + Total(bs, ring, false, lo, hi)
    decreases hi - lo
  {
    if hi <= lo {
      assert UnitsIn(units, lo, hi) == {};
    } else {
      var a := hi - 1;
      UnitsCounted(bs, units, ring, lo, a);
      var before, here := UnitsIn(units, lo, a), UnitsIn(units, a, hi);
      assert UnitsIn(units, lo, hi) == before + here && before !! here;
      if a in bs {
        BlockUnits(bs, units, a);
      } else {
        assert forall u :: u in units ==> units[u] in bs;
        assert here == {};
      }
    }
  }

  /** Conservation: free units and live units together are the units from sbrk. */
  lemma UnitsConserved(g: Arena)
    requires Tidy(g)
    ensures Total(g.bs, g.ring, true, g.base, g.brk) + Total(g.bs, g.ring, false, g.base, g.brk) == |g.units|
  {
    TiledIs(g);
    UnitsCounted(g.bs, g.units, g.ring, g.base, g.brk);
    forall u | u in g.units ensures u in UnitsIn(g.units, g.base, g.brk) {
      assert Covers(g.bs, g.units[u], u);
    }
    assert UnitsIn(g.units, g.base, g.brk) == g.units.Keys;
  }

  /** A live block overlaps no other block, live or free. */
  lemma LiveApart(g: Arena, a: int, b: int)
    requires Tidy(g) && a in Live(g.bs, g.ring) && b in g.bs && a != b
    ensures End(g.bs, a) <= b || End(g.bs, b) <= a
  {
    TiledIs(g);
    assert Apart(g.bs, a, b);
  }

  lemma CoreKeys(g: Arena, g': Arena, n: int)
    requires n >= 0 && Extended(g, g', n)
    ensures g'.units.Keys == g.units.Keys + Cells(g.brk, n)
  {
  }

  /** morecore of n units adds n units. */
  lemma CoreCounted(g: Arena, g': Arena, n: int)
    requires Tidy(g) && n >= 0 && Extended(g, g', n)
    ensures |g'.units| == |g.units| + n
  {
    CoreKeys(g, g', n);
    UnitsBelow(g);
    assert g.units.Keys !! Cells(g.brk, n);
  }

  lemma UnitsBelow(g: Arena)
    requires Tidy(g)
    ensures forall u :: u in g.units ==> u < g.brk
  {
    TiledIs(g);
    forall u | u in g.units ensures u < g.brk {
      assert Covers(g.bs, g.units[u], u);
    }
  }
}

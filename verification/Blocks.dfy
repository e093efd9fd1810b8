/** Address arithmetic for the user-level allocator of lab2/umalloc.c: blocks of
    8-byte units, a sorted ring of free blocks, and which block every unit
    obtained from sbrk belongs to. */
module Blocks {
  import opened Rings

  /** sizeof(Header). */
  const UNIT: int := 8

  /** Block address to its number of units, header included.  The static header
      `base` is a block of no units. */
  type BlockMap = map<int, int>

  function End(bs: BlockMap, a: int): int
    requires a in bs
  {
    a + UNIT * bs[a]
  }

  predicate Apart(bs: BlockMap, a: int, b: int)
    requires a in bs && b in bs
  {
    End(bs, a) <= b || End(bs, b) <= a
  }

  /** No two blocks overlap, and all but base have units. */
  ghost predicate BlocksOk(bs: BlockMap, base: int, brk: int)
  {
    && base in bs && bs[base] == 0
    && (forall a :: a in bs && a != base ==> bs[a] >= 1 && base + UNIT <= a && End(bs, a) <= brk)
    && (forall a, b {:trigger Apart(bs, a, b)} :: a in bs && b in bs && a != b ==> Apart(bs, a, b))
  }

  predicate OnUnit(a: int, u: int) { (u - a) % UNIT == 0 }

  predicate Covers(bs: BlockMap, a: int, u: int)
    requires a in bs
  {
    a <= u < End(bs, a) && OnUnit(a, u)
  }

  /** `units` maps each unit obtained from sbrk to the block it lies in: the
      blocks, free and live together, are exactly the units obtained. */
  ghost predicate Partition(bs: BlockMap, units: map<int, int>)
  {
    && (forall u :: u in units ==> units[u] in bs && Covers(bs, units[u], u))
    && (forall a, u {:trigger Covers(bs, a, u)} :: a in bs && Covers(bs, a, u) ==> u in units && units[u] == a)
  }

  /** The free list, from base upwards. */
  ghost predicate RingOk(bs: BlockMap, ring: seq<int>, base: int)
  {
    && ring != [] && ring[0] == base
    && (forall i :: 0 <= i < |ring| ==> ring[i] in bs)
    && (forall i, j :: 0 <= i < j < |ring| ==> ring[i] < ring[j])
  }

  /** Between two free blocks there is always a live one or a hole. */
  ghost predicate Coalesced(bs: BlockMap, ring: seq<int>)
    requires forall i :: 0 <= i < |ring| ==> ring[i] in bs
  {
    forall i, j :: 0 <= i < j < |ring| ==> End(bs, ring[i]) < ring[j]
  }

  function Succ(ring: seq<int>, i: nat): int
    requires i < |ring|
  {
    if i + 1 < |ring| then ring[i + 1] else ring[0]
  }

  // ------------------------------------------------------------------
  // Merging and splitting blocks
  // ------------------------------------------------------------------

  function Merge(bs: BlockMap, a: int, b: int): BlockMap
    requires a in bs && b in bs
  {
    (bs - {b})[a := bs[a] + bs[b]]
  }

  ghost function MergeUnits(units: map<int, int>, a: int, b: int): map<int, int>
  {
    map u | u in units :: if units[u] == b then a else units[u]
  }

  lemma MergeOk(bs: BlockMap, units: map<int, int>, base: int, brk: int, a: int, b: int)
    requires BlocksOk(bs, base, brk) && Partition(bs, units)
    requires a in bs && b in bs && a != base && b != base && End(bs, a) == b
    ensures BlocksOk(Merge(bs, a, b), base, brk)
    ensures Partition(Merge(bs, a, b), MergeUnits(units, a, b))
    ensures MergeUnits(units, a, b).Keys == units.Keys
  {
    var m := Merge(bs, a, b);
    var n := MergeUnits(units, a, b);
    assert a != b && End(m, a) == End(bs, b);
    forall x, y | x in m && y in m && x != y ensures Apart(m, x, y) {
      assert Apart(bs, x, y) && Apart(bs, x, b) && Apart(bs, y, b);
    }
    forall u | u in n ensures n[u] in m && Covers(m, n[u], u) {
      assert Covers(bs, units[u], u);
    }
    forall x, u | x in m && Covers(m, x, u) ensures u in n && n[u] == x {
      if x == a {
        assert Covers(bs, a, u) || Covers(bs, b, u);
      } else {
        assert Covers(bs, x, u);
      }
    }
  }

  /** The tail of n units of block a becomes a block of its own. */
  function Split(bs: BlockMap, a: int, n: int): BlockMap
    requires a in bs
  {
    bs[a := bs[a] - n][a + UNIT * (bs[a] - n) := n]
  }

  ghost function SplitUnits(units: map<int, int>, a: int, t: int): map<int, int>
  {
    map u | u in units :: if units[u] == a && t <= u then t else units[u]
  }

  lemma SplitOk(bs: BlockMap, units: map<int, int>, base: int, brk: int, a: int, n: int)
    requires BlocksOk(bs, base, brk) && Partition(bs, units)
    requires a in bs && a != base && 1 <= n < bs[a]
    ensures a + UNIT * (bs[a] - n) !in bs
    ensures BlocksOk(Split(bs, a, n), base, brk)
    ensures Partition(Split(bs, a, n), SplitUnits(units, a, a + UNIT * (bs[a] - n)))
    ensures SplitUnits(units, a, a + UNIT * (bs[a] - n)).Keys == units.Keys
  {
    var t := a + UNIT * (bs[a] - n);
    var m := Split(bs, a, n);
    var s := SplitUnits(units, a, t);
    assert t in bs ==> Apart(bs, a, t);
    assert t !in bs;
    assert End(m, t) == End(bs, a) && End(m, a) == t;
    forall x, y | x in m && y in m && x != y ensures Apart(m, x, y) {
      if x in bs && y in bs { assert Apart(bs, x, y); }
      if x in bs && y == t { assert x == a || Apart(bs, x, a); }
      if y in bs && x == t { assert y == a || Apart(bs, y, a); }
    }
    forall u | u in s ensures s[u] in m && Covers(m, s[u], u) {
      assert Covers(bs, units[u], u);
    }
    forall x, u | x in m && Covers(m, x, u) ensures u in s && s[u] == x {
      assert Covers(bs, if x == t then a else x, u);
    }
  }

  /** n fresh units at p, at or above the old break, become a block. */
  ghost function GrowUnits(units: map<int, int>, p: int, n: int): map<int, int>
  {
    units + (map u | p <= u < p + UNIT * n && OnUnit(p, u) :: p)
  }

  lemma GrowOk(bs: BlockMap, units: map<int, int>, base: int, brk: int, p: int, n: int, brk': int)
    requires BlocksOk(bs, base, brk) && Partition(bs, units)
    requires base + UNIT <= brk <= p && 1 <= n && p + UNIT * n <= brk'
    ensures p !in bs && BlocksOk(bs[p := n], base, brk')
    ensures Partition(bs[p := n], GrowUnits(units, p, n))
  {
    var m := bs[p := n];
    assert p !in bs;
    forall x, y | x in m && y in m && x != y ensures Apart(m, x, y) {
      if x in bs && y in bs { assert Apart(bs, x, y); }
    }
    var g := GrowUnits(units, p, n);
    forall u | u in g ensures g[u] in m && Covers(m, g[u], u) {
      if u in units { assert Covers(bs, units[u], u); }
    }
    forall x, u | x in m && Covers(m, x, u) ensures u in g && g[u] == x {
      if x != p { assert Covers(bs, x, u); }
    }
  }

  // ------------------------------------------------------------------
  // Putting a block back on the ring
  // ------------------------------------------------------------------

  /** Block b, not on the ring, belongs right after ring[t]. */
  ghost predicate Place(ring: seq<int>, t: nat, b: int)
  {
    t < |ring| && ring[t] < b && (t + 1 < |ring| ==> b < ring[t + 1])
  }

  /** b ends where the next free block begins. */
  ghost predicate TouchesNext(bs: BlockMap, ring: seq<int>, t: nat, b: int)
    requires b in bs
  {
    t + 1 < |ring| && End(bs, b) == ring[t + 1]
  }

  ghost function InsertBlocks(bs: BlockMap, ring: seq<int>, t: nat, b: int): BlockMap
    requires b in bs && forall i :: 0 <= i < |ring| ==> ring[i] in bs
  {
    if TouchesNext(bs, ring, t, b) then Merge(bs, b, ring[t + 1]) else bs
  }

  ghost function InsertRing(bs: BlockMap, ring: seq<int>, t: nat, b: int): seq<int>
    requires b in bs && t < |ring|
  {
    ring[..t + 1] + [b] + ring[if TouchesNext(bs, ring, t, b) then t + 2 else t + 1..]
  }

  /** Only ring[t] may still end where its successor begins. */
  ghost predicate CoalescedBut(bs: BlockMap, ring: seq<int>, t: nat)
    requires forall i :: 0 <= i < |ring| ==> ring[i] in bs
  {
    forall i, j :: 0 <= i < j < |ring| ==>
      End(bs, ring[i]) < ring[j] || (i == t && j == t + 1 && End(bs, ring[i]) == ring[j])
  }

  lemma InsertAt(bs: BlockMap, ring: seq<int>, t: nat, b: int, i: nat)
    requires b in bs && t < |ring| && i < |InsertRing(bs, ring, t, b)|
    ensures InsertRing(bs, ring, t, b)[i] ==
            if i <= t then ring[i] else if i == t + 1 then b
            else ring[if TouchesNext(bs, ring, t, b) then i else i - 1]
  {
  }

  lemma InsertRingOk(bs: BlockMap, ring: seq<int>, base: int, t: nat, b: int)
    requires RingOk(bs, ring, base) && b in bs && Place(ring, t, b)
    ensures RingOk(InsertBlocks(bs, ring, t, b), InsertRing(bs, ring, t, b), base)
  {
    var r := InsertRing(bs, ring, t, b);
    forall i | 0 <= i < |r|
      ensures r[i] in InsertBlocks(bs, ring, t, b) && forall j :: i < j < |r| ==> r[i] < r[j]
    {
      InsertAt(bs, ring, t, b, i);
      forall j | i < j < |r| ensures r[i] < r[j] { InsertAt(bs, ring, t, b, j); }
    }
  }

  lemma InsertOk(bs: BlockMap, ring: seq<int>, base: int, t: nat, b: int)
    requires RingOk(bs, ring, base) && Coalesced(bs, ring) && b in bs && Place(ring, t, b)
    requires End(bs, ring[t]) <= b && (t + 1 < |ring| ==> End(bs, b) <= ring[t + 1])
    ensures RingOk(InsertBlocks(bs, ring, t, b), InsertRing(bs, ring, t, b), base)
    ensures CoalescedBut(InsertBlocks(bs, ring, t, b), InsertRing(bs, ring, t, b), t)
  {
    InsertRingOk(bs, ring, base, t, b);
    var m, r := InsertBlocks(bs, ring, t, b), InsertRing(bs, ring, t, b);
    forall i, j | 0 <= i < j < |r|
      ensures End(m, r[i]) < r[j] || (i == t && j == t + 1 && End(m, r[i]) == r[j])
    {
      InsertAt(bs, ring, t, b, i);
      InsertAt(bs, ring, t, b, j);
      if i == t + 1 && TouchesNext(bs, ring, t, b) { assert End(m, b) == End(bs, ring[t + 1]); }
    }
  }

  ghost predicate TouchesPrev(bs: BlockMap, ring: seq<int>, t: nat)
    requires t + 1 < |ring| && ring[t] in bs
  {
    End(bs, ring[t]) == ring[t + 1]
  }

  /** The block at t swallows its successor on the ring. */
  lemma JoinOk(bs: BlockMap, ring: seq<int>, base: int, t: nat)
    requires RingOk(bs, ring, base) && CoalescedBut(bs, ring, t) && t + 1 < |ring|
    requires TouchesPrev(bs, ring, t)
    ensures RingOk(Merge(bs, ring[t], ring[t + 1]), Without(ring, t + 1), base)
    ensures Coalesced(Merge(bs, ring[t], ring[t + 1]), Without(ring, t + 1))
  {
    var m, r := Merge(bs, ring[t], ring[t + 1]), Without(ring, t + 1);
    forall i, j | 0 <= i < j < |r| ensures r[i] in m && r[j] in m && r[i] < r[j] && End(m, r[i]) < r[j] {
      assert r[i] == ring[if i <= t then i else i + 1] && r[j] == ring[if j <= t then j else j + 1];
      if i == t { assert End(m, r[i]) == End(bs, ring[t + 1]); }
    }
    assert r[0] == ring[0] && r[0] in m;
  }

  /** Taking a block off the ring. */
  lemma RemoveOk(bs: BlockMap, ring: seq<int>, base: int, i: nat)
    requires RingOk(bs, ring, base) && Coalesced(bs, ring) && 0 < i < |ring|
    ensures RingOk(bs, Without(ring, i), base) && Coalesced(bs, Without(ring, i))
    ensures forall a :: a in Without(ring, i) <==> a in ring && a != ring[i]
  {
    var r := Without(ring, i);
    assert forall k :: 0 <= k < |r| ==> r[k] == if k < i then ring[k] else ring[k + 1];
    forall a ensures a in r <==> a in ring && a != ring[i] { WithoutMembers(ring, i, a); }
  }

  /** The upper part of a free block is taken; the lower part stays on the ring. */
  lemma ShrinkOk(bs: BlockMap, ring: seq<int>, base: int, brk: int, i: nat, n: int)
    requires BlocksOk(bs, base, brk) && RingOk(bs, ring, base) && Coalesced(bs, ring)
    requires 0 < i < |ring| && 1 <= n < bs[ring[i]]
    ensures RingOk(Split(bs, ring[i], n), ring, base) && Coalesced(Split(bs, ring[i], n), ring)
    ensures ring[i] + UNIT * (bs[ring[i]] - n) !in ring
  {
    var a := ring[i];
    var t := a + UNIT * (bs[a] - n);
    forall k | 0 <= k < |ring| ensures ring[k] != t {
      if k != i { assert Apart(bs, ring[k], a); }
    }
  }
}

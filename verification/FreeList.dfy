/** How the ring of free blocks is threaded through the headers in memory. */
module FreeList {
  import opened Blocks
  import opened Rings
  import opened Sealing

  datatype Header = Header(ptr: int, size: int)
  type Memory = map<int, Header>

  /** ring[i] has its size in its header and, unless i is t, its successor. */
  predicate NodeOk(mem: Memory, bs: BlockMap, ring: seq<int>, t: int, i: nat)
    requires i < |ring|
  {
    && ring[i] in bs && ring[i] in mem && mem[ring[i]].size == bs[ring[i]]
    && (i != t ==> mem[ring[i]].ptr == Succ(ring, i))
  }

  /** Every node of the ring is linked, but perhaps for the pointer of node t;
      blocks off the ring keep their size. */
  ghost predicate LinkedBut(mem: Memory, bs: BlockMap, ring: seq<int>, t: int)
  {
    && (forall i :: 0 <= i < |ring| ==> NodeOk(mem, bs, ring, t, i))
    && (forall a :: a in bs && a !in ring ==> a in mem && mem[a].size == bs[a])
  }

  ghost predicate Linked(mem: Memory, bs: BlockMap, ring: seq<int>) { LinkedBut(mem, bs, ring, -1) }

  ghost function Live(bs: BlockMap, ring: seq<int>): set<int> { set a | a in bs && a !in ring }

  /** The header written by the first half of free. */
  function AttachNext(mem: Memory, b: int, next: int): Memory
    requires b in mem && next in mem
  {
    if b + UNIT * mem[b].size == next then mem[b := Header(mem[next].ptr, mem[b].size + mem[next].size)]
    else mem[b := Header(next, mem[b].size)]
  }

  lemma InsertMembers(bs: BlockMap, ring: seq<int>, t: nat, b: int, a: int)
    requires b in bs && t < |ring| && forall i, j :: 0 <= i < j < |ring| ==> ring[i] != ring[j]
    ensures a in InsertRing(bs, ring, t, b) <==>
            a == b || (a in ring && !(TouchesNext(bs, ring, t, b) && a == ring[t + 1]))
  {
    var r := InsertRing(bs, ring, t, b);
    if a in r {
      var i :| 0 <= i < |r| && r[i] == a;
      InsertAt(bs, ring, t, b, i);
    }
    if a in ring && !(TouchesNext(bs, ring, t, b) && a == ring[t + 1]) {
      var i :| 0 <= i < |ring| && ring[i] == a;
      var j := if i <= t then i else if TouchesNext(bs, ring, t, b) then i else i + 1;
      InsertAt(bs, ring, t, b, j);
    }
    assert r[t + 1] == b;
  }

  /** The pointer found at ring[t] leads to a node. */
  lemma NextNode(mem: Memory, bs: BlockMap, ring: seq<int>, t: nat)
    requires Linked(mem, bs, ring) && t < |ring|
    ensures ring[t] in mem && mem[ring[t]].ptr == Succ(ring, t) && Succ(ring, t) in mem && Succ(ring, t) in bs
    ensures mem[Succ(ring, t)].size == bs[Succ(ring, t)]
    ensures t + 1 < |ring| ==> mem[ring[t + 1]].ptr == Succ(ring, t + 1)
  {
    assert NodeOk(mem, bs, ring, -1, t);
    assert NodeOk(mem, bs, ring, -1, if t + 1 < |ring| then t + 1 else 0);
  }

  lemma AttachNextNode(mem: Memory, bs: BlockMap, ring: seq<int>, base: int, t: nat, b: int, i: nat)
    requires RingOk(bs, ring, base) && Linked(mem, bs, ring)
    requires b in bs && b in mem && b !in ring && Place(ring, t, b) && base < b
    requires bs[b] == mem[b].size >= 1
    requires i < |InsertRing(bs, ring, t, b)|
    ensures Succ(ring, t) in mem
    ensures NodeOk(AttachNext(mem, b, Succ(ring, t)), InsertBlocks(bs, ring, t, b), InsertRing(bs, ring, t, b), t, i)
  {
    NextNode(mem, bs, ring, t);
    var r := InsertRing(bs, ring, t, b);
    InsertAt(bs, ring, t, b, i);
    if i + 1 < |r| { InsertAt(bs, ring, t, b, i + 1); }
    if i <= t {
      assert NodeOk(mem, bs, ring, -1, i);
    } else if i > t + 1 {
      assert NodeOk(mem, bs, ring, -1, if TouchesNext(bs, ring, t, b) then i else i - 1);
    }
  }

  /** First half of free: b joins the ring, and swallows its successor if they touch. */
  lemma AttachNextLinks(mem: Memory, bs: BlockMap, ring: seq<int>, base: int, t: nat, b: int)
    requires RingOk(bs, ring, base) && Linked(mem, bs, ring)
    requires b in bs && b !in ring && Place(ring, t, b) && base < b && bs[b] >= 1
    ensures b in mem && Succ(ring, t) in mem
    ensures LinkedBut(AttachNext(mem, b, Succ(ring, t)), InsertBlocks(bs, ring, t, b), InsertRing(bs, ring, t, b), t)
    ensures b + UNIT * mem[b].size == Succ(ring, t) <==> TouchesNext(bs, ring, t, b)
    ensures Live(InsertBlocks(bs, ring, t, b), InsertRing(bs, ring, t, b)) == Live(bs, ring) - {b}
  {
    NextNode(mem, bs, ring, t);
    var m, r := InsertBlocks(bs, ring, t, b), InsertRing(bs, ring, t, b);
    forall i | 0 <= i < |r| ensures NodeOk(AttachNext(mem, b, Succ(ring, t)), m, r, t, i) {
      AttachNextNode(mem, bs, ring, base, t, b, i);
    }
    forall a ensures a in r <==> a == b || (a in ring && !(TouchesNext(bs, ring, t, b) && a == ring[t + 1])) {
      InsertMembers(bs, ring, t, b, a);
    }
  }

  function Joined(mem: Memory, p: int, b: int): Memory
    requires p in mem && b in mem
  {
    mem[p := Header(mem[b].ptr, mem[p].size + mem[b].size)]
  }

  lemma JoinNode(mem: Memory, bs: BlockMap, ring: seq<int>, base: int, t: nat, i: nat)
    requires RingOk(bs, ring, base) && LinkedBut(mem, bs, ring, t) && t + 1 < |ring| && i < |ring| - 1
    ensures ring[t] in mem && ring[t + 1] in mem
    ensures NodeOk(Joined(mem, ring[t], ring[t + 1]), Merge(bs, ring[t], ring[t + 1]), Without(ring, t + 1), -1, i)
  {
    var r := Without(ring, t + 1);
    assert NodeOk(mem, bs, ring, t, t) && NodeOk(mem, bs, ring, t, t + 1);
    var j := if i <= t then i else i + 1;
    assert r[i] == ring[j] && NodeOk(mem, bs, ring, t, j);
    if i + 1 < |r| { assert r[i + 1] == ring[if i + 1 <= t then i + 1 else i + 2]; }
  }

  /** Second half of free, when p and b touch: p swallows b. */
  lemma JoinLinks(mem: Memory, bs: BlockMap, ring: seq<int>, base: int, t: nat)
    requires RingOk(bs, ring, base) && LinkedBut(mem, bs, ring, t) && t + 1 < |ring|
    ensures ring[t] in mem && ring[t + 1] in mem
    ensures Linked(Joined(mem, ring[t], ring[t + 1]), Merge(bs, ring[t], ring[t + 1]), Without(ring, t + 1))
    ensures Live(Merge(bs, ring[t], ring[t + 1]), Without(ring, t + 1)) == Live(bs, ring)
  {
    JoinNode(mem, bs, ring, base, t, t);
    var r, m, bs' := Without(ring, t + 1), Joined(mem, ring[t], ring[t + 1]), Merge(bs, ring[t], ring[t + 1]);
    forall i | 0 <= i < |r| ensures NodeOk(m, bs', r, -1, i) {
      JoinNode(mem, bs, ring, base, t, i);
    }
    forall a ensures a in r <==> a in ring && a != ring[t + 1] { WithoutMembers(ring, t + 1, a); }
  }

  /** Second half of free, when they do not touch: p points to b. */
  lemma PointLinks(mem: Memory, bs: BlockMap, ring: seq<int>, base: int, t: nat)
    requires RingOk(bs, ring, base) && LinkedBut(mem, bs, ring, t) && t + 1 < |ring|
    ensures ring[t] in mem
    ensures Linked(mem[ring[t] := Header(ring[t + 1], mem[ring[t]].size)], bs, ring)
  {
    assert NodeOk(mem, bs, ring, t, t);
    var mem' := mem[ring[t] := Header(ring[t + 1], mem[ring[t]].size)];
    forall i | 0 <= i < |ring| ensures NodeOk(mem', bs, ring, -1, i) {
      assert NodeOk(mem, bs, ring, t, i);
    }
  }

  // ------------------------------------------------------------------
  // The allocator's state, and what free does to it
  // ------------------------------------------------------------------

  /** The blocks, the unit each belongs to, and the ring, as ghost state. */
  datatype Arena = Arena(bs: BlockMap, units: map<int, int>, ring: seq<int>, base: int, brk: int)

  /** The blocks are disjoint and are the units obtained. */
  ghost predicate Tiled(g: Arena)
  {
    forall x {:trigger Seal(x)} :: Seal(x) ==> BlocksOk(g.bs, g.base, g.brk) && Partition(g.bs, g.units)
  }

  lemma TiledIs(g: Arena)
    requires Tiled(g)
    ensures BlocksOk(g.bs, g.base, g.brk) && Partition(g.bs, g.units)
  {
    assert Seal(0);
  }

  ghost predicate Tidy(g: Arena)
  {
    Tiled(g) && RingOk(g.bs, g.ring, g.base) && Coalesced(g.bs, g.ring)
  }

  /** After the first half of free: the block at t + 1 is not yet reached from t. */
  ghost predicate HalfFreed(mem: Memory, g: Arena, t: nat)
  {
    && Tiled(g) && RingOk(g.bs, g.ring, g.base) && CoalescedBut(g.bs, g.ring, t)
    && LinkedBut(mem, g.bs, g.ring, t) && t + 1 < |g.ring|
  }

  /** g' has the live blocks `live` with their sizes as in g, and the same units. */
  ghost predicate SameLive(g: Arena, g': Arena, live: set<int>)
  {
    && g'.base == g.base && g'.brk == g.brk && g'.units.Keys == g.units.Keys
    && Live(g'.bs, g'.ring) == live
    && (forall a :: a in live ==> a in g.bs && a in g'.bs && g'.bs[a] == g.bs[a])
  }

  ghost function Inserted(g: Arena, t: nat, b: int): Arena
    requires b in g.bs && t < |g.ring| && forall i :: 0 <= i < |g.ring| ==> g.ring[i] in g.bs
  {
    Arena(InsertBlocks(g.bs, g.ring, t, b),
          if TouchesNext(g.bs, g.ring, t, b) then MergeUnits(g.units, b, g.ring[t + 1]) else g.units,
          InsertRing(g.bs, g.ring, t, b), g.base, g.brk)
  }

  lemma InsertedOk(mem: Memory, g: Arena, t: nat, b: int)
    requires Tidy(g) && Linked(mem, g.bs, g.ring) && b in Live(g.bs, g.ring) && Place(g.ring, t, b)
    ensures b in mem && Succ(g.ring, t) in mem
    ensures HalfFreed(AttachNext(mem, b, Succ(g.ring, t)), Inserted(g, t, b), t)
    ensures SameLive(g, Inserted(g, t, b), Live(g.bs, g.ring) - {b})
    ensures Inserted(g, t, b).ring[t] == g.ring[t] && Inserted(g, t, b).ring[t + 1] == b
  {
    InsertedTiled(g, t, b);
    InsertOk(g.bs, g.ring, g.base, t, b);
    AttachNextLinks(mem, g.bs, g.ring, g.base, t, b);
  }

  lemma InsertedTiled(g: Arena, t: nat, b: int)
    requires Tiled(g) && RingOk(g.bs, g.ring, g.base) && b in Live(g.bs, g.ring) && Place(g.ring, t, b)
    ensures End(g.bs, g.ring[t]) <= b && (t + 1 < |g.ring| ==> End(g.bs, b) <= g.ring[t + 1])
    ensures g.bs[b] >= 1 && g.base < b
    ensures Tiled(Inserted(g, t, b)) && Inserted(g, t, b).units.Keys == g.units.Keys
  {
    TiledIs(g);
    assert Apart(g.bs, g.ring[t], b);
    assert t + 1 < |g.ring| ==> Apart(g.bs, b, g.ring[t + 1]);
    if TouchesNext(g.bs, g.ring, t, b) {
      MergeOk(g.bs, g.units, g.base, g.brk, b, g.ring[t + 1]);
    }
  }

  /** The header written by the second half of free. */
  function AttachPrev(mem: Memory, p: int, b: int): Memory
    requires p in mem && b in mem
  {
    if p + UNIT * mem[p].size == b then Joined(mem, p, b) else mem[p := Header(b, mem[p].size)]
  }

  ghost function Settled(g: Arena, t: nat): Arena
    requires t + 1 < |g.ring| && g.ring[t] in g.bs && g.ring[t + 1] in g.bs
  {
    if TouchesPrev(g.bs, g.ring, t) then
      Arena(Merge(g.bs, g.ring[t], g.ring[t + 1]), MergeUnits(g.units, g.ring[t], g.ring[t + 1]),
            Without(g.ring, t + 1), g.base, g.brk)
    else g
  }

  lemma SettledOk(mem: Memory, g: Arena, t: nat)
    requires HalfFreed(mem, g, t)
    ensures g.ring[t] in mem && g.ring[t + 1] in mem
    ensures Tidy(Settled(g, t))
    ensures Linked(AttachPrev(mem, g.ring[t], g.ring[t + 1]), Settled(g, t).bs, Settled(g, t).ring)
    ensures SameLive(g, Settled(g, t), Live(g.bs, g.ring)) && g.ring[t] in Settled(g, t).ring
  {
    assert NodeOk(mem, g.bs, g.ring, t, t) && NodeOk(mem, g.bs, g.ring, t, t + 1);
    if TouchesPrev(g.bs, g.ring, t) {
      JoinOk(g.bs, g.ring, g.base, t);
      JoinLinks(mem, g.bs, g.ring, g.base, t);
      SettledTiled(g, t);
      assert Without(g.ring, t + 1)[t] == g.ring[t];
    } else {
      PointLinks(mem, g.bs, g.ring, g.base, t);
    }
  }

  lemma SettledTiled(g: Arena, t: nat)
    requires Tiled(g) && RingOk(g.bs, g.ring, g.base) && t + 1 < |g.ring| && TouchesPrev(g.bs, g.ring, t)
    ensures Tiled(Settled(g, t)) && Settled(g, t).units.Keys == g.units.Keys
  {
    TiledIs(g);
    MergeOk(g.bs, g.units, g.base, g.brk, g.ring[t], g.ring[t + 1]);
  }

  /** A block of n units is free at p or right after it. */
  predicate RoomNear(mem: Memory, p: int, n: int)
  {
    p in mem && mem[p].ptr in mem && (mem[p].size >= n || mem[mem[p].ptr].size >= n)
  }

  /** Both halves of free: the memory they leave and the arena it stands for. */
  function FreedMem(mem: Memory, p: int, next: int, b: int): Memory
    requires p in mem && next in mem && b in mem && p != b
  {
    AttachPrev(AttachNext(mem, b, next), p, b)
  }

  ghost predicate Freed(mem: Memory, g: Arena, t: nat, b: int, mem': Memory, g': Arena)
    requires t < |g.ring| && b in g.bs
  {
    && Tidy(g') && Linked(mem', g'.bs, g'.ring) && g.ring[t] in g'.ring
    && SameLive(g, g', Live(g.bs, g.ring) - {b})
    && RoomNear(mem', g.ring[t], g.bs[b])
  }

  lemma FreedOk(mem: Memory, g: Arena, t: nat, b: int) returns (g': Arena)
    requires Tidy(g) && Linked(mem, g.bs, g.ring) && b in Live(g.bs, g.ring) && Place(g.ring, t, b)
    ensures g.ring[t] in mem && b in mem && Succ(g.ring, t) in mem && mem[g.ring[t]].ptr == Succ(g.ring, t)
    ensures Freed(mem, g, t, b, FreedMem(mem, g.ring[t], Succ(g.ring, t), b), g')
  {
    NextNode(mem, g.bs, g.ring, t);
    InsertedOk(mem, g, t, b);
    var g1 := Inserted(g, t, b);
    SettledOk(AttachNext(mem, b, Succ(g.ring, t)), g1, t);
    g' := Settled(g1, t);
    SizesOk(g);
    FreedRoom(mem, g, t, b, g');
  }

  lemma SizesOk(g: Arena)
    requires Tiled(g)
    ensures forall a :: a in g.bs ==> g.bs[a] >= 0 && End(g.bs, a) <= if a == g.base then a else g.brk
    ensures forall a :: a in g.bs && g.bs[a] >= 1 ==> g.base < a
  {
    TiledIs(g);
  }

  lemma FreedRoom(mem: Memory, g: Arena, t: nat, b: int, g': Arena)
    requires Linked(mem, g.bs, g.ring) && b in Live(g.bs, g.ring) && t < |g.ring|
    requires (forall a :: a in g.bs ==> g.bs[a] >= 0) && g.ring[t] in mem && b in mem && Succ(g.ring, t) in mem && Succ(g.ring, t) in g.bs
    requires Linked(FreedMem(mem, g.ring[t], Succ(g.ring, t), b), g'.bs, g'.ring) && g.ring[t] in g'.ring
    ensures RoomNear(FreedMem(mem, g.ring[t], Succ(g.ring, t), b), g.ring[t], g.bs[b])
  {
    var k :| 0 <= k < |g'.ring| && g'.ring[k] == g.ring[t];
    NextNode(FreedMem(mem, g.ring[t], Succ(g.ring, t), b), g'.bs, g'.ring, k);
    NextNode(mem, g.bs, g.ring, t);
    assert NodeOk(mem, g.bs, g.ring, -1, t);
  }

  // ------------------------------------------------------------------
  // What malloc does to it
  // ------------------------------------------------------------------

  /** The node found fits exactly: unlink it from its predecessor. */
  ghost function Unlinked(g: Arena, i: nat): Arena
    requires i < |g.ring|
  {
    g.(ring := Without(g.ring, i))
  }

  lemma UnlinkNode(mem: Memory, bs: BlockMap, ring: seq<int>, j: nat, i: nat)
    requires Linked(mem, bs, ring) && j + 1 < |ring| && i < |ring| - 1
    requires forall a, b :: 0 <= a < b < |ring| ==> ring[a] != ring[b]
    ensures ring[j] in mem && ring[j + 1] in mem
    ensures NodeOk(mem[ring[j] := Header(mem[ring[j + 1]].ptr, mem[ring[j]].size)], bs, Without(ring, j + 1), -1, i)
  {
    NextNode(mem, bs, ring, j);
    var k := if i <= j then i else i + 1;
    WithoutAt(ring, j + 1, i);
    WithoutAt(ring, j + 1, 0);
    if i + 1 < |ring| - 1 { WithoutAt(ring, j + 1, i + 1); }
    assert NodeOk(mem, bs, ring, -1, k);
  }

  lemma UnlinkLinks(mem: Memory, bs: BlockMap, ring: seq<int>, j: nat)
    requires Linked(mem, bs, ring) && j + 1 < |ring|
    requires forall a, b :: 0 <= a < b < |ring| ==> ring[a] != ring[b]
    ensures ring[j] in mem && ring[j + 1] in mem
    ensures Linked(mem[ring[j] := Header(mem[ring[j + 1]].ptr, mem[ring[j]].size)], bs, Without(ring, j + 1))
    ensures Live(bs, Without(ring, j + 1)) == Live(bs, ring) + {ring[j + 1]} && ring[j] in Without(ring, j + 1)
  {
    NextNode(mem, bs, ring, j);
    var m := mem[ring[j] := Header(mem[ring[j + 1]].ptr, mem[ring[j]].size)];
    var r := Without(ring, j + 1);
    forall i | 0 <= i < |r| ensures NodeOk(m, bs, r, -1, i) {
      UnlinkNode(mem, bs, ring, j, i);
    }
    forall a ensures a in r <==> a in ring && a != ring[j + 1] { WithoutMembers(ring, j + 1, a); }
    assert NodeOk(mem, bs, ring, -1, j + 1);
  }

  lemma UnlinkedOk(mem: Memory, g: Arena, j: nat)
    requires Tidy(g) && Linked(mem, g.bs, g.ring) && j + 1 < |g.ring|
    ensures g.ring[j] in mem && g.ring[j + 1] in mem && Tidy(Unlinked(g, j + 1))
    ensures Linked(mem[g.ring[j] := Header(mem[g.ring[j + 1]].ptr, mem[g.ring[j]].size)],
                   g.bs, Unlinked(g, j + 1).ring)
    ensures Live(g.bs, Unlinked(g, j + 1).ring) == Live(g.bs, g.ring) + {g.ring[j + 1]}
    ensures g.ring[j] in Unlinked(g, j + 1).ring
  {
    UnlinkLinks(mem, g.bs, g.ring, j);
    RemoveOk(g.bs, g.ring, g.base, j + 1);
    UnlinkedTiled(g, j);
  }

  /** The node found is larger: its last n units become the block handed out. */
  ghost function Trimmed(g: Arena, i: nat, n: int): Arena
    requires i < |g.ring| && g.ring[i] in g.bs
  {
    g.(bs := Split(g.bs, g.ring[i], n), units := SplitUnits(g.units, g.ring[i], Cut(g, i, n)))
  }

  function Cut(g: Arena, i: nat, n: int): int
    requires i < |g.ring| && g.ring[i] in g.bs
  {
    g.ring[i] + UNIT * (g.bs[g.ring[i]] - n)
  }

  /** The two sizes written; the pointer field of the new header is not. */
  function TrimMem(mem: Memory, p: int, n: int, junk: int): Memory
    requires p in mem
  {
    mem[p := Header(mem[p].ptr, mem[p].size - n)][p + UNIT * (mem[p].size - n) := Header(junk, n)]
  }

  lemma TrimLinks(mem: Memory, bs: BlockMap, ring: seq<int>, i: nat, n: int, junk: int)
    requires Linked(mem, bs, ring) && i < |ring| && ring[i] in bs && n >= 1
    requires forall j, k :: 0 <= j < k < |ring| ==> ring[j] != ring[k]
    requires ring[i] + UNIT * (bs[ring[i]] - n) !in bs
    ensures ring[i] in mem
    ensures Linked(TrimMem(mem, ring[i], n, junk), Split(bs, ring[i], n), ring)
    ensures Live(Split(bs, ring[i], n), ring) == Live(bs, ring) + {ring[i] + UNIT * (bs[ring[i]] - n)}
  {
    assert NodeOk(mem, bs, ring, -1, i);
    var m, bs' := TrimMem(mem, ring[i], n, junk), Split(bs, ring[i], n);
    forall k | 0 <= k < |ring| ensures NodeOk(m, bs', ring, -1, k) && ring[k] in bs {
      assert NodeOk(mem, bs, ring, -1, k);
    }
  }

  lemma TrimmedOk(mem: Memory, g: Arena, i: nat, n: int, junk: int)
    requires Tidy(g) && Linked(mem, g.bs, g.ring) && 0 < i < |g.ring| && 1 <= n < g.bs[g.ring[i]]
    ensures g.ring[i] in mem && mem[g.ring[i]].size == g.bs[g.ring[i]]
    ensures Cut(g, i, n) !in g.bs && Tidy(Trimmed(g, i, n))
    ensures Linked(TrimMem(mem, g.ring[i], n, junk), Trimmed(g, i, n).bs, g.ring)
    ensures Live(Trimmed(g, i, n).bs, g.ring) == Live(g.bs, g.ring) + {Cut(g, i, n)}
    ensures Trimmed(g, i, n).units.Keys == g.units.Keys
  {
    assert NodeOk(mem, g.bs, g.ring, -1, i);
    TrimmedTiled(g, i, n);
    TrimmedRing(g, i, n);
    TrimLinks(mem, g.bs, g.ring, i, n, junk);
  }

  lemma TrimmedTiled(g: Arena, i: nat, n: int)
    requires Tiled(g) && RingOk(g.bs, g.ring, g.base) && 0 < i < |g.ring| && 1 <= n < g.bs[g.ring[i]]
    ensures Cut(g, i, n) !in g.bs && Tiled(Trimmed(g, i, n)) && Trimmed(g, i, n).units.Keys == g.units.Keys
  {
    TiledIs(g);
    SplitOk(g.bs, g.units, g.base, g.brk, g.ring[i], n);
  }

  lemma TrimmedRing(g: Arena, i: nat, n: int)
    requires Tidy(g) && 0 < i < |g.ring| && 1 <= n < g.bs[g.ring[i]]
    ensures RingOk(Trimmed(g, i, n).bs, g.ring, g.base) && Coalesced(Trimmed(g, i, n).bs, g.ring)
  {
    TiledIs(g);
    ShrinkOk(g.bs, g.ring, g.base, g.brk, i, n);
  }

  /** sbrk returned p, at or above the old break: n units there are a live block. */
  ghost function Grown(g: Arena, p: int, n: int, brk: int): Arena
  {
    Arena(g.bs[p := n], GrowUnits(g.units, p, n), g.ring, g.base, brk)
  }

  lemma GrownOk(mem: Memory, g: Arena, p: int, n: int, brk: int, junk: int)
    requires Tidy(g) && Linked(mem, g.bs, g.ring)
    requires g.base + UNIT <= g.brk <= p && 1 <= n && p + UNIT * n <= brk
    ensures p !in g.bs && Tidy(Grown(g, p, n, brk))
    ensures Linked(mem[p := Header(junk, n)], Grown(g, p, n, brk).bs, g.ring)
    ensures Live(Grown(g, p, n, brk).bs, g.ring) == Live(g.bs, g.ring) + {p}
  {
    GrownTiled(g, p, n, brk);
    var m, bs' := mem[p := Header(junk, n)], Grown(g, p, n, brk).bs;
    forall k | 0 <= k < |g.ring| ensures NodeOk(m, bs', g.ring, -1, k) {
      assert NodeOk(mem, g.bs, g.ring, -1, k);
    }
  }

  lemma GrownTiled(g: Arena, p: int, n: int, brk: int)
    requires Tiled(g) && g.base + UNIT <= g.brk <= p && 1 <= n && p + UNIT * n <= brk
    ensures p !in g.bs && Tiled(Grown(g, p, n, brk))
  {
    TiledIs(g);
    GrowOk(g.bs, g.units, g.base, g.brk, p, n, brk);
  }

  /** g' is g after block q of n units was handed out. */
  ghost predicate Taken(g: Arena, g': Arena, q: int, n: int)
  {
    && g'.base == g.base && g'.brk == g.brk && g'.units.Keys == g.units.Keys
    && q !in Live(g.bs, g.ring) && Live(g'.bs, g'.ring) == Live(g.bs, g.ring) + {q}
    && q in g'.bs && g'.bs[q] == n && g.base < q && q + UNIT * n <= g.brk
    && (forall a :: a in Live(g.bs, g.ring) ==> a in g'.bs && g'.bs[a] == g.bs[a])
  }

  lemma TakeWhole(mem: Memory, g: Arena, j: nat)
    requires Tidy(g) && Linked(mem, g.bs, g.ring) && j + 1 < |g.ring|
    ensures Tidy(Unlinked(g, j + 1)) && Taken(g, Unlinked(g, j + 1), g.ring[j + 1], g.bs[g.ring[j + 1]])
  {
    UnlinkedOk(mem, g, j);
    UnlinkedTiled(g, j);
  }

  lemma UnlinkedTiled(g: Arena, j: nat)
    requires Tidy(g) && j + 1 < |g.ring|
    ensures Tiled(Unlinked(g, j + 1)) && g.base < g.ring[j + 1] && End(g.bs, g.ring[j + 1]) <= g.brk
  {
    TiledIs(g);
  }

  lemma TakeTail(mem: Memory, g: Arena, i: nat, n: int)
    requires Tidy(g) && Linked(mem, g.bs, g.ring) && 0 < i < |g.ring| && 1 <= n < g.bs[g.ring[i]]
    ensures Tidy(Trimmed(g, i, n)) && Taken(g, Trimmed(g, i, n), Cut(g, i, n), n)
  {
    TrimmedOk(mem, g, i, n, 0);
    SizesOk(g);
  }

  /** g' is g after n more units came from sbrk: no live block has changed, and
      the units are the old ones and n new ones at the old break. */
  ghost predicate Extended(g: Arena, g': Arena, n: int)
  {
    && g'.base == g.base
    && Live(g'.bs, g'.ring) == Live(g.bs, g.ring)
    && (forall a :: a in Live(g.bs, g.ring) ==> a in g'.bs && g'.bs[a] == g.bs[a])
    && g'.units.Keys == GrowUnits(g.units, g.brk, n).Keys
  }

  lemma ExtendedOk(mem: Memory, g: Arena, q: int, n: int, brk: int, g': Arena)
    requires q == g.brk && q !in g.bs
    requires Live(Grown(g, q, n, brk).bs, g.ring) == Live(g.bs, g.ring) + {q}
    requires SameLive(Grown(g, q, n, brk), g', Live(Grown(g, q, n, brk).bs, g.ring) - {q})
    ensures Extended(g, g', n)
  {
    assert Live(g'.bs, g'.ring) == Live(g.bs, g.ring);
  }

  /** g' is g after block q of n units was handed out, with or without a call of
      sbrk on the way. */
  ghost predicate Allocated(g: Arena, g': Arena, q: int, n: int, core: int)
  {
    && q !in Live(g.bs, g.ring) && Live(g'.bs, g'.ring) == Live(g.bs, g.ring) + {q}
    && q in g'.bs && g'.bs[q] == n
    && (forall a :: a in Live(g.bs, g.ring) ==> a in g'.bs && g'.bs[a] == g.bs[a])
    && (g'.units.Keys == g.units.Keys || g'.units.Keys == GrowUnits(g.units, g.brk, core).Keys)
  }

  lemma TakenIsAllocated(g: Arena, g1: Arena, g': Arena, q: int, n: int, core: int)
    requires (g1 == g || Extended(g, g1, core)) && Taken(g1, g', q, n)
    ensures Allocated(g, g', q, n, core)
  {
  }

  // ------------------------------------------------------------------
  // The invariant of the allocator
  // ------------------------------------------------------------------

  /** User memory ends here. */
  const KERNBASE: int := 0x8000_0000

  /** What holds between calls.  Before the first malloc, freep is 0 and memory
      holds no ring yet. */
  ghost predicate HeapOk(mem: Memory, freep: int, base: int, brk: int, g: Arena)
  {
    && 0 < base && base + UNIT <= brk <= KERNBASE && g.base == base && g.brk == brk
    && forall x {:trigger Key(x)} :: Key(x) ==> Threaded(mem, freep, g)
  }

  ghost predicate Threaded(mem: Memory, freep: int, g: Arena)
  {
    && Tidy(g)
    && (freep == 0 ==> g.bs == map[g.base := 0] && g.ring == [g.base])
    && (freep != 0 ==> Linked(mem, g.bs, g.ring) && freep in g.ring)
  }

  lemma HeapIs(mem: Memory, freep: int, base: int, brk: int, g: Arena)
    requires HeapOk(mem, freep, base, brk, g)
    ensures Threaded(mem, freep, g)
  {
    assert Key(0);
  }

  lemma NewHeapOk(base: int, brk: int)
    requires 0 < base && base + UNIT <= brk <= KERNBASE
    ensures HeapOk(map[], 0, base, brk, Arena(map[base := 0], map[], [base], base, brk))
  {
  }

  lemma InitOk(mem: Memory, base: int, brk: int, g: Arena)
    requires HeapOk(mem, 0, base, brk, g)
    ensures HeapOk(mem[base := Header(base, 0)], base, base, brk, g)
  {
    HeapIs(mem, 0, base, brk, g);
    assert NodeOk(mem[base := Header(base, 0)], g.bs, g.ring, -1, 0);
  }

  lemma RaiseOk(mem: Memory, freep: int, base: int, brk: int, g: Arena, brk': int)
    requires HeapOk(mem, freep, base, brk, g) && brk <= brk' <= KERNBASE
    ensures HeapOk(mem, freep, base, brk', g.(brk := brk'))
  {
    HeapIs(mem, freep, base, brk, g);
    TiledIs(g);
  }

  /** free. */
  lemma FreeOk(mem: Memory, freep: int, base: int, brk: int, g: Arena, t: nat, b: int) returns (g': Arena)
    requires HeapOk(mem, freep, base, brk, g) && freep != 0 && b in Live(g.bs, g.ring) && Place(g.ring, t, b)
    ensures g.ring[t] in mem && b in mem && Succ(g.ring, t) in mem && mem[g.ring[t]].ptr == Succ(g.ring, t)
    ensures g.ring[t] != 0
    ensures HeapOk(FreedMem(mem, g.ring[t], Succ(g.ring, t), b), g.ring[t], base, brk, g')
    ensures SameLive(g, g', Live(g.bs, g.ring) - {b})
    ensures RoomNear(FreedMem(mem, g.ring[t], Succ(g.ring, t), b), g.ring[t], g.bs[b])
  {
    HeapIs(mem, freep, base, brk, g);
    g' := FreedOk(mem, g, t, b);
  }

  /** The part of morecore before its call of free. */
  lemma CoreOk(mem: Memory, freep: int, base: int, brk: int, g: Arena, n: int, brk': int, junk: int)
    requires HeapOk(mem, freep, base, brk, g) && freep != 0 && 1 <= n && brk + UNIT * n <= brk' <= KERNBASE
    ensures brk !in g.bs && HeapOk(mem[brk := Header(junk, n)], freep, base, brk', Grown(g, brk, n, brk'))
    ensures Live(Grown(g, brk, n, brk').bs, g.ring) == Live(g.bs, g.ring) + {brk}
  {
    HeapIs(mem, freep, base, brk, g);
    GrownOk(mem, g, brk, n, brk', junk);
  }

  /** malloc, when the node after ring[j] has n units. */
  lemma TakeAllOk(mem: Memory, freep: int, base: int, brk: int, g: Arena, j: nat)
    requires HeapOk(mem, freep, base, brk, g) && freep != 0 && j + 1 < |g.ring|
    ensures g.ring[j] in mem && g.ring[j + 1] in mem && g.ring[j] != 0 && g.ring[j + 1] in g.bs
    ensures HeapOk(mem[g.ring[j] := Header(mem[g.ring[j + 1]].ptr, mem[g.ring[j]].size)], g.ring[j], base, brk,
                   Unlinked(g, j + 1))
    ensures Taken(g, Unlinked(g, j + 1), g.ring[j + 1], g.bs[g.ring[j + 1]])
  {
    HeapIs(mem, freep, base, brk, g);
    UnlinkedOk(mem, g, j);
    TakeWhole(mem, g, j);
  }

  /** malloc, when the node after ring[j] has more than n units. */
  lemma TakeEndOk(mem: Memory, freep: int, base: int, brk: int, g: Arena, j: nat, n: int, junk: int)
    requires HeapOk(mem, freep, base, brk, g) && freep != 0 && j + 1 < |g.ring|
    requires g.ring[j + 1] in g.bs && 1 <= n < g.bs[g.ring[j + 1]]
    ensures g.ring[j + 1] in mem && mem[g.ring[j + 1]].size == g.bs[g.ring[j + 1]] && g.ring[j] != 0
    ensures HeapOk(TrimMem(mem, g.ring[j + 1], n, junk), g.ring[j], base, brk, Trimmed(g, j + 1, n))
    ensures Taken(g, Trimmed(g, j + 1, n), Cut(g, j + 1, n), n)
  {
    HeapIs(mem, freep, base, brk, g);
    TrimmedOk(mem, g, j + 1, n, junk);
    TakeTail(mem, g, j + 1, n);
  }

  /** What the scan of malloc reads at node j. */
  lemma ScanOk(mem: Memory, freep: int, base: int, brk: int, g: Arena, j: nat)
    requires HeapOk(mem, freep, base, brk, g) && freep != 0 && j < |g.ring|
    ensures g.ring[j] in mem && mem[g.ring[j]].ptr == Succ(g.ring, j) && Succ(g.ring, j) in mem
    ensures Succ(g.ring, j) in g.bs && mem[Succ(g.ring, j)].size == g.bs[Succ(g.ring, j)]
    ensures mem[Succ(g.ring, j)].size >= 1 ==> j + 1 < |g.ring|
    ensures UNIT * mem[Succ(g.ring, j)].size < KERNBASE
  {
    HeapIs(mem, freep, base, brk, g);
    SizesOk(g);
    NextNode(mem, g.bs, g.ring, j);
  }

  // ------------------------------------------------------------------
  // The scan of malloc
  // ------------------------------------------------------------------

  /** Where the scan stands: `j` and the node after it are prevp and p, `f` is
      freep, and `left` more steps lead there. */
  datatype Walk = Walk(f: nat, j: nat, left: nat)

  ghost function After(ring: seq<int>, k: int): int { if k + 1 < |ring| then k + 1 else 0 }

  ghost predicate Walking(mem: Memory, freep: int, prevp: int, p: int, g: Arena, w: Walk)
  {
    && w.f < |g.ring| && freep == g.ring[w.f]
    && w.j < |g.ring| && prevp == g.ring[w.j] && p == Succ(g.ring, w.j) && p in mem
    && w.left < |g.ring| && (After(g.ring, w.j) + w.left == w.f || After(g.ring, w.j) + w.left == w.f + |g.ring|)
  }

  /** A block of n units lies ahead: at freep, where the scan ends, or right after
      it while the scan is still there. */
  predicate RoomAhead(mem: Memory, freep: int, prevp: int, n: int)
  {
    RoomNear(mem, freep, n) && (mem[freep].size >= n || prevp == freep)
  }

  lemma WalkStart(mem: Memory, freep: int, base: int, brk: int, g: Arena) returns (w: Walk)
    requires HeapOk(mem, freep, base, brk, g) && freep != 0
    ensures freep in mem && Walking(mem, freep, freep, mem[freep].ptr, g, w) && w.left == |g.ring| - 1
  {
    HeapIs(mem, freep, base, brk, g);
    var f :| 0 <= f < |g.ring| && g.ring[f] == freep;
    ScanOk(mem, freep, base, brk, g, f);
    w := Walk(f, f, |g.ring| - 1);
  }

  lemma WalkStep(mem: Memory, freep: int, base: int, brk: int, g: Arena, prevp: int, p: int, w: Walk)
    returns (w': Walk)
    requires HeapOk(mem, freep, base, brk, g) && freep != 0 && Walking(mem, freep, prevp, p, g, w) && p != freep
    ensures w.left > 0 && w' == Walk(w.f, After(g.ring, w.j), w.left - 1) && Walking(mem, freep, p, mem[p].ptr, g, w')
  {
    ScanOk(mem, freep, base, brk, g, After(g.ring, w.j));
    w' := Walk(w.f, After(g.ring, w.j), w.left - 1);
  }

  /** A node with units is not base, so it has a predecessor on the ring. */
  lemma WalkNode(mem: Memory, freep: int, base: int, brk: int, g: Arena, prevp: int, p: int, w: Walk)
    requires HeapOk(mem, freep, base, brk, g) && freep != 0 && Walking(mem, freep, prevp, p, g, w)
    ensures mem[p].size >= 1 ==> w.j + 1 < |g.ring| && p == g.ring[w.j + 1]
    ensures UNIT * mem[p].size < KERNBASE && (freep in mem ==> prevp == freep ==> p == mem[freep].ptr)
  {
    ScanOk(mem, freep, base, brk, g, w.j);
  }
}

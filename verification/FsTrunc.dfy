/** What itrunc (lab2/fs.c:402-435) does to a volume, block by block. */
module FsTrunc {
  import opened Sealing
  import opened FsBytes
  import opened FsModel
  import opened FsProofs
  import opened FsWrite

  /** The blocks that slots below i of the locked inode hold. */
  ghost function OwnedBelow(f: Volume, i: int): set<int>
  {
    set b | b in f.owner && f.owner[b].0 == f.cur && f.owner[b].1 < i
  }

  function ZeroBelow(n: Inode, i: int): (m: Inode)
    requires 0 <= i <= 13
  {
    Inode(n.typ, n.major, n.minor, n.nlink, n.size, seq<word>(i, _ => 0) + n.addrs[i..])
  }

  /** Both volumes are in order, and other files are the same in them; locked. */
  ghost predicate Sound(f: Volume, g: Volume)
  {
    && Shape(f) && Shape(g) && g.sb == f.sb && g.cur == f.cur
    && forall x {:trigger Key(x)} :: Key(x) ==> InOrder(f) && InOrder(g) && Kept(f, g)
  }

  lemma SoundOrder(f: Volume, g: Volume)
    requires Sound(f, g)
    ensures InOrder(f) && InOrder(g) && Kept(f, g)
  {
    assert Key(0);
  }

  lemma SoundTwice(f: Volume, g: Volume, h: Volume)
    requires Sound(f, g) && Sound(g, h)
    ensures Sound(f, h)
  {
    SoundOrder(f, g);
    SoundOrder(g, h);
    KeptTwice(f, g, h);
  }

  /** The first i references are given back, and nothing else has changed. */
  ghost predicate Dropped(f: Volume, g: Volume, i: int)
  {
    && 0 <= i <= 13 && Sound(f, g) && g.loose == f.loose && g.ip == ZeroBelow(f.ip, i)
    && (i <= NDIRECT ==> g.owner == f.owner - OwnedBelow(f, i) && LaterSame(f, g, i))
    && (i == 13 ==> g.owner == f.owner - OwnedBelow(f, SLOTS))
  }

  ghost predicate LaterSame(f: Volume, g: Volume, i: int)
    requires Shape(f) && Shape(g) && g.sb == f.sb && g.cur == f.cur && 0 <= i
  {
    forall k :: i <= k < SLOTS ==> Ref(g, g.cur, k) == Ref(f, f.cur, k)
  }

  lemma OwnersAreSlots(f: Volume)
    requires InOrder(f)
    ensures forall b :: b in f.owner ==>
              0 < b < f.sb.size && IsSlot(f, f.owner[b].0, f.owner[b].1) && Ref(f, f.owner[b].0, f.owner[b].1) == b
  {
    OrderIs(f);
    assert OwnersOk(f);
  }

  lemma NoneBelow(f: Volume)
    requires InOrder(f)
    ensures OwnedBelow(f, 0) == {}
  {
    OwnersAreSlots(f);
    assert forall b :: b in f.owner ==> !(f.owner[b].1 < 0);
  }

  lemma DroppedStart(f: Volume)
    requires InOrder(f)
    ensures Dropped(f, f, 0)
  {
    assert ZeroBelow(f.ip, 0).addrs == f.ip.addrs;
    NoneBelow(f);
    assert f.owner - {} == f.owner;
    assert Kept(f, f) by { KeptIs(f, f); }
  }

  lemma ZeroOneMore(n: Inode, i: int)
    requires 0 <= i < 13
    ensures WithAddr(ZeroBelow(n, i), i, 0) == ZeroBelow(n, i + 1)
    ensures n.addrs[i] == 0 ==> ZeroBelow(n, i) == ZeroBelow(n, i + 1)
  {
    assert ZeroBelow(n, i).addrs[i := 0] == ZeroBelow(n, i + 1).addrs;
    assert n.addrs[i] == 0 ==> ZeroBelow(n, i).addrs == ZeroBelow(n, i + 1).addrs;
  }

  function Single(r: int): set<int> { if r == 0 then {} else {r} }

  lemma OwnerSlot(f: Volume, i: int, b: int)
    requires InOrder(f) && 0 <= i < SLOTS
    ensures b in f.owner && f.owner[b] == (f.cur, i) <==> b != 0 && b == Ref(f, f.cur, i)
  {
    if b in f.owner && f.owner[b] == (f.cur, i) {
      OwnersAreSlots(f);
    }
    if b != 0 && b == Ref(f, f.cur, i) {
      OrderIs(f);
      assert Ref(f, f.cur, i) in f.owner;
    }
  }

  lemma OwnedOneMore(f: Volume, i: int)
    requires InOrder(f) && 0 <= i < SLOTS
    ensures OwnedBelow(f, i + 1) == OwnedBelow(f, i) + Single(Ref(f, f.cur, i))
  {
    forall b ensures b in f.owner && f.owner[b] == (f.cur, i) <==> b in Single(Ref(f, f.cur, i)) {
      OwnerSlot(f, i, b);
    }
  }

  /** A reference that is not there. */
  lemma DropNone(f: Volume, g: Volume, i: int)
    requires 0 <= i < NDIRECT && Dropped(f, g, i) && g.ip.addrs[i] == 0
    ensures Dropped(f, g, i + 1)
  {
    assert Ref(g, g.cur, i) == Ref(f, f.cur, i) == 0;
    ZeroOneMore(f.ip, i);
    assert OwnedBelow(f, i + 1) == OwnedBelow(f, i) by {
      SoundOrder(f, g);
      OwnedOneMore(f, i);
    }
  }

  ghost function DropOne(g: Volume, i: int): Volume
    requires Shape(g) && 0 <= i < NDIRECT && 0 <= g.ip.addrs[i] < g.sb.size
  {
    Free(Detach(g, i), g.ip.addrs[i])
  }

  lemma DetachFacts(g: Volume, i: int)
    requires InOrder(g) && 0 <= i < NDIRECT && g.ip.addrs[i] != 0
    ensures var b, h := g.ip.addrs[i] as int, Detach(g, i);
            && 0 <= b < g.sb.size && b !in g.loose && Marked(g, b) && InOrder(h) && Kept(g, h) && RefsBut(g, h, i)
  {
    OrderIs(g);
    DetachOk(g, i);
    OrderIs(Detach(g, i));
    assert OwnersOk(g) && BitsOk(g);
  }

  lemma FreeFacts(h: Volume, b: int)
    requires InOrder(h) && b in h.loose
    ensures 0 <= b < h.sb.size && Marked(h, b) && InOrder(Free(h, b)) && Kept(h, Free(h, b)) && RefsBut(h, Free(h, b), -1)
  {
    OrderIs(h);
    FreeOk(h, b);
  }

  lemma DropOneFacts(g: Volume, i: int)
    requires InOrder(g) && 0 <= i < NDIRECT && g.ip.addrs[i] != 0
    ensures 0 <= g.ip.addrs[i] < g.sb.size && Marked(g, g.ip.addrs[i]) && InOrder(DropOne(g, i)) && Kept(g, DropOne(g, i))
    ensures DropOne(g, i).loose == g.loose && RefsBut(g, DropOne(g, i), i)
  {
    var b: int := g.ip.addrs[i];
    DetachFacts(g, i);
    var h := Detach(g, i);
    FreeFacts(h, b);
    KeptTwice(g, h, Free(h, b));
    assert h.loose - {b} == g.loose;
    forall k | 0 <= k < SLOTS && k != i ensures Ref(Free(h, b), g.cur, k) == Ref(g, g.cur, k) {
      assert Ref(h, h.cur, k) == Ref(g, g.cur, k);
    }
  }

  /** What giving back one direct block does. */
  ghost predicate OneLess(g: Volume, h: Volume, i: int)
  {
    && 0 <= i < NDIRECT && Sound(g, h) && h.loose == g.loose && h.ip == WithAddr(g.ip, i, 0)
    && h.owner == g.owner - {g.ip.addrs[i] as int} && LaterSame(g, h, i + 1)
  }

  lemma DropOneIs(g: Volume, i: int)
    requires InOrder(g) && 0 <= i < NDIRECT && g.ip.addrs[i] != 0
    ensures 0 <= g.ip.addrs[i] < g.sb.size && Marked(g, g.ip.addrs[i]) && OneLess(g, DropOne(g, i), i)
  {
    DropOneFacts(g, i);
    forall k | i + 1 <= k < SLOTS ensures Ref(DropOne(g, i), g.cur, k) == Ref(g, g.cur, k) {
    }
  }

  lemma DropSome(f: Volume, g: Volume, i: int)
    requires 0 <= i < NDIRECT && Dropped(f, g, i) && g.ip.addrs[i] != 0
    ensures 0 <= g.ip.addrs[i] < g.sb.size && Marked(g, g.ip.addrs[i]) && Dropped(f, DropOne(g, i), i + 1)
  {
    assert InOrder(g) by { SoundOrder(f, g); }
    DropOneIs(g, i);
    OneLessOn(f, g, DropOne(g, i), i);
  }

  lemma OneLessOn(f: Volume, g: Volume, h: Volume, i: int)
    requires 0 <= i < NDIRECT && Dropped(f, g, i) && g.ip.addrs[i] != 0 && OneLess(g, h, i)
    ensures Dropped(f, h, i + 1)
  {
    SoundTwice(f, g, h);
    ZeroOneMore(f.ip, i);
    assert g.ip.addrs[i] == Ref(g, g.cur, i) == Ref(f, f.cur, i);
    assert OwnedBelow(f, i + 1) == OwnedBelow(f, i) + {Ref(f, f.cur, i) as int} by {
      SoundOrder(f, g);
      OwnedOneMore(f, i);
    }
    forall k | i + 1 <= k < SLOTS ensures Ref(h, h.cur, k) == Ref(f, f.cur, k) {
      assert Ref(h, h.cur, k) == Ref(g, g.cur, k);
    }
  }

  // ------------------------------------------------------------------
  // The indirect block and what it lists
  // ------------------------------------------------------------------

  /** The tree, without its first j entries. */
  ghost function TreeFrom(g: Volume, j: int): set<int>
  {
    set b | b in g.owner && InTree(g, b) && (g.owner[b].1 == NDIRECT || g.owner[b].1 >= NDIRECT + 1 + j)
  }

  /** Entries below j are given back; the indirect block itself is still there to read. */
  ghost predicate Pruned(g: Volume, h: Volume, j: int)
  {
    && 0 <= j <= NINDIRECT && HasIndirect(g) && Sound(g, h) && h.ip == WithAddr(g.ip, NDIRECT, 0)
    && h.owner == DetachTree(g).owner && h.loose == g.loose + TreeFrom(g, j)
    && h.blocks[g.ip.addrs[NDIRECT]] == g.blocks[g.ip.addrs[NDIRECT]]
  }

  lemma TreeAll(g: Volume)
    ensures TreeFrom(g, 0) == set b | b in g.owner && InTree(g, b)
  {
  }

  lemma PruneStart(g: Volume)
    requires InOrder(g) && g.ip.addrs[NDIRECT] != 0
    ensures Pruned(g, DetachTree(g), 0)
  {
    DetachTreeFacts(g);
    TreeAll(g);
  }

  lemma DetachTreeFacts(g: Volume)
    requires InOrder(g) && g.ip.addrs[NDIRECT] != 0
    ensures HasIndirect(g) && InOrder(DetachTree(g)) && Kept(g, DetachTree(g))
  {
    OrderIs(g);
    DetachTreeOk(g);
    assert Ref(g, g.cur, NDIRECT) in g.owner;
  }

  /** One entry less, when slot NDIRECT + 1 + j is that of block e. */
  lemma TreeLess(g: Volume, j: int, e: int)
    requires forall b :: b in g.owner && g.owner[b] == (g.cur, NDIRECT + 1 + j) <==> b in Single(e)
    requires 0 <= j
    ensures TreeFrom(g, j + 1) == TreeFrom(g, j) - Single(e)
    ensures e != 0 ==> e in TreeFrom(g, j)
  {
    assert e != 0 ==> e in Single(e);
  }

  lemma EntryOwner(g: Volume, j: int, e: int)
    requires InOrder(g) && HasIndirect(g) && 0 <= j < NINDIRECT && e == Word(g.blocks[g.ip.addrs[NDIRECT]], j)
    ensures forall b :: b in g.owner && g.owner[b] == (g.cur, NDIRECT + 1 + j) <==> b in Single(e)
  {
    assert e == Ref(g, g.cur, NDIRECT + 1 + j);
    forall b ensures b in g.owner && g.owner[b] == (g.cur, NDIRECT + 1 + j) <==> b in Single(e) {
      OwnerSlot(g, NDIRECT + 1 + j, b);
    }
  }

  lemma TreeOneLess(g: Volume, j: int, e: int)
    requires InOrder(g) && HasIndirect(g) && 0 <= j < NINDIRECT && e == Word(g.blocks[g.ip.addrs[NDIRECT]], j)
    ensures TreeFrom(g, j + 1) == TreeFrom(g, j) - Single(e)
    ensures e != 0 ==> e in TreeFrom(g, j) && e !in g.loose
  {
    EntryOwner(g, j, e);
    TreeLess(g, j, e);
    assert LooseOk(g) by { OrderIs(g); }
  }

  lemma NoEntryStep(g: Volume, h: Volume, j: int)
    requires Pruned(g, h, j) && j < NINDIRECT && Word(g.blocks[g.ip.addrs[NDIRECT]], j) == 0
    ensures Pruned(g, h, j + 1)
  {
    assert TreeFrom(g, j + 1) == TreeFrom(g, j) by {
      SoundOrder(g, h);
      TreeOneLess(g, j, 0);
    }
  }

  /** Giving back a loose block. */
  ghost predicate OneFreed(h: Volume, h': Volume, e: int)
  {
    && Sound(h, h') && h'.ip == h.ip && h'.owner == h.owner && h'.loose == h.loose - {e}
    && forall b :: h.sb.datastart <= b < h.sb.size ==> h'.blocks[b] == h.blocks[b]
  }

  lemma FreeIs(h: Volume, e: int)
    requires InOrder(h) && e in h.loose
    ensures 0 <= e < h.sb.size && Marked(h, e) && OneFreed(h, Free(h, e), e)
  {
    FreeFacts(h, e);
    assert h.sb.BBlock(e) <= h.sb.BBlock(h.sb.size - 1);
  }

  lemma FreedStep(g: Volume, h: Volume, h': Volume, j: int, e: int)
    requires Pruned(g, h, j) && j < NINDIRECT && e == Word(g.blocks[g.ip.addrs[NDIRECT]], j) && OneFreed(h, h', e)
    requires TreeFrom(g, j + 1) == TreeFrom(g, j) - {e} && e !in g.loose && g.sb.datastart <= g.ip.addrs[NDIRECT] < g.sb.size
    ensures Pruned(g, h', j + 1)
  {
    SoundTwice(g, h, h');
    assert h.loose - {e} == g.loose + TreeFrom(g, j + 1);
  }

  lemma TreeHome(g: Volume)
    requires InOrder(g) && HasIndirect(g)
    ensures g.sb.datastart <= g.ip.addrs[NDIRECT] < g.sb.size
  {
    OrderIs(g);
    assert Ref(g, g.cur, NDIRECT) in g.owner;
  }

  lemma EntryStep(g: Volume, h: Volume, j: int, e: int)
    requires Pruned(g, h, j) && j < NINDIRECT && e == Word(g.blocks[g.ip.addrs[NDIRECT]], j) && e != 0
    ensures 0 <= e < h.sb.size && Marked(h, e) && Pruned(g, Free(h, e), j + 1)
  {
    assert InOrder(g) && InOrder(h) by { SoundOrder(g, h); }
    TreeOneLess(g, j, e);
    TreeHome(g);
    FreeIs(h, e);
    FreedStep(g, h, Free(h, e), j, e);
  }

  /** One entry of the indirect block. */
  lemma PruneStep(g: Volume, h: Volume, j: int)
    requires Pruned(g, h, j) && j < NINDIRECT
    ensures var e := Word(g.blocks[g.ip.addrs[NDIRECT]], j);
      if e == 0 then Pruned(g, h, j + 1) else 0 <= e < h.sb.size && Marked(h, e) && Pruned(g, Free(h, e), j + 1)
  {
    var e := Word(g.blocks[g.ip.addrs[NDIRECT]], j);
    if e == 0 { NoEntryStep(g, h, j); } else { EntryStep(g, h, j, e); }
  }

  lemma TreeLast(g: Volume)
    requires InOrder(g) && HasIndirect(g)
    ensures TreeFrom(g, NINDIRECT) == {g.ip.addrs[NDIRECT] as int} && g.ip.addrs[NDIRECT] !in g.loose
  {
    var a := Ref(g, g.cur, NDIRECT);
    OwnersAreSlots(g);
    forall b ensures b in g.owner && g.owner[b] == (g.cur, NDIRECT) <==> b == a {
      OwnerSlot(g, NDIRECT, b);
    }
    assert LooseOk(g) by { OrderIs(g); }
    assert a in g.owner;
  }

  lemma TreeOwners(f: Volume, g: Volume)
    requires InOrder(f) && g.owner == f.owner - OwnedBelow(f, NDIRECT) && g.cur == f.cur
    ensures DetachTree(g).owner == f.owner - OwnedBelow(f, SLOTS)
  {
    SlotsInRange(f);
  }

  lemma SlotsInRange(f: Volume)
    requires InOrder(f)
    ensures forall b :: b in f.owner ==> 0 <= f.owner[b].1 < SLOTS
  {
    OrderIs(f);
    assert OwnersOk(f);
  }

  lemma TreeGone(f: Volume, g: Volume, h: Volume, h': Volume, a: int)
    requires Dropped(f, g, NDIRECT) && Pruned(g, h, NINDIRECT) && OneFreed(h, h', a) && a == g.ip.addrs[NDIRECT]
    requires TreeFrom(g, NINDIRECT) == {a} && a !in g.loose && DetachTree(g).owner == f.owner - OwnedBelow(f, SLOTS)
    ensures Dropped(f, h', 13)
  {
    SoundTwice(f, g, h);
    SoundTwice(f, h, h');
    assert h.loose - {a} == g.loose;
    ZeroOneMore(f.ip, NDIRECT);
  }

  /** Last, the indirect block itself. */
  lemma DropTree(f: Volume, g: Volume, h: Volume)
    requires Dropped(f, g, NDIRECT) && Pruned(g, h, NINDIRECT)
    ensures var a := g.ip.addrs[NDIRECT]; 0 <= a < h.sb.size && Marked(h, a) && Dropped(f, Free(h, a), 13)
  {
    var a := g.ip.addrs[NDIRECT];
    assert InOrder(f) && InOrder(g) && InOrder(h) by { SoundOrder(f, g); SoundOrder(g, h); }
    TreeLast(g);
    TreeOwners(f, g);
    FreeIs(h, a);
    TreeGone(f, g, h, Free(h, a), a);
  }

  lemma NoTreeOwners(f: Volume)
    requires InOrder(f) && f.ip.addrs[NDIRECT] == 0
    ensures OwnedBelow(f, SLOTS) == OwnedBelow(f, NDIRECT)
  {
    forall b | b in OwnedBelow(f, SLOTS) ensures b in OwnedBelow(f, NDIRECT) {
      NoTreeOwner(f, b);
    }
  }

  lemma NoTreeOwner(f: Volume, b: int)
    requires InOrder(f) && f.ip.addrs[NDIRECT] == 0 && b in OwnedBelow(f, SLOTS)
    ensures f.owner[b].1 < NDIRECT
  {
    assert f.sb.datastart <= b && 0 <= f.owner[b].1 && Ref(f, f.cur, f.owner[b].1) == b by {
      OrderIs(f);
      assert OwnersOk(f);
    }
  }

  lemma DropNoTree(f: Volume, g: Volume)
    requires Dropped(f, g, NDIRECT) && g.ip.addrs[NDIRECT] == 0
    ensures Dropped(f, g, 13)
  {
    ZeroOneMore(f.ip, NDIRECT);
    assert f.ip.addrs[NDIRECT] == 0;
    assert OwnedBelow(f, SLOTS) == OwnedBelow(f, NDIRECT) by {
      SoundOrder(f, g);
      NoTreeOwners(f);
    }
  }

  // ------------------------------------------------------------------
  // The whole
  // ------------------------------------------------------------------

  /** Exactly the blocks of the inode lose their mark; the file is empty, on disk too. */
  ghost predicate Truncated(f: Volume, g: Volume)
    requires InOrder(f)
  {
    && Settled(g) && Kept(f, g) && g.loose == f.loose && Bytes(g) == []
    && (forall k :: 0 <= k < SLOTS ==> Ref(g, g.cur, k) == 0)
    && (forall b :: 0 <= b < f.sb.size ==> (Marked(g, b) <==> Marked(f, b) && !Holds(f, b)))
  }

  /** The locked inode references b. */
  ghost predicate Holds(f: Volume, b: int)
    requires InOrder(f)
  {
    b != 0 && exists k :: 0 <= k < SLOTS && Ref(f, f.cur, k) == b
  }

  lemma HoldsIsOwns(f: Volume, b: int)
    requires InOrder(f)
    ensures Holds(f, b) <==> b in OwnedBelow(f, SLOTS)
  {
    OwnersAreSlots(f);
    if b in OwnedBelow(f, SLOTS) {
      assert Ref(f, f.cur, f.owner[b].1) == b;
    }
    if Holds(f, b) {
      var k :| 0 <= k < SLOTS && Ref(f, f.cur, k) == b;
      OwnerSlot(f, k, b);
    }
  }

  lemma TruncatedMark(f: Volume, h: Volume, b: int)
    requires InOrder(f) && InOrder(h) && h.sb == f.sb && h.loose == f.loose && h.owner == f.owner - OwnedBelow(f, SLOTS) && 0 <= b < f.sb.size
    ensures Marked(h, b) <==> Marked(f, b) && !Holds(f, b)
  {
    HoldsIsOwns(f, b);
    assert BitsOk(f) && BitsOk(h) && OwnersOk(f) && LooseOk(f) by {
      OrderIs(f);
      OrderIs(h);
    }
  }

  lemma TruncatedRefs(f: Volume, g: Volume, h: Volume)
    requires Dropped(f, g, 13) && InOrder(g) && Finished(g, h, 0)
    ensures forall k :: 0 <= k < SLOTS ==> Ref(h, h.cur, k) == 0
  {
    assert forall k :: 0 <= k < 13 ==> g.ip.addrs[k] == 0;
    assert forall k :: 0 <= k < SLOTS ==> Ref(h, h.cur, k) == Table(h)[k] == Table(g)[k] == 0;
  }

  lemma TruncatedOk(f: Volume, g: Volume, h: Volume)
    requires InOrder(f) && Dropped(f, g, 13) && InOrder(g) && Finished(g, h, 0)
    ensures Truncated(f, h)
  {
    assert Kept(f, h) by {
      SoundOrder(f, g);
      KeptTwice(f, g, h);
    }
    TruncatedRefs(f, g, h);
    forall b | 0 <= b < f.sb.size ensures Marked(h, b) <==> Marked(f, b) && !Holds(f, b) {
      TruncatedMark(f, h, b);
    }
  }
}

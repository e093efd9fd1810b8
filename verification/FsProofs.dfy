/** What each small change of lab2/fs.c keeps: the free map, the ownership of
    blocks, the files of all other inodes, and the bytes of the locked one. */
module FsProofs {
  import opened Words
  import opened FsBytes
  import opened FsModel

  /** The free map and the references agree, and no block is referenced twice. */
  ghost predicate FsOk(f: Volume) { Shape(f) && BitsOk(f) && LooseOk(f) && OwnersOk(f) && RefsOk(f) }

  /** Inodes other than the locked one keep their disk copy and their blocks. */
  ghost predicate OthersKept(f: Volume, g: Volume)
    requires Shape(f)
  {
    && Shape(g) && g.sb == f.sb && g.cur == f.cur && g.held == f.held
    && (forall i :: 0 <= i < f.sb.ninodes && i != f.cur ==> DiskInode(g, i) == DiskInode(f, i))
    && (forall b :: b in f.owner && f.owner[b].0 != f.cur && 0 <= b < f.sb.size ==>
          b in g.owner && g.owner[b] == f.owner[b] && g.blocks[b] == f.blocks[b])
    && (forall b :: b in g.owner && g.owner[b].0 != f.cur ==> b in f.owner && f.owner[b] == g.owner[b])
  }

  lemma OthersKeptTwice(f: Volume, g: Volume, h: Volume)
    requires FsOk(f) && OthersKept(f, g) && OthersKept(g, h)
    ensures OthersKept(f, h)
  {
  }

  /** A change to blocks that are neither inode blocks nor blocks of others. */
  lemma OthersKeptBy(f: Volume, g: Volume)
    requires Shape(f) && Shape(g) && g.sb == f.sb && g.cur == f.cur && g.held == f.held
    requires forall m :: 0 <= m < f.sb.bmapstart ==> g.blocks[m] == f.blocks[m]
    requires forall b :: b in f.owner && f.owner[b].0 != f.cur && 0 <= b < f.sb.size ==>
               b in g.owner && g.owner[b] == f.owner[b] && g.blocks[b] == f.blocks[b]
    requires forall b :: b in g.owner && g.owner[b].0 != f.cur ==> b in f.owner && f.owner[b] == g.owner[b]
    ensures OthersKept(f, g)
  {
    forall i | 0 <= i < f.sb.ninodes && i != f.cur ensures DiskInode(g, i) == DiskInode(f, i) {
      assert f.sb.IBlock(i) <= f.sb.IBlock(f.sb.ninodes - 1);
    }
  }

  lemma OtherRefs(f: Volume, g: Volume, i: int, k: int)
    requires FsOk(f) && OthersKept(f, g) && IsSlot(f, i, k) && i != f.cur
    ensures Ref(g, i, k) == Ref(f, i, k)
    ensures Ref(f, i, k) != 0 ==> 0 <= Ref(f, i, k) < f.sb.size && g.blocks[Ref(f, i, k)] == f.blocks[Ref(f, i, k)]
  {
    var a := Ref(f, i, NDIRECT);
    assert a != 0 ==> a in f.owner && f.owner[a] == (i, NDIRECT);
  }

  lemma OtherByte(f: Volume, g: Volume, i: int, o: int)
    requires FsOk(f) && OthersKept(f, g) && 0 <= i < f.sb.ninodes && i != f.cur && 0 <= o < MAXFILE * BSIZE
    ensures ByteOf(g.blocks, Ino(g, i), o) == ByteOf(f.blocks, Ino(f, i), o)
  {
    var k := SlotOf(o / BSIZE);
    OtherRefs(f, g, i, k);
    assert RefOf(g.blocks, Ino(g, i), k) == RefOf(f.blocks, Ino(f, i), k);
  }

  /** The files of other inodes are the same bytes. */
  lemma OtherFile(f: Volume, g: Volume, i: int)
    requires FsOk(f) && OthersKept(f, g) && 0 <= i < f.sb.ninodes && i != f.cur && Ino(f, i).size <= MAXFILE * BSIZE
    ensures Ino(g, i) == Ino(f, i) && File(g, i) == File(f, i)
  {
    forall o | 0 <= o < Ino(f, i).size ensures File(g, i)[o] == File(f, i)[o] {
      OtherByte(f, g, i, o);
    }
    assert |File(g, i)| == |File(f, i)|;
  }

  // ------------------------------------------------------------------
  // Ownership, from what happens to the locked inode
  // ------------------------------------------------------------------

  ghost predicate CurRefsOk(f: Volume)
    requires Shape(f)
  {
    forall k {:trigger Ref(f, f.cur, k)} :: 0 <= k < SLOTS && Ref(f, f.cur, k) != 0 ==>
      Ref(f, f.cur, k) in f.owner && f.owner[Ref(f, f.cur, k)] == (f.cur, k)
  }

  ghost predicate CurOwnersOk(f: Volume)
    requires Shape(f)
  {
    forall b :: b in f.owner && f.owner[b].0 == f.cur ==>
      && f.sb.datastart <= b < f.sb.size && 0 <= f.owner[b].1 < SLOTS && Ref(f, f.cur, f.owner[b].1) == b
  }

  lemma OwnershipOk(f: Volume, g: Volume)
    requires FsOk(f) && OthersKept(f, g) && CurRefsOk(g) && CurOwnersOk(g)
    ensures OwnersOk(g) && RefsOk(g)
  {
    forall i, k | IsSlot(g, i, k) && Ref(g, i, k) != 0
      ensures Ref(g, i, k) in g.owner && g.owner[Ref(g, i, k)] == (i, k)
    {
      if i != g.cur { OtherRefs(f, g, i, k); }
    }
    forall b | b in g.owner
      ensures
        && g.sb.datastart <= b < g.sb.size && IsSlot(g, g.owner[b].0, g.owner[b].1)
        && Ref(g, g.owner[b].0, g.owner[b].1) == b
    {
      if g.owner[b].0 != g.cur { OtherRefs(f, g, g.owner[b].0, g.owner[b].1); }
    }
  }

  /** The same references in the same hands. */
  lemma SameOwns(f: Volume, g: Volume)
    requires FsOk(f) && Shape(g) && g.sb == f.sb && g.cur == f.cur && g.owner == f.owner
    requires forall k :: 0 <= k < SLOTS ==> Ref(g, g.cur, k) == Ref(f, f.cur, k)
    ensures CurRefsOk(g) && CurOwnersOk(g)
  {
    assert RefsOk(f) && OwnersOk(f);
  }

  // ------------------------------------------------------------------
  // The bytes of the locked inode, holes reading as zero
  // ------------------------------------------------------------------

  ghost function Content(f: Volume): (c: seq<byte>)
    ensures |c| == MAXFILE * BSIZE && forall o :: 0 <= o < MAXFILE * BSIZE ==> c[o] == ByteOf(f.blocks, f.ip, o)
  {
    seq<byte>(MAXFILE * BSIZE, o requires 0 <= o < MAXFILE * BSIZE => ByteOf(f.blocks, f.ip, o))
  }

  lemma FileIsContent(f: Volume)
    requires Shape(f) && f.ip.size <= MAXFILE * BSIZE
    ensures File(f, f.cur) == Content(f)[..f.ip.size]
  {
  }

  /** References of the locked inode, all but one the same. */
  ghost predicate RefsBut(f: Volume, g: Volume, s: int)
    requires Shape(f) && Shape(g) && g.cur == f.cur && g.sb == f.sb
  {
    forall k {:trigger Ref(g, g.cur, k)} :: 0 <= k < SLOTS && k != s ==> Ref(g, g.cur, k) == Ref(f, f.cur, k)
  }

  lemma SameRefs(f: Volume, g: Volume)
    requires FsOk(f) && Shape(g) && g.sb == f.sb && g.cur == f.cur && g.ip.addrs == f.ip.addrs
    requires forall c :: c in f.owner && f.owner[c] == (f.cur, NDIRECT) && 0 <= c < f.sb.size ==> g.blocks[c] == f.blocks[c]
    ensures RefsBut(f, g, -1)
  {
    var a := Ref(f, f.cur, NDIRECT);
    assert a != 0 ==> a in f.owner;
  }

  lemma SameByte(f: Volume, g: Volume, o: int)
    requires FsOk(f) && Shape(g) && g.sb == f.sb && g.cur == f.cur && RefsBut(f, g, -1) && 0 <= o < MAXFILE * BSIZE
    requires forall c :: c in f.owner && 0 <= c < f.sb.size ==> g.blocks[c] == f.blocks[c]
    ensures ByteOf(g.blocks, g.ip, o) == ByteOf(f.blocks, f.ip, o)
  {
    var k := SlotOf(o / BSIZE);
    assert Ref(g, g.cur, k) == Ref(f, f.cur, k);
    assert Ref(f, f.cur, k) != 0 ==> Ref(f, f.cur, k) in f.owner;
  }

  lemma SameContent(f: Volume, g: Volume)
    requires FsOk(f) && Shape(g) && g.sb == f.sb && g.cur == f.cur && RefsBut(f, g, -1)
    requires forall c :: c in f.owner && 0 <= c < f.sb.size ==> g.blocks[c] == f.blocks[c]
    ensures Content(g) == Content(f)
  {
    forall o | 0 <= o < MAXFILE * BSIZE ensures Content(g)[o] == Content(f)[o] {
      SameByte(f, g, o);
    }
  }

  // ------------------------------------------------------------------
  // balloc
  // ------------------------------------------------------------------

  lemma MarkOk(f: Volume, b: int, on: bool, c: int)
    requires Shape(f) && 0 <= b < f.sb.size && 0 <= c < f.sb.size
    ensures Bit(Mark(f.sb, f.blocks, b, on)[f.sb.BBlock(c)], c % BPB) == if c == b then on else Marked(f, c)
  {
    BitBack(f.blocks[f.sb.BBlock(b)], b % BPB, on);
  }

  lemma ReserveShape(f: Volume, b: int)
    requires FsOk(f) && 0 <= b < f.sb.size && !Marked(f, b)
    ensures b >= f.sb.datastart && b !in f.owner && b !in f.loose
    ensures OthersKept(f, Reserve(f, b)) && RefsBut(f, Reserve(f, b), -1)
  {
    assert b >= f.sb.datastart && b !in f.owner && b !in f.loose;
    OthersKeptBy(f, Reserve(f, b));
    SameRefs(f, Reserve(f, b));
  }

  lemma ReserveBits(f: Volume, b: int)
    requires FsOk(f) && 0 <= b < f.sb.size && !Marked(f, b)
    ensures Shape(Reserve(f, b)) && BitsOk(Reserve(f, b))
  {
    var g := Reserve(f, b);
    forall c | 0 <= c < f.sb.size
      ensures Marked(g, c) <==> c < f.sb.datastart || c in g.owner || c in g.loose
    {
      MarkOk(f, b, true, c);
    }
  }

  lemma ReserveContent(f: Volume, b: int)
    requires FsOk(f) && 0 <= b < f.sb.size && !Marked(f, b) && OthersKept(f, Reserve(f, b)) && RefsBut(f, Reserve(f, b), -1)
    ensures Content(Reserve(f, b)) == Content(f)
  {
    assert f.sb.BBlock(b) <= f.sb.BBlock(f.sb.size - 1);
    assert OwnersOk(f);
    SameContent(f, Reserve(f, b));
  }

  lemma ReserveOwns(f: Volume, b: int)
    requires FsOk(f) && 0 <= b < f.sb.size && OthersKept(f, Reserve(f, b)) && RefsBut(f, Reserve(f, b), -1)
    requires b >= f.sb.datastart && b !in f.owner
    ensures LooseOk(Reserve(f, b)) && OwnersOk(Reserve(f, b)) && RefsOk(Reserve(f, b))
  {
    SameOwns(f, Reserve(f, b));
    OwnershipOk(f, Reserve(f, b));
  }

  /** Marking an unmarked block: not block 0, not referenced; nothing else changes. */
  lemma ReserveOk(f: Volume, b: int)
    requires FsOk(f) && 0 <= b < f.sb.size && !Marked(f, b)
    ensures FsOk(Reserve(f, b)) && OthersKept(f, Reserve(f, b)) && RefsBut(f, Reserve(f, b), -1)
    ensures Content(Reserve(f, b)) == Content(f) && b != 0 && b !in f.owner && b !in f.loose
  {
    ReserveShape(f, b);
    ReserveBits(f, b);
    ReserveContent(f, b);
    ReserveOwns(f, b);
  }

  /** Zeroing a block that nobody refers to. */
  lemma WipeOk(f: Volume, b: int)
    requires FsOk(f) && b in f.loose
    ensures FsOk(Wipe(f, b)) && OthersKept(f, Wipe(f, b)) && RefsBut(f, Wipe(f, b), -1)
    ensures Content(Wipe(f, b)) == Content(f)
  {
    var g := Wipe(f, b);
    WipeKept(f, b);
    assert forall c :: c in f.owner ==> c != b by { assert LooseOk(f); }
    SameContent(f, g);
    UnmovedOk(f, g);
  }

  lemma WipeKept(f: Volume, b: int)
    requires FsOk(f) && b in f.loose
    ensures b >= f.sb.datastart && OthersKept(f, Wipe(f, b)) && RefsBut(f, Wipe(f, b), -1)
  {
    assert f.sb.datastart <= b < f.sb.size && b !in f.owner by { assert LooseOk(f); }
    OthersKeptBy(f, Wipe(f, b));
    SameRefs(f, Wipe(f, b));
  }

  /** balloc of an unmarked block: not block 0, not referenced, zeroed; nothing else changes. */
  lemma AllocOk(f: Volume, b: int)
    requires FsOk(f) && 0 <= b < f.sb.size && !Marked(f, b)
    ensures FsOk(Alloc(f, b)) && OthersKept(f, Alloc(f, b)) && RefsBut(f, Alloc(f, b), -1)
    ensures Content(Alloc(f, b)) == Content(f) && b != 0 && b !in f.owner && b !in f.loose
  {
    ReserveOk(f, b);
    WipeOk(Reserve(f, b), b);
    OthersKeptTwice(f, Reserve(f, b), Alloc(f, b));
    SameRefsTwice(f, Reserve(f, b), Alloc(f, b));
  }

  lemma SameRefsTwice(f: Volume, g: Volume, h: Volume)
    requires Shape(f) && Shape(g) && Shape(h) && g.cur == f.cur && g.sb == f.sb && h.cur == g.cur && h.sb == g.sb
    requires RefsBut(f, g, -1) && RefsBut(g, h, -1)
    ensures RefsBut(f, h, -1)
  {
    forall k | 0 <= k < SLOTS ensures Ref(h, h.cur, k) == Ref(f, f.cur, k) {
      assert Ref(h, h.cur, k) == Ref(g, g.cur, k);
    }
  }

  // ------------------------------------------------------------------
  // bmap: setting a reference to a fresh block
  // ------------------------------------------------------------------

  /** Slot s of the locked inode gets the loose block b, and nothing else changes hands. */
  ghost predicate Given(f: Volume, g: Volume, s: int, b: int)
    requires Shape(f)
  {
    && Shape(g) && g.sb == f.sb && g.cur == f.cur && g.held == f.held && 0 <= s < SLOTS
    && Ref(f, f.cur, s) == 0 && Ref(g, f.cur, s) == b && RefsBut(f, g, s)
    && g.owner == f.owner[b := (f.cur, s)] && g.loose == f.loose - {b}
  }

  lemma GivenOwns(f: Volume, g: Volume, s: int, b: int)
    requires FsOk(f) && Given(f, g, s, b) && b in f.loose
    ensures CurRefsOk(g) && CurOwnersOk(g) && LooseOk(g)
  {
    forall k | 0 <= k < SLOTS && Ref(g, g.cur, k) != 0
      ensures Ref(g, g.cur, k) in g.owner && g.owner[Ref(g, g.cur, k)] == (g.cur, k)
    {
      assert k != s ==> Ref(g, g.cur, k) == Ref(f, f.cur, k);
    }
    forall c | c in g.owner && g.owner[c].0 == g.cur
      ensures g.sb.datastart <= c < g.sb.size && 0 <= g.owner[c].1 < SLOTS && Ref(g, g.cur, g.owner[c].1) == c
    {
      if c != b {
        var k := f.owner[c].1;
        assert Ref(f, f.cur, k) == c;
        assert k != s;
        assert Ref(g, g.cur, k) == Ref(f, f.cur, k);
      }
    }
  }

  lemma GivenBits(f: Volume, g: Volume, s: int, b: int)
    requires FsOk(f) && Given(f, g, s, b) && b in f.loose
    requires forall m :: 0 <= m < f.sb.datastart ==> g.blocks[m] == f.blocks[m]
    ensures BitsOk(g)
  {
    forall c | 0 <= c < g.sb.size ensures Marked(g, c) == Marked(f, c) {
      assert f.sb.BBlock(c) <= f.sb.BBlock(f.sb.size - 1);
    }
  }

  /** A zeroed block in place of a hole, and no other block of the inode changed. */
  lemma GivenContent(f: Volume, g: Volume, s: int, b: int)
    requires FsOk(f) && Given(f, g, s, b) && 0 < b < f.sb.size && g.blocks[b] == Zero()
    requires forall c :: c in f.owner && f.owner[c] != (f.cur, NDIRECT) && 0 <= c < f.sb.size ==> g.blocks[c] == f.blocks[c]
    ensures Content(g) == Content(f)
  {
    forall o | 0 <= o < MAXFILE * BSIZE ensures ByteOf(g.blocks, g.ip, o) == ByteOf(f.blocks, f.ip, o) {
      var k := SlotOf(o / BSIZE);
      assert k != s ==> Ref(g, g.cur, k) == Ref(f, f.cur, k);
      assert Ref(f, f.cur, k) != 0 ==> f.owner[Ref(f, f.cur, k)] == (f.cur, k);
    }
  }

  /** The whole of it: the volume stays in order and the file is the same bytes. */
  lemma GivenOk(f: Volume, g: Volume, s: int, b: int)
    requires FsOk(f) && Given(f, g, s, b) && b in f.loose && g.blocks[b] == Zero()
    requires forall m :: 0 <= m < f.sb.datastart ==> g.blocks[m] == f.blocks[m]
    requires forall c :: c in f.owner && f.owner[c] != (f.cur, NDIRECT) && 0 <= c < f.sb.size ==> g.blocks[c] == f.blocks[c]
    ensures FsOk(g) && OthersKept(f, g) && Content(g) == Content(f)
  {
    assert b !in f.owner;
    OthersKeptBy(f, g);
    GivenOwns(f, g, s, b);
    GivenBits(f, g, s, b);
    GivenContent(f, g, s, b);
    OwnershipOk(f, g);
  }

  lemma AttachGiven(f: Volume, k: int, b: word)
    requires FsOk(f) && 0 <= k <= NDIRECT && f.ip.addrs[k] == 0 && b in f.loose && f.blocks[b] == Zero()
    ensures Given(f, Attach(f, k, b), k, b)
  {
    ZeroWords();
  }

  lemma AttachOk(f: Volume, k: int, b: word)
    requires FsOk(f) && 0 <= k <= NDIRECT && f.ip.addrs[k] == 0 && b in f.loose && f.blocks[b] == Zero()
    ensures FsOk(Attach(f, k, b)) && OthersKept(f, Attach(f, k, b)) && Content(Attach(f, k, b)) == Content(f)
    ensures Given(f, Attach(f, k, b), k, b)
  {
    AttachGiven(f, k, b);
    GivenOk(f, Attach(f, k, b), k, b);
  }

  ghost predicate HasIndirect(f: Volume)
  {
    f.ip.addrs[NDIRECT] != 0 && f.ip.addrs[NDIRECT] < |f.blocks|
  }

  lemma AttachEntryGiven(f: Volume, j: int, b: word)
    requires FsOk(f) && 0 <= j < NINDIRECT && HasIndirect(f) && Ref(f, f.cur, NDIRECT + 1 + j) == 0 && b in f.loose
    ensures Given(f, AttachEntry(f, j, b), NDIRECT + 1 + j, b)
  {
    WordBack(f.blocks[f.ip.addrs[NDIRECT]], j, b);
  }

  lemma AttachEntryOk(f: Volume, j: int, b: word)
    requires FsOk(f) && 0 <= j < NINDIRECT && HasIndirect(f) && Ref(f, f.cur, NDIRECT + 1 + j) == 0
    requires b in f.loose && f.blocks[b] == Zero()
    ensures FsOk(AttachEntry(f, j, b)) && OthersKept(f, AttachEntry(f, j, b)) && Content(AttachEntry(f, j, b)) == Content(f)
    ensures Given(f, AttachEntry(f, j, b), NDIRECT + 1 + j, b)
  {
    AttachEntryGiven(f, j, b);
    var a := Ref(f, f.cur, NDIRECT);
    assert a in f.owner && f.owner[a] == (f.cur, NDIRECT);
    GivenOk(f, AttachEntry(f, j, b), NDIRECT + 1 + j, b);
  }

  // ------------------------------------------------------------------
  // Changes that move no block: writing data, the inode, the size
  // ------------------------------------------------------------------

  function Splice(s: seq<byte>, o: int, d: seq<byte>): seq<byte>
    requires 0 <= o && o + |d| <= |s|
  {
    s[..o] + d + s[o + |d|..]
  }

  /** The same blocks in the same hands. */
  lemma UnmovedOk(f: Volume, g: Volume)
    requires FsOk(f) && OthersKept(f, g) && RefsBut(f, g, -1) && g.owner == f.owner && g.loose == f.loose
    requires forall m :: f.sb.bmapstart <= m < f.sb.datastart ==> g.blocks[m] == f.blocks[m]
    ensures FsOk(g)
  {
    forall c | 0 <= c < g.sb.size ensures Marked(g, c) == Marked(f, c) {
      assert f.sb.BBlock(c) <= f.sb.BBlock(f.sb.size - 1);
    }
    SameOwns(f, g);
    OwnershipOk(f, g);
  }

  ghost predicate IsData(f: Volume, n: int)
    requires Shape(f)
  {
    0 <= n < MAXFILE && Ref(f, f.cur, SlotOf(n)) != 0 && Ref(f, f.cur, SlotOf(n)) < f.sb.size
  }

  /** The state after writing d at offset o of block n of the locked file. */
  ghost function PokeFile(f: Volume, n: int, o: int, d: seq<byte>): Volume
    requires Shape(f) && IsData(f, n) && 0 <= o && o + |d| <= BSIZE
  {
    Poke(f, Ref(f, f.cur, SlotOf(n)), o, d)
  }

  lemma PokeShape(f: Volume, n: int, o: int, d: seq<byte>)
    requires FsOk(f) && IsData(f, n) && 0 <= o && o + |d| <= BSIZE
    ensures OthersKept(f, PokeFile(f, n, o, d)) && RefsBut(f, PokeFile(f, n, o, d), -1)
  {
    var b := Ref(f, f.cur, SlotOf(n));
    var g := Poke(f, b, o, d);
    assert b in f.owner && f.owner[b] == (f.cur, SlotOf(n));
    OthersKeptBy(f, g);
    SameRefs(f, g);
  }

  /** Which of the bytes of block m, at offset q, are new. */
  lemma PokeByte(f: Volume, n: int, o: int, d: seq<byte>, m: int, q: int)
    requires FsOk(f) && IsData(f, n) && 0 <= o && o + |d| <= BSIZE && 0 <= m < MAXFILE && 0 <= q < BSIZE
    requires Shape(PokeFile(f, n, o, d)) && RefsBut(f, PokeFile(f, n, o, d), -1)
    ensures ByteAt(PokeFile(f, n, o, d), m, q) == if m == n && o <= q < o + |d| then d[q - o] else ByteAt(f, m, q)
  {
    var b, g := Ref(f, f.cur, SlotOf(n)), PokeFile(f, n, o, d);
    assert Ref(g, g.cur, SlotOf(m)) == Ref(f, f.cur, SlotOf(m));
    SlotsApart(f, n, m);
    assert g.blocks == f.blocks[b := WithBytes(f.blocks[b], o, d)];
  }

  lemma SlotsApart(f: Volume, n: int, m: int)
    requires FsOk(f) && IsData(f, n) && 0 <= m < MAXFILE
    ensures Ref(f, f.cur, SlotOf(m)) == Ref(f, f.cur, SlotOf(n)) <==> m == n
  {
    var b, x := Ref(f, f.cur, SlotOf(n)), Ref(f, f.cur, SlotOf(m));
    assert RefsOk(f);
    assert f.owner[b] == (f.cur, SlotOf(n));
    assert x != 0 ==> f.owner[x] == (f.cur, SlotOf(m));
  }

  /** Byte q of block m of the locked file. */
  ghost function ByteAt(f: Volume, m: int, q: int): byte
    requires Shape(f) && 0 <= m < MAXFILE && 0 <= q < BSIZE
  {
    var a := Ref(f, f.cur, SlotOf(m));
    if 0 < a < |f.blocks| then f.blocks[a][q] else 0
  }

  lemma ContentAt(f: Volume, m: int, q: int, p: int)
    requires Shape(f) && 0 <= m < MAXFILE && 0 <= q < BSIZE && p == m * BSIZE + q
    ensures 0 <= p < MAXFILE * BSIZE && Content(f)[p] == ByteAt(f, m, q)
  {
    DivIs(p, BSIZE, m, q);
  }

  lemma SpliceAt(c: seq<byte>, n: int, o: int, d: seq<byte>, m: int, q: int, p: int)
    requires |c| == MAXFILE * BSIZE && 0 <= n < MAXFILE && 0 <= o && o + |d| <= BSIZE
    requires 0 <= m < MAXFILE && 0 <= q < BSIZE && p == m * BSIZE + q
    ensures Splice(c, n * BSIZE + o, d)[p] == if m == n && o <= q < o + |d| then d[q - o] else c[p]
  {
  }

  /** Writing into a block of the file changes exactly those bytes of the file. */
  lemma PokeOk(f: Volume, n: int, o: int, d: seq<byte>)
    requires FsOk(f) && IsData(f, n) && 0 <= o && o + |d| <= BSIZE
    ensures var g := PokeFile(f, n, o, d);
      FsOk(g) && OthersKept(f, g) && RefsBut(f, g, -1) && Content(g) == Splice(Content(f), n * BSIZE + o, d)
  {
    PokeShape(f, n, o, d);
    PokeContent(f, n, o, d);
    assert Ref(f, f.cur, SlotOf(n)) in f.owner;
    UnmovedOk(f, PokeFile(f, n, o, d));
  }

  lemma PokeContent(f: Volume, n: int, o: int, d: seq<byte>)
    requires FsOk(f) && IsData(f, n) && 0 <= o && o + |d| <= BSIZE
    requires Shape(PokeFile(f, n, o, d)) && RefsBut(f, PokeFile(f, n, o, d), -1)
    ensures Content(PokeFile(f, n, o, d)) == Splice(Content(f), n * BSIZE + o, d)
  {
    var c, e := Content(PokeFile(f, n, o, d)), Splice(Content(f), n * BSIZE + o, d);
    assert |c| == |e| == MAXFILE * BSIZE;
    forall p | 0 <= p < MAXFILE * BSIZE ensures c[p] == e[p] {
      var m, q := p / BSIZE, p % BSIZE;
      PokeAt(f, n, o, d, m, q, p);
      SpliceAt(Content(f), n, o, d, m, q, p);
    }
    SameBytes(c, e);
  }

  lemma SameBytes(a: seq<byte>, b: seq<byte>)
    requires |a| == |b| && forall p :: 0 <= p < |a| ==> a[p] == b[p]
    ensures a == b
  {
  }

  lemma PokeAt(f: Volume, n: int, o: int, d: seq<byte>, m: int, q: int, p: int)
    requires FsOk(f) && IsData(f, n) && 0 <= o && o + |d| <= BSIZE && 0 <= m < MAXFILE && 0 <= q < BSIZE
    requires Shape(PokeFile(f, n, o, d)) && RefsBut(f, PokeFile(f, n, o, d), -1) && p == m * BSIZE + q
    ensures Content(PokeFile(f, n, o, d))[p] == if m == n && o <= q < o + |d| then d[q - o] else Content(f)[p]
  {
    var g := PokeFile(f, n, o, d);
    PokeByte(f, n, o, d, m, q);
    ContentAt(f, m, q, p);
    ContentAt(g, m, q, p);
  }

  lemma PutInodeAt(sb: Super, blocks: seq<Block>, c: int, n: Inode, i: int)
    requires sb.Ok() && |blocks| == sb.size && 0 <= c < sb.ninodes && 0 <= i < sb.ninodes
    ensures 0 <= sb.IBlock(c) < sb.size && 0 <= sb.IBlock(i) < sb.size
    ensures WordsInode(PutInode(sb, blocks, c, n)[sb.IBlock(i)], i % IPB) ==
            if i == c then n else WordsInode(blocks[sb.IBlock(i)], i % IPB)
  {
    if sb.IBlock(i) == sb.IBlock(c) {
      InodeBack(blocks[sb.IBlock(c)], c % IPB, n, i % IPB);
    }
  }

  lemma SyncInodes(f: Volume, i: int)
    requires Shape(f) && 0 <= i < f.sb.ninodes
    ensures Shape(Sync(f)) && DiskInode(Sync(f), i) == if i == f.cur then f.ip else DiskInode(f, i)
  {
    PutInodeAt(f.sb, f.blocks, f.cur, f.ip, i);
  }

  /** The inode in memory is the one on disk. */
  ghost predicate Synced(f: Volume)
    requires Shape(f)
  {
    DiskInode(f, f.cur) == f.ip
  }

  lemma SyncPlace(f: Volume)
    requires Shape(f)
    ensures f.sb.IBlock(f.cur) < f.sb.bmapstart && Shape(Sync(f)) && Synced(Sync(f))
    ensures forall m :: f.sb.bmapstart <= m < f.sb.size ==> Sync(f).blocks[m] == f.blocks[m]
    ensures forall i :: 0 <= i < f.sb.ninodes && i != f.cur ==> DiskInode(Sync(f), i) == DiskInode(f, i)
  {
    assert f.sb.IBlock(f.cur) <= f.sb.IBlock(f.sb.ninodes - 1);
    SyncInodes(f, f.cur);
    forall i | 0 <= i < f.sb.ninodes && i != f.cur ensures DiskInode(Sync(f), i) == DiskInode(f, i) {
      SyncInodes(f, i);
    }
  }

  lemma SyncKept(f: Volume)
    requires FsOk(f)
    ensures OthersKept(f, Sync(f)) && Synced(Sync(f))
    ensures forall m :: f.sb.bmapstart <= m < f.sb.size ==> Sync(f).blocks[m] == f.blocks[m]
  {
    SyncPlace(f);
    assert OwnersOk(f);
  }

  lemma SyncOk(f: Volume)
    requires FsOk(f)
    ensures FsOk(Sync(f)) && OthersKept(f, Sync(f)) && Synced(Sync(f)) && Content(Sync(f)) == Content(f)
    ensures RefsBut(f, Sync(f), -1)
  {
    SyncKept(f);
    SameRefs(f, Sync(f));
    SameContent(f, Sync(f));
    UnmovedOk(f, Sync(f));
  }

  /** The inode in memory is another one with the same references. */
  ghost function Retype(f: Volume, ip: Inode): Volume { Volume(f.sb, f.blocks, f.cur, ip, f.held, f.owner, f.loose) }

  lemma RetypeOk(f: Volume, ip: Inode)
    requires FsOk(f) && ip.addrs == f.ip.addrs
    ensures FsOk(Retype(f, ip)) && OthersKept(f, Retype(f, ip)) && RefsBut(f, Retype(f, ip), -1) && Content(Retype(f, ip)) == Content(f)
  {
    var g := Retype(f, ip);
    UnmovedOk(f, g);
    forall o | 0 <= o < MAXFILE * BSIZE ensures ByteOf(g.blocks, g.ip, o) == ByteOf(f.blocks, f.ip, o) {
    }
  }

  lemma ResizeOk(f: Volume, n: word)
    requires FsOk(f)
    ensures FsOk(Resize(f, n)) && OthersKept(f, Resize(f, n)) && Content(Resize(f, n)) == Content(f)
  {
    RetypeOk(f, WithSize(f.ip, n));
  }

  // ------------------------------------------------------------------
  // itrunc: giving blocks up
  // ------------------------------------------------------------------

  lemma SameBits(f: Volume, g: Volume)
    requires FsOk(f) && Shape(g) && g.sb == f.sb && g.blocks == f.blocks
    requires forall c :: c in g.owner || c in g.loose <==> c in f.owner || c in f.loose
    ensures BitsOk(g)
  {
    forall c | 0 <= c < g.sb.size ensures Marked(g, c) == Marked(f, c) {
    }
  }

  lemma DetachRefs(f: Volume, k: int)
    requires FsOk(f) && 0 <= k < NDIRECT && f.ip.addrs[k] != 0
    ensures f.ip.addrs[k] !in f.loose && f.ip.addrs[k] in f.owner && f.owner[f.ip.addrs[k]] == (f.cur, k)
    ensures Shape(Detach(f, k)) && RefsBut(f, Detach(f, k), k)
  {
    assert Ref(f, f.cur, k) == f.ip.addrs[k];
    assert Detach(f, k).ip.addrs[NDIRECT] == f.ip.addrs[NDIRECT];
  }

  lemma DetachKept(f: Volume, k: int)
    requires FsOk(f) && 0 <= k < NDIRECT && f.ip.addrs[k] != 0
    requires f.ip.addrs[k] in f.owner && f.owner[f.ip.addrs[k]] == (f.cur, k)
    ensures OthersKept(f, Detach(f, k))
  {
    var g, a := Detach(f, k), f.ip.addrs[k] as int;
    assert g.owner == f.owner - {a} && g.blocks == f.blocks && g.sb == f.sb && g.cur == f.cur;
    forall b | b in f.owner && f.owner[b].0 != f.cur ensures b in g.owner && g.owner[b] == f.owner[b] {
      assert b != a;
    }
    OthersKeptBy(f, g);
  }

  lemma DetachOwns(f: Volume, k: int)
    requires FsOk(f) && 0 <= k < NDIRECT && f.ip.addrs[k] != 0
    requires Shape(Detach(f, k)) && RefsBut(f, Detach(f, k), k)
    ensures CurRefsOk(Detach(f, k)) && CurOwnersOk(Detach(f, k))
  {
    var g := Detach(f, k);
    assert Ref(f, f.cur, k) == f.ip.addrs[k];
    assert Ref(g, g.cur, k) == 0;
    forall b | b in g.owner && g.owner[b].0 == g.cur
      ensures g.sb.datastart <= b < g.sb.size && 0 <= g.owner[b].1 < SLOTS && Ref(g, g.cur, g.owner[b].1) == b
    {
      assert g.owner[b] == f.owner[b];
      assert Ref(g, g.cur, g.owner[b].1) == Ref(f, f.cur, g.owner[b].1);
    }
  }

  lemma DetachOk(f: Volume, k: int)
    requires FsOk(f) && 0 <= k < NDIRECT && f.ip.addrs[k] != 0
    ensures f.ip.addrs[k] !in f.loose && f.ip.addrs[k] in f.owner && f.owner[f.ip.addrs[k]] == (f.cur, k)
    ensures FsOk(Detach(f, k)) && OthersKept(f, Detach(f, k)) && RefsBut(f, Detach(f, k), k)
  {
    DetachRefs(f, k);
    DetachKept(f, k);
    DetachOwns(f, k);
    SameBits(f, Detach(f, k));
    OwnershipOk(f, Detach(f, k));
  }

  lemma DetachTreeRefs(f: Volume)
    requires FsOk(f)
    ensures var g := DetachTree(f);
            Shape(g) && forall j :: 0 <= j < SLOTS ==> Ref(g, g.cur, j) == if j < NDIRECT then Ref(f, f.cur, j) else 0
  {
  }

  lemma DetachTreeKept(f: Volume)
    requires FsOk(f)
    ensures OthersKept(f, DetachTree(f))
  {
    OthersKeptBy(f, DetachTree(f));
  }

  lemma DetachTreeOwns(f: Volume)
    requires FsOk(f)
    ensures Shape(DetachTree(f)) && CurRefsOk(DetachTree(f)) && CurOwnersOk(DetachTree(f))
  {
    var g := DetachTree(f);
    DetachTreeRefs(f);
    assert OwnersOk(f) && RefsOk(f);
    forall k | 0 <= k < SLOTS && Ref(g, g.cur, k) != 0
      ensures Ref(g, g.cur, k) in g.owner && g.owner[Ref(g, g.cur, k)] == (g.cur, k)
    {
      assert Ref(f, f.cur, k) in f.owner && !InTree(f, Ref(f, f.cur, k));
    }
  }

  lemma DetachTreeLoose(f: Volume)
    requires FsOk(f)
    ensures Shape(DetachTree(f)) && LooseOk(DetachTree(f)) && BitsOk(DetachTree(f))
  {
    SameBits(f, DetachTree(f));
    assert OwnersOk(f);
  }

  lemma DetachTreeOk(f: Volume)
    requires FsOk(f) && f.ip.addrs[NDIRECT] != 0
    ensures FsOk(DetachTree(f)) && OthersKept(f, DetachTree(f))
  {
    DetachTreeKept(f);
    DetachTreeOwns(f);
    DetachTreeLoose(f);
    OwnershipOk(f, DetachTree(f));
  }

  lemma FreeBits(f: Volume, b: int)
    requires FsOk(f) && b in f.loose
    ensures Shape(Free(f, b)) && BitsOk(Free(f, b))
  {
    var g := Free(f, b);
    forall c | 0 <= c < f.sb.size
      ensures Marked(g, c) <==> c < f.sb.datastart || c in g.owner || c in g.loose
    {
      MarkOk(f, b, false, c);
    }
  }

  lemma FreeRefs(f: Volume, b: int)
    requires FsOk(f) && b in f.loose
    ensures OthersKept(f, Free(f, b)) && RefsBut(f, Free(f, b), -1)
  {
    SameRefs(f, Free(f, b));
    OthersKeptBy(f, Free(f, b));
  }

  /** bfree of a loose block: it was marked, so there is no panic, and only its mark changes. */
  lemma FreeOk(f: Volume, b: int)
    requires FsOk(f) && b in f.loose
    ensures Marked(f, b) && FsOk(Free(f, b)) && OthersKept(f, Free(f, b)) && RefsBut(f, Free(f, b), -1)
  {
    FreeBits(f, b);
    FreeRefs(f, b);
    SameOwns(f, Free(f, b));
    OwnershipOk(f, Free(f, b));
  }

  // ------------------------------------------------------------------
  // The invariant in the terms of the disk alone
  // ------------------------------------------------------------------

  ghost predicate Referenced(f: Volume, b: int)
    requires Shape(f)
  {
    b != 0 && exists i, k {:trigger Ref(f, i, k)} :: IsSlot(f, i, k) && Ref(f, i, k) == b
  }

  /** With no block loose, the set bits are exactly the metadata and the referenced blocks. */
  lemma MarksAreReferences(f: Volume, b: int)
    requires FsOk(f) && f.loose == {} && 0 <= b < f.sb.size
    ensures Marked(f, b) <==> b < f.sb.datastart || Referenced(f, b)
  {
    if b in f.owner {
      assert Ref(f, f.owner[b].0, f.owner[b].1) == b;
    }
    if Referenced(f, b) {
      var i, k :| IsSlot(f, i, k) && Ref(f, i, k) == b;
      assert b in f.owner;
    }
  }

  /** No block is referenced twice. */
  lemma NoSharing(f: Volume, i: int, k: int, j: int, l: int)
    requires FsOk(f) && IsSlot(f, i, k) && IsSlot(f, j, l) && Ref(f, i, k) == Ref(f, j, l) != 0
    ensures i == j && k == l
  {
    assert f.owner[Ref(f, i, k)] == (i, k) == (j, l);
  }

  /** The invariant depends on the blocks, the inodes that count and the hands the
      blocks are in, and not on who looks. */
  lemma SameInodes(f: Volume, g: Volume)
    requires FsOk(f) && Shape(g) && g.sb == f.sb && g.blocks == f.blocks && g.owner == f.owner && g.loose == f.loose
    requires forall j :: 0 <= j < f.sb.ninodes ==> Ino(g, j) == Ino(f, j)
    ensures FsOk(g)
  {
    forall j, k | IsSlot(f, j, k) ensures Ref(g, j, k) == Ref(f, j, k) {
    }
    forall b | 0 <= b < f.sb.size ensures Marked(g, b) == Marked(f, b) {
    }
  }

  /** ilock of another inode: once the locked inode is on disk, any other can take its place. */
  ghost function Relock(f: Volume, i: int): Volume
    requires Shape(f) && 0 <= i < f.sb.ninodes
  {
    Volume(f.sb, f.blocks, i, Ino(f, i), f.held - {i}, f.owner, f.loose)
  }

  lemma RelockOk(f: Volume, i: int)
    requires FsOk(f) && Synced(f) && f.cur !in f.held && 0 <= i < f.sb.ninodes
    ensures FsOk(Relock(f, i))
    ensures forall j :: 0 <= j < f.sb.ninodes ==> Ino(Relock(f, i), j) == Ino(f, j)
  {
    var g := Relock(f, i);
    forall j | 0 <= j < f.sb.ninodes ensures Ino(g, j) == Ino(f, j) {
      assert DiskInode(g, j) == DiskInode(f, j);
    }
    SameInodes(f, g);
  }
}

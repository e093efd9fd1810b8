/** What bmap and the loop of writei (lab2/fs.c:372-400, 481-511) do to a volume,
    and the exact set of blocks they log. */
module FsWrite {
  import opened Words
  import opened Sealing
  import opened FsBytes
  import opened FsModel
  import opened FsProofs
  import opened FsCost

  /** FsOk, locked. */
  ghost predicate InOrder(f: Volume) { Shape(f) && forall x {:trigger Key(x)} :: Key(x) ==> FsOk(f) }

  lemma OrderIs(f: Volume)
    ensures InOrder(f) <==> FsOk(f)
  {
    assert Key(0);
  }

  /** OthersKept, locked. */
  ghost predicate Kept(f: Volume, g: Volume)
    requires InOrder(f)
  {
    && Shape(g) && g.sb == f.sb && g.cur == f.cur && g.held == f.held
    && forall x {:trigger Key(x)} :: Key(x) ==> OthersKept(f, g)
  }

  lemma KeptIs(f: Volume, g: Volume)
    requires InOrder(f)
    ensures Kept(f, g) <==> OthersKept(f, g)
  {
    assert Key(0);
  }

  lemma KeptTwice(f: Volume, g: Volume, h: Volume)
    requires InOrder(f) && InOrder(g) && Kept(f, g) && Kept(g, h)
    ensures Kept(f, h)
  {
    OrderIs(f);
    KeptIs(f, g);
    KeptIs(g, h);
    OthersKeptTwice(f, g, h);
  }

  /** All of the inode but its size and its references. */
  predicate SameKind(m: Inode, n: Inode)
  {
    n.typ == m.typ && n.major == m.major && n.minor == m.minor && n.nlink == m.nlink
  }

  predicate SameInode(m: Inode, n: Inode) { SameKind(m, n) && n.size == m.size }

  ghost predicate SameInodeBlocks(f: Volume, g: Volume)
    requires InOrder(f) && InOrder(g) && g.sb == f.sb
  {
    forall m :: 0 <= m < f.sb.bmapstart ==> g.blocks[m] == f.blocks[m]
  }

  /** The references of the locked inode. */
  ghost function Table(f: Volume): (r: seq<int>)
    requires InOrder(f)
    ensures TableOk(r) && forall k :: 0 <= k < SLOTS ==> r[k] == Ref(f, f.cur, k)
  {
    seq(SLOTS, k requires 0 <= k < SLOTS => Ref(f, f.cur, k) as int)
  }

  // ------------------------------------------------------------------
  // One allocation
  // ------------------------------------------------------------------

  /** The same volume but for references of the locked inode and new blocks. */
  ghost predicate Alike(f: Volume, g: Volume)
    requires InOrder(f)
  {
    InOrder(g) && Kept(f, g) && SameInode(f.ip, g.ip) && SameInodeBlocks(f, g) && g.loose == f.loose
  }

  lemma AlikeTwice(f: Volume, g: Volume, h: Volume)
    requires InOrder(f) && Alike(f, g) && Alike(g, h)
    ensures Alike(f, h)
  {
    KeptTwice(f, g, h);
  }

  /** Slot s, empty before, now holds the new block b; the bytes of every file are the same. */
  ghost predicate Grew(f: Volume, g: Volume, s: int, b: int)
    requires InOrder(f)
  {
    && Alike(f, g) && Content(g) == Content(f) && b != 0
    && 0 <= s < SLOTS && Table(f)[s] == 0 && Table(g) == Table(f)[s := b]
  }

  ghost predicate IsFree(f: Volume, b: int)
    requires InOrder(f)
  {
    0 <= b < f.sb.size && !Marked(f, b)
  }

  lemma GrewBy(f: Volume, h: Volume, g: Volume, s: int, b: int)
    requires InOrder(f) && InOrder(h) && InOrder(g) && Kept(f, h) && Kept(h, g) && 0 <= s < SLOTS && b != 0
    requires RefsBut(f, h, -1) && RefsBut(h, g, s) && Ref(h, h.cur, s) == 0 && Ref(g, g.cur, s) == b
    requires SameInode(f.ip, g.ip) && SameInodeBlocks(f, g) && g.loose == f.loose
    requires Content(h) == Content(f) && Content(g) == Content(h)
    ensures Grew(f, g, s, b)
  {
    KeptTwice(f, h, g);
    assert Ref(h, h.cur, s) == Ref(f, f.cur, s);
    forall k | 0 <= k < SLOTS && k != s ensures Table(g)[k] == Table(f)[k] {
      assert Ref(g, g.cur, k) == Ref(h, h.cur, k) == Ref(f, f.cur, k);
    }
    assert Table(g) == Table(f)[s := b];
  }

  lemma AllocFacts(f: Volume, b: word)
    requires InOrder(f) && IsFree(f, b)
    ensures InOrder(Alloc(f, b)) && Kept(f, Alloc(f, b)) && RefsBut(f, Alloc(f, b), -1)
    ensures b != 0 && b >= f.sb.datastart && b !in f.loose && f.loose + {b} - {b} == f.loose && Content(Alloc(f, b)) == Content(f)
    ensures SameInodeBlocks(f, Alloc(f, b)) && Alloc(f, b).blocks[b] == Zero()
  {
    AllocOrder(f, b);
    assert f.loose + {b as int} - {b as int} == f.loose;
  }

  lemma AllocOrder(f: Volume, b: word)
    requires InOrder(f) && IsFree(f, b)
    ensures InOrder(Alloc(f, b)) && Kept(f, Alloc(f, b)) && RefsBut(f, Alloc(f, b), -1) && Content(Alloc(f, b)) == Content(f)
    ensures b >= f.sb.datastart && b as int !in f.loose
  {
    OrderIs(f);
    AllocOk(f, b);
    assert BitsOk(f);
  }

  /** A new block for reference k of the inode. */
  ghost function NewBlock(f: Volume, k: int, b: word): Volume
    requires InOrder(f) && IsFree(f, b) && 0 <= k <= NDIRECT
  {
    Attach(Alloc(f, b), k, b)
  }

  lemma NewBlockOk(f: Volume, k: int, b: word)
    requires InOrder(f) && IsFree(f, b) && 0 <= k <= NDIRECT && f.ip.addrs[k] == 0
    ensures Grew(f, NewBlock(f, k, b), k, b)
  {
    AllocFacts(f, b);
    AttachFacts(Alloc(f, b), k, b);
    GrewBy(f, Alloc(f, b), NewBlock(f, k, b), k, b);
  }

  lemma AttachFacts(h: Volume, k: int, b: word)
    requires InOrder(h) && 0 <= k <= NDIRECT && h.ip.addrs[k] == 0 && b as int in h.loose && b < h.sb.size && h.blocks[b] == Zero()
    ensures var g := Attach(h, k, b);
            && InOrder(g) && Kept(h, g) && Content(g) == Content(h) && RefsBut(h, g, k)
            && Ref(h, h.cur, k) == 0 && Ref(g, g.cur, k) == b
  {
    OrderIs(h);
    AttachOk(h, k, b);
  }

  lemma AttachEntryFacts(h: Volume, j: int, b: word)
    requires InOrder(h) && 0 <= j < NINDIRECT && HasIndirect(h) && Ref(h, h.cur, NDIRECT + 1 + j) == 0
    requires b as int in h.loose && b < h.sb.size && h.blocks[b] == Zero()
    ensures var g := AttachEntry(h, j, b);
            && InOrder(g) && Kept(h, g) && Content(g) == Content(h) && RefsBut(h, g, NDIRECT + 1 + j)
            && Ref(g, g.cur, NDIRECT + 1 + j) == b && SameInodeBlocks(h, g)
  {
    OrderIs(h);
    AttachEntryOk(h, j, b);
    assert Ref(h, h.cur, NDIRECT) in h.owner;
  }

  /** A new block for entry j of the indirect block. */
  ghost function NewEntry(f: Volume, j: int, b: word): Volume
    requires InOrder(f) && IsFree(f, b) && 0 <= j < NINDIRECT && HasIndirect(f)
  {
    AttachEntry(Alloc(f, b), j, b)
  }

  lemma NewEntryOk(f: Volume, j: int, b: word)
    requires InOrder(f) && IsFree(f, b) && 0 <= j < NINDIRECT && HasIndirect(f) && Ref(f, f.cur, NDIRECT + 1 + j) == 0
    ensures Grew(f, NewEntry(f, j, b), NDIRECT + 1 + j, b) && NewEntry(f, j, b).ip == f.ip
  {
    AllocFacts(f, b);
    var h := Alloc(f, b);
    assert Ref(h, h.cur, NDIRECT + 1 + j) == Ref(f, f.cur, NDIRECT + 1 + j);
    AttachEntryFacts(h, j, b);
    GrewBy(f, h, NewEntry(f, j, b), NDIRECT + 1 + j, b);
  }

  // ------------------------------------------------------------------
  // bmap
  // ------------------------------------------------------------------

  /** What bmap of block n does, logging L. */
  ghost predicate Mapped(f: Volume, g: Volume, n: int, L: set<int>)
    requires InOrder(f) && 0 <= n < MAXFILE
  {
    && Alike(f, g) && Content(g) == Content(f) && MapsTo(Table(f), Table(g), n)
    && L == MapCost(f.sb, Table(f), Table(g), n) && (Table(f)[SlotOf(n)] != 0 ==> g == f)
  }

  lemma MapPresent(f: Volume, n: int)
    requires InOrder(f) && 0 <= n < MAXFILE && Table(f)[SlotOf(n)] != 0
    ensures Mapped(f, f, n, {})
  {
  }

  lemma MapDirect(f: Volume, g: Volume, n: int, b: int)
    requires InOrder(f) && 0 <= n < NDIRECT && Grew(f, g, n, b)
    ensures Mapped(f, g, n, {f.sb.BBlock(b), b})
  {
  }

  lemma MapEntry(f: Volume, g: Volume, n: int, b: int)
    requires InOrder(f) && NDIRECT <= n < MAXFILE && Table(f)[NDIRECT] != 0 && Grew(f, g, n + 1, b)
    ensures Mapped(f, g, n, {f.sb.BBlock(b), b, Table(f)[NDIRECT]})
  {
  }

  /** With the indirect block made first. */
  lemma MapBoth(f: Volume, h: Volume, g: Volume, n: int, a: int, b: int)
    requires InOrder(f) && NDIRECT <= n < MAXFILE && Grew(f, h, NDIRECT, a) && Grew(h, g, n + 1, b)
    ensures Mapped(f, g, n, {f.sb.BBlock(a), a, f.sb.BBlock(b), b})
  {
    AlikeTwice(f, h, g);
    assert Table(g) == Table(f)[NDIRECT := a][n + 1 := b];
  }

  // ------------------------------------------------------------------
  // The loop of writei
  // ------------------------------------------------------------------

  /** The loop after writing d at o, that is blocks lo to hi - 1, logging L. */
  ghost predicate Progress(f: Volume, g: Volume, lo: int, hi: int, o: int, d: seq<byte>, L: set<int>)
    requires InOrder(f)
  {
    && 0 <= lo <= hi <= MAXFILE && 0 <= o && o + |d| <= MAXFILE * BSIZE
    && Alike(f, g) && Filled(Table(f), Table(g), lo, hi) && LogIs(f.sb, Table(f), Table(g), lo, hi, L)
    && Content(g) == Splice(Content(f), o, d) && (AllThere(Table(f), lo, hi) ==> g.ip == f.ip)
  }

  lemma ProgressStart(f: Volume, lo: int, o: int)
    requires InOrder(f) && 0 <= lo <= MAXFILE && 0 <= o <= MAXFILE * BSIZE
    ensures Progress(f, f, lo, lo, o, [], {})
  {
    assert Splice(Content(f), o, []) == Content(f);
  }

  /** Writing e into block n of the file. */
  lemma PokeFacts(f: Volume, n: int, o: int, e: seq<byte>)
    requires InOrder(f) && IsData(f, n) && 0 <= o && o + |e| <= BSIZE
    ensures Alike(f, PokeFile(f, n, o, e)) && Table(PokeFile(f, n, o, e)) == Table(f)
    ensures Content(PokeFile(f, n, o, e)) == Splice(Content(f), n * BSIZE + o, e)
  {
    var g := PokeFile(f, n, o, e);
    PokeOrder(f, n, o, e);
    forall k | 0 <= k < SLOTS ensures Table(g)[k] == Table(f)[k] {
      assert Ref(g, g.cur, k) == Ref(f, f.cur, k);
    }
  }

  lemma PokeOrder(f: Volume, n: int, o: int, e: seq<byte>)
    requires InOrder(f) && IsData(f, n) && 0 <= o && o + |e| <= BSIZE
    ensures var g := PokeFile(f, n, o, e);
            && InOrder(g) && Kept(f, g) && RefsBut(f, g, -1) && SameInodeBlocks(f, g)
            && Content(g) == Splice(Content(f), n * BSIZE + o, e)
  {
    OrderIs(f);
    PokeOk(f, n, o, e);
    assert Ref(f, f.cur, SlotOf(n)) in f.owner;
  }

  lemma SpliceTwice(s: seq<byte>, o: int, d: seq<byte>, e: seq<byte>)
    requires 0 <= o && o + |d| + |e| <= |s|
    ensures Splice(Splice(s, o, d), o + |d|, e) == Splice(s, o, d + e)
  {
  }

  /** One turn of the loop: find or make block hi, then write into it. */
  lemma ProgressStep(f: Volume, g: Volume, h: Volume, k: Volume, lo: int, hi: int, o: int, d: seq<byte>, e: seq<byte>,
                     L: set<int>, M: set<int>)
    requires InOrder(f) && Progress(f, g, lo, hi, o, d, L) && hi < MAXFILE && Mapped(g, h, hi, M)
    requires o + |d| + |e| <= MAXFILE * BSIZE && Alike(h, k) && Table(k) == Table(h) && k.ip == h.ip
    requires Content(k) == Splice(Content(h), o + |d|, e)
    ensures Progress(f, k, lo, hi + 1, o, d + e, L + M + {Table(h)[SlotOf(hi)]})
  {
    AlikeTwice(f, g, h);
    AlikeTwice(f, h, k);
    FilledStep(Table(f), Table(g), Table(h), lo, hi);
    LogStep(f.sb, Table(f), Table(g), Table(h), lo, hi, L);
    SpliceTwice(Content(f), o, d, e);
  }

  // ------------------------------------------------------------------
  // The whole of writei
  // ------------------------------------------------------------------

  /** The file after d is written at o, which may make it longer. */
  function Overwrite(s: seq<byte>, o: int, d: seq<byte>): seq<byte>
    requires 0 <= o <= |s|
  {
    s[..o] + d + if o + |d| < |s| then s[o + |d|..] else []
  }

  /** The locked file is in order between operations: its inode is on disk and it has no holes. */
  ghost predicate Settled(f: Volume) { InOrder(f) && Synced(f) && NoHoles(f.blocks, f.ip) }

  ghost function Bytes(f: Volume): seq<byte>
    requires Settled(f)
  {
    File(f, f.cur)
  }

  ghost predicate Written(f: Volume, g: Volume, o: int, d: seq<byte>)
    requires Settled(f) && 0 <= o <= f.ip.size
  {
    Settled(g) && Kept(f, g) && SameKind(f.ip, g.ip) && g.loose == f.loose && Bytes(g) == Overwrite(Bytes(f), o, d)
  }

  lemma NoHolesAre(f: Volume)
    requires InOrder(f) && f.ip.size <= MAXFILE * BSIZE
    ensures NoHoles(f.blocks, f.ip) <==> AllThere(Table(f), 0, (f.ip.size + BSIZE - 1) / BSIZE)
  {
    forall k | 0 <= k < MAXFILE ensures RefOf(f.blocks, f.ip, SlotOf(k)) == Table(f)[SlotOf(k)] {
    }
  }

  /** The blocks that a write of n bytes at o touches. */
  function LastBlock(o: int, n: int): int
  {
    if n == 0 then o / BSIZE else (o + n - 1) / BSIZE + 1
  }

  lemma StillNoHoles(f: Volume, g: Volume, o: int, d: seq<byte>, L: set<int>, size: int)
    requires Settled(f) && 0 <= o <= f.ip.size && o + |d| <= MAXFILE * BSIZE
    requires Progress(f, g, o / BSIZE, LastBlock(o, |d|), o, d, L)
    requires size == if o + |d| > f.ip.size then o + |d| else f.ip.size
    ensures AllThere(Table(g), 0, (size + BSIZE - 1) / BSIZE)
  {
    NoHolesAre(f);
    forall k | 0 <= k < MAXFILE && k < (size + BSIZE - 1) / BSIZE ensures Table(g)[SlotOf(k)] != 0 {
      assert k < (f.ip.size + BSIZE - 1) / BSIZE || o / BSIZE <= k < LastBlock(o, |d|);
    }
  }

  /** Within the old size nothing was allocated, so the inode on disk is still right. */
  lemma WrittenInside(f: Volume, g: Volume, o: int, d: seq<byte>, L: set<int>)
    requires Settled(f) && 0 <= o && o + |d| <= f.ip.size
    requires Progress(f, g, o / BSIZE, LastBlock(o, |d|), o, d, L)
    ensures Written(f, g, o, d)
  {
    assert AllThere(Table(f), o / BSIZE, LastBlock(o, |d|)) by { NoHolesAre(f); }
    assert NoHoles(g.blocks, g.ip) by {
      StillNoHoles(f, g, o, d, L, f.ip.size);
      NoHolesAre(g);
    }
    assert Synced(g) by { assert f.sb.IBlock(f.cur) <= f.sb.IBlock(f.sb.ninodes - 1); }
    InsideBytes(f, g, o, d);
  }

  lemma InsideBytes(f: Volume, g: Volume, o: int, d: seq<byte>)
    requires Settled(f) && Settled(g) && 0 <= o && o + |d| <= f.ip.size == g.ip.size && Content(g) == Splice(Content(f), o, d)
    ensures Bytes(g) == Overwrite(Bytes(f), o, d)
  {
    FileIsContent(f);
    FileIsContent(g);
    SpliceInside(Content(f), f.ip.size, o, d);
  }

  lemma SpliceInside(s: seq<byte>, n: int, o: int, d: seq<byte>)
    requires 0 <= o && o + |d| <= n <= |s|
    ensures Splice(s, o, d)[..n] == Overwrite(s[..n], o, d)
  {
  }

  lemma SplicePast(s: seq<byte>, n: int, o: int, d: seq<byte>)
    requires 0 <= o <= n < o + |d| <= |s|
    ensures Splice(s, o, d)[..o + |d|] == Overwrite(s[..n], o, d)
  {
  }

  /** The size, and with it the whole inode, is put on disk. */
  ghost predicate Finished(g: Volume, k: Volume, size: int)
    requires InOrder(g)
  {
    && InOrder(k) && Kept(g, k) && Synced(k) && Content(k) == Content(g) && Table(k) == Table(g)
    && k.loose == g.loose && k.owner == g.owner && SameKind(g.ip, k.ip) && k.ip.size == size
  }

  lemma FinishOk(g: Volume, size: word)
    requires InOrder(g)
    ensures Finished(g, Sync(Resize(g, size)), size)
  {
    ResizeFacts(g, size);
    var h := Resize(g, size);
    SyncFacts(h);
    var k := Sync(h);
    KeptTwice(g, h, k);
    forall j | 0 <= j < SLOTS ensures Table(k)[j] == Table(g)[j] {
      assert Ref(k, k.cur, j) == Ref(h, h.cur, j) == Ref(g, g.cur, j);
    }
  }

  lemma ResizeFacts(g: Volume, size: word)
    requires InOrder(g)
    ensures InOrder(Resize(g, size)) && Kept(g, Resize(g, size)) && Content(Resize(g, size)) == Content(g)
  {
    OrderIs(g);
    ResizeOk(g, size);
  }

  lemma SyncFacts(h: Volume)
    requires InOrder(h)
    ensures InOrder(Sync(h)) && Kept(h, Sync(h)) && Synced(Sync(h)) && Content(Sync(h)) == Content(h) && RefsBut(h, Sync(h), -1)
  {
    OrderIs(h);
    SyncOk(h);
  }

  /** Past the old size the new size and references are put on disk. */
  lemma WrittenPast(f: Volume, g: Volume, k: Volume, o: int, d: seq<byte>, L: set<int>)
    requires Settled(f) && 0 <= o <= f.ip.size < o + |d| <= MAXFILE * BSIZE
    requires Progress(f, g, o / BSIZE, LastBlock(o, |d|), o, d, L) && Finished(g, k, o + |d|)
    ensures Written(f, k, o, d)
  {
    KeptTwice(f, g, k);
    StillNoHoles(f, g, o, d, L, o + |d|);
    PastSettled(f, k, o, d);
  }

  lemma PastSettled(f: Volume, k: Volume, o: int, d: seq<byte>)
    requires Settled(f) && 0 <= o <= f.ip.size < o + |d| <= MAXFILE * BSIZE && k.ip.size == o + |d|
    requires InOrder(k) && Synced(k) && Kept(f, k) && SameKind(f.ip, k.ip) && k.loose == f.loose
    requires AllThere(Table(k), 0, (o + |d| + BSIZE - 1) / BSIZE) && Content(k) == Splice(Content(f), o, d)
    ensures Written(f, k, o, d)
  {
    NoHolesAre(k);
    PastBytes(f, k, o, d);
  }

  lemma PastBytes(f: Volume, k: Volume, o: int, d: seq<byte>)
    requires Settled(f) && Settled(k) && 0 <= o <= f.ip.size < o + |d| <= MAXFILE * BSIZE && k.ip.size == o + |d|
    requires Content(k) == Splice(Content(f), o, d)
    ensures Bytes(k) == Overwrite(Bytes(f), o, d)
  {
    FileIsContent(f);
    FileIsContent(k);
    SplicePast(Content(f), f.ip.size, o, d);
  }

  /** The blocks logged by a whole writei. */
  ghost function WriteiCost(f: Volume, g: Volume, o: int, n: int): set<int>
    requires InOrder(f) && InOrder(g) && 0 <= o && 0 <= n && o + n <= MAXFILE * BSIZE
  {
    WriteCost(f.sb, Table(f), Table(g), o / BSIZE, LastBlock(o, n)) + if o + n > f.ip.size then {f.sb.IBlock(f.cur)} else {}
  }

  /** Every chunk of filewrite fits a transaction. */
  lemma WriteiFits(f: Volume, g: Volume, o: int, n: int)
    requires Settled(f) && InOrder(g) && 0 <= o <= f.ip.size && 0 <= n <= CHUNK && o + n <= MAXFILE * BSIZE
    ensures |WriteiCost(f, g, o, n)| <= MAXOPBLOCKS
  {
    if n > 0 {
      NoHolesAre(f);
      assert o % 512 != 0 ==> o / 512 < (f.ip.size + BSIZE - 1) / BSIZE;
      ChunkFits(f.sb, Table(f), Table(g), o, n, f.sb.IBlock(f.cur));
      SubsetSize(WriteiCost(f, g, o, n),
                 WriteCost(f.sb, Table(f), Table(g), o / 512, (o + n - 1) / 512 + 1) + {f.sb.IBlock(f.cur)});
    }
  }

  /** The bytes below the size are those of the blocks. */
  lemma ByteInBlock(f: Volume, n: int, p: int)
    requires Settled(f) && IsData(f, n) && 0 <= p < BSIZE && n * BSIZE + p < f.ip.size
    ensures Bytes(f)[n * BSIZE + p] == f.blocks[Ref(f, f.cur, SlotOf(n))][p]
  {
    DivIs(n * BSIZE + p, BSIZE, n, p);
    assert Bytes(f)[n * BSIZE + p] == ByteOf(f.blocks, f.ip, n * BSIZE + p);
  }

  lemma BytesInBlock(f: Volume, n: int, p: int, m: int)
    requires Settled(f) && IsData(f, n) && 0 <= p && 0 <= m && p + m <= BSIZE && n * BSIZE + p + m <= f.ip.size
    ensures Bytes(f)[n * BSIZE + p..n * BSIZE + p + m] == f.blocks[Ref(f, f.cur, SlotOf(n))][p..p + m]
  {
    forall k | p <= k < p + m
      ensures Bytes(f)[n * BSIZE + k] == f.blocks[Ref(f, f.cur, SlotOf(n))][k]
    {
      ByteInBlock(f, n, k);
    }
  }

  lemma ProgressPoke(f: Volume, g: Volume, h: Volume, lo: int, hi: int, o: int, d: seq<byte>, p: int, e: seq<byte>,
                     L: set<int>, M: set<int>)
    requires InOrder(f) && Progress(f, g, lo, hi, o, d, L) && hi < MAXFILE && Mapped(g, h, hi, M)
    requires IsData(h, hi) && o + |d| == hi * BSIZE + p && 0 <= p && p + |e| <= BSIZE
    ensures Progress(f, PokeFile(h, hi, p, e), lo, hi + 1, o, d + e, L + M + {Table(h)[SlotOf(hi)]})
  {
    PokeFacts(h, hi, p, e);
    ProgressStep(f, g, h, PokeFile(h, hi, p, e), lo, hi, o, d, e, L, M);
  }

  lemma OverwriteTwice(s: seq<byte>, o: int, d: seq<byte>, e: seq<byte>)
    requires 0 <= o <= |s|
    ensures Overwrite(Overwrite(s, o, d), o + |d|, e) == Overwrite(s, o, d + e)
  {
  }

  lemma WrittenBytes(f: Volume, g: Volume, h: Volume, o: int, d: seq<byte>, p: int, e: seq<byte>, de: seq<byte>)
    requires Settled(f) && Settled(g) && Settled(h) && 0 <= o <= f.ip.size && p == o + |d| <= g.ip.size && de == d + e
    requires Bytes(g) == Overwrite(Bytes(f), o, d) && Bytes(h) == Overwrite(Bytes(g), p, e)
    ensures Bytes(h) == Overwrite(Bytes(f), o, de)
  {
    OverwriteOn(Bytes(f), Bytes(g), Bytes(h), o, d, p, e, de);
  }

  lemma OverwriteOn(a: seq<byte>, b: seq<byte>, c: seq<byte>, o: int, d: seq<byte>, p: int, e: seq<byte>, de: seq<byte>)
    requires 0 <= o <= |a| && p == o + |d| <= |b| && b == Overwrite(a, o, d) && c == Overwrite(b, p, e) && de == d + e
    ensures c == Overwrite(a, o, de)
  {
    OverwriteTwice(a, o, d, e);
  }

  lemma WrittenTwice(f: Volume, g: Volume, h: Volume, o: int, d: seq<byte>, p: int, e: seq<byte>, de: seq<byte>)
    requires Settled(f) && 0 <= o <= f.ip.size && Written(f, g, o, d) && p == o + |d| <= g.ip.size && Written(g, h, p, e)
    requires de == d + e
    ensures Written(f, h, o, de)
  {
    KeptTwice(f, g, h);
    WrittenBytes(f, g, h, o, d, p, e, de);
  }

  lemma WrittenNothing(f: Volume, o: int)
    requires Settled(f) && 0 <= o <= f.ip.size
    ensures Written(f, f, o, [])
  {
    assert Kept(f, f) by { KeptIs(f, f); }
    assert Overwrite(Bytes(f), o, []) == Bytes(f);
  }

  lemma PastCost(f: Volume, g: Volume, k: Volume, o: int, d: seq<byte>, L: set<int>)
    requires InOrder(f) && InOrder(g) && 0 <= o <= f.ip.size < o + |d| <= MAXFILE * BSIZE
    requires Progress(f, g, o / BSIZE, LastBlock(o, |d|), o, d, L) && Finished(g, k, o + |d|)
    ensures InOrder(k) && L + {f.sb.IBlock(f.cur)} == WriteiCost(f, k, o, |d|)
  {
  }
}

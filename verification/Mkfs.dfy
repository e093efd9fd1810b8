/** lab2/mkfs.c: the first file system.  ialloc and iappend fill a zeroed disk from
    `freeblock` up, and balloc writes the free map at the end. */
module Mkfs {
  import opened Sealing
  import opened FsBytes
  import opened FsModel
  import opened FsProofs
  import opened FsWrite
  import opened FsLocked
  import opened MkfsModel

  /** Every inode is on disk, and every file has exactly the blocks that its size needs. */
  ghost predicate Tidy(f: Volume)
  {
    Ok(f) && f.held == map[] && forall x {:trigger Key(x)} :: Key(x) ==> Synced(f) && AllFit(f)
  }

  ghost predicate AllFit(f: Volume)
    requires Shape(f)
  {
    forall i :: 0 <= i < f.sb.ninodes ==> Fits(f.blocks, Ino(f, i))
  }

  /** The blocks below the size are there, and no others are. */
  ghost predicate Fits(blocks: seq<Block>, n: Inode) { NoHoles(blocks, n) && NonePast(blocks, n) }

  ghost predicate NonePast(blocks: seq<Block>, n: Inode)
  {
    forall k :: 0 <= k < MAXFILE && n.size <= k * BSIZE ==> RefOf(blocks, n, SlotOf(k)) == 0
  }

  lemma TidyLock(f: Volume, i: int)
    requires Tidy(f) && 0 <= i < f.sb.ninodes
    ensures Tidy(Relock(f, i)) && Clean(Relock(f, i))
  {
    assert Key(0);
    RelockOk(f, i);
    var g := Relock(f, i);
    assert Ino(g, i) == Ino(f, i) == DiskInode(f, i) == DiskInode(g, i);
    assert Fits(g.blocks, Ino(g, i));
  }

  lemma StillFits(f: Volume, g: Volume, i: int)
    requires FsOk(f) && OthersKept(f, g) && 0 <= i < f.sb.ninodes && i != f.cur && Fits(f.blocks, Ino(f, i))
    ensures Fits(g.blocks, Ino(g, i))
  {
    assert Ino(g, i) == Ino(f, i);
    forall k | 0 <= k < MAXFILE ensures RefOf(g.blocks, Ino(g, i), SlotOf(k)) == RefOf(f.blocks, Ino(f, i), SlotOf(k)) {
      OtherRefs(f, g, i, SlotOf(k));
    }
  }

  lemma TidyAfter(f: Volume, g: Volume, o: int, d: seq<byte>)
    requires Tidy(f) && Clean(f) && 0 <= o <= f.ip.size && Wrote(f, g, o, d) && NonePast(g.blocks, g.ip)
    ensures Tidy(g)
  {
    assert AllFit(f) by { assert Key(0); }
    WroteKept(f, g, o, d);
    forall i | 0 <= i < g.sb.ninodes ensures Fits(g.blocks, Ino(g, i)) {
      if i != f.cur { StillFits(f, g, i); }
    }
  }

  /** v is the volume that balloc will make of the disk under construction. */
  ghost predicate Built(sb: Super, blocks: seq<Block>, n: int, v: Volume)
  {
    && Sized(sb, blocks) && 0 <= n <= sb.size && Ok(v) && v.sb == sb
    && forall x {:trigger Turn(x)} :: Turn(x) ==> Laid(sb, blocks, n) && v == Seen(sb, blocks, n, v.cur, v.ip, v.owner)
  }

  /** Gave, sealed. */
  ghost predicate GaveBlock(f: Volume, g: Volume, s: int, b: int)
    requires Ok(f)
  {
    Ok(g) && forall x {:trigger Seal(x)} :: Seal(x) ==> Gave(f, g, s, b)
  }

  lemma GaveBlockIs(f: Volume, g: Volume, s: int, b: int)
    requires Ok(f) && GaveBlock(f, g, s, b)
    ensures Gave(f, g, s, b)
  {
    assert Seal(0);
  }

  /** References of a disk under construction are below freeblock. */
  lemma RefBelow(sb: Super, blocks: seq<Block>, n: int, v: Volume, k: int)
    requires Built(sb, blocks, n, v) && 0 <= k < SLOTS && Refs(v)[k] != 0
    ensures sb.datastart <= Refs(v)[k] < n && v.blocks[Refs(v)[k]] == blocks[Refs(v)[k]]
  {
    assert Key(0);
    assert Turn(0);
    var r := Ref(v, v.cur, k);
    assert r in v.owner;
    SeenMarks(sb, blocks, n, v.cur, v.ip, v.owner, r);
    TakenPut(sb, blocks, n, r, Zero());
  }

  lemma GaveRef(sb: Super, blocks: seq<Block>, n: int, v: Volume, k: int) returns (w: Volume)
    requires Built(sb, blocks, n, v) && n < sb.size && 0 <= k <= NDIRECT && v.ip.addrs[k] == 0
    ensures Built(sb, blocks, n + 1, w) && GaveBlock(v, w, k, n) && w.ip == WithAddr(v.ip, k, n) && w.ip.addrs[k] == n
  {
    assert Laid(sb, blocks, n) && v == Seen(sb, blocks, n, v.cur, v.ip, v.owner) by { assert Turn(0); }
    SeenRef(sb, blocks, n, v.cur, v.ip, v.owner, k);
    BlockGiven(v, k, n);
    w := Attach(Alloc(v, n), k, n);
  }

  /** The indirect block, if there is one, is as in the volume. */
  lemma ReadIndirect(sb: Super, blocks: seq<Block>, n: int, v: Volume)
    requires Built(sb, blocks, n, v) && v.ip.addrs[NDIRECT] != 0
    ensures var a := v.ip.addrs[NDIRECT]; sb.datastart <= a < n && HasIndirect(v) && v.blocks[a] == blocks[a]
  {
    ReadsRefs(v, NDIRECT);
    RefBelow(sb, blocks, n, v, NDIRECT);
  }

  function PutEntry(blocks: seq<Block>, a: int, j: int, b: word): seq<Block>
    requires 0 <= a < |blocks| && 0 <= j < NINDIRECT
  {
    blocks[a := WithWord(blocks[a], j, b)]
  }

  lemma GaveEntry(sb: Super, blocks: seq<Block>, n: int, v: Volume, j: int) returns (w: Volume)
    requires Built(sb, blocks, n, v) && n < sb.size && 0 <= j < NINDIRECT && v.ip.addrs[NDIRECT] != 0 && Refs(v)[NDIRECT + 1 + j] == 0
    ensures HasIndirect(v) && 0 <= v.ip.addrs[NDIRECT] < |blocks|
    ensures Built(sb, PutEntry(blocks, v.ip.addrs[NDIRECT], j, n), n + 1, w) && GaveBlock(v, w, NDIRECT + 1 + j, n) && w.ip == v.ip
  {
    assert Laid(sb, blocks, n) && v == Seen(sb, blocks, n, v.cur, v.ip, v.owner) by { assert Turn(0); }
    ReadIndirect(sb, blocks, n, v);
    SeenEntry(sb, blocks, n, v.cur, v.ip, v.owner, j);
    EntryGiven(v, j, n);
    w := AttachEntry(Alloc(v, n), j, n);
  }

  lemma PutGaveEntry(sb: Super, blocks: seq<Block>, n: int, v: Volume, j: int, a: word, x: word, n1: int) returns (w: Volume)
    requires Built(sb, blocks, n, v) && n < sb.size && 0 <= j < NINDIRECT && a == v.ip.addrs[NDIRECT] != 0
    requires Refs(v)[NDIRECT + 1 + j] == 0 && x == n && n1 == n + 1
    ensures a < |blocks| && Built(sb, PutEntry(blocks, a, j, x), n1, w) && GaveBlock(v, w, NDIRECT + 1 + j, x) && w.ip == v.ip
  {
    w := GaveEntry(sb, blocks, n, v, j);
  }

  function PutBytes(blocks: seq<Block>, x: int, p: int, e: seq<byte>): seq<Block>
    requires 0 <= x < |blocks| && 0 <= p && p + |e| <= BSIZE
  {
    blocks[x := WithBytes(blocks[x], p, e)]
  }

  /** Writing e into block fbn of the file. */
  lemma WroteBytes(sb: Super, blocks: seq<Block>, n: int, v: Volume, fbn: int, p: int, e: seq<byte>)
    requires Built(sb, blocks, n, v) && 0 <= fbn < MAXFILE && 0 <= p && p + |e| <= BSIZE && IsData(v, fbn)
    requires Ok(PokeFile(v, fbn, p, e))
    ensures var x := Refs(v)[SlotOf(fbn)]; 0 <= x < |blocks| && Built(sb, PutBytes(blocks, x, p, e), n, PokeFile(v, fbn, p, e))
  {
    assert Laid(sb, blocks, n) && v == Seen(sb, blocks, n, v.cur, v.ip, v.owner) by { assert Turn(0); }
    var x := Refs(v)[SlotOf(fbn)];
    assert x == Ref(v, v.cur, SlotOf(fbn)) by { assert Key(0); }
    RefBelow(sb, blocks, n, v, SlotOf(fbn));
    SeenPut(sb, blocks, n, v.cur, v.ip, v.owner, x, WithBytes(blocks[x], p, e));
  }

  // ------------------------------------------------------------------
  // Inodes
  // ------------------------------------------------------------------

  ghost function ReadInode(sb: Super, blocks: seq<Block>, i: int): Inode
    requires Sized(sb, blocks) && 0 <= i < sb.ninodes
  {
    assert sb.IBlock(i) <= sb.IBlock(sb.ninodes - 1);
    WordsInode(blocks[sb.IBlock(i)], i % IPB)
  }

  /** Inodes from freeinode on have not been used. */
  ghost predicate Unborn(v: Volume, n: int)
    requires Shape(v)
  {
    0 <= n && forall x {:trigger Key(x)} :: Key(x) ==> forall i :: n <= i < v.sb.ninodes ==> Ino(v, i) == Empty()
  }

  /** rinode reads what the volume has. */
  lemma Reread(sb: Super, blocks: seq<Block>, n: int, v: Volume, inum: int) returns (w: Volume)
    requires Built(sb, blocks, n, v) && Tidy(v) && 0 <= inum < sb.ninodes
    ensures Built(sb, blocks, n, w) && Tidy(w) && Clean(w) && w.cur == inum && w == Relock(v, inum)
    ensures w.ip == ReadInode(sb, blocks, inum)
  {
    w := Relock(v, inum);
    TidyLock(v, inum);
    assert Laid(sb, blocks, n) && v == Seen(sb, blocks, n, v.cur, v.ip, v.owner) && Synced(v) by {
      assert Key(0);
      assert Turn(0);
    }
    assert v.held - {inum} == map[];
    assert sb.IBlock(inum) <= sb.IBlock(sb.ninodes - 1);
    TakenPut(sb, blocks, n, sb.IBlock(inum), Zero());
  }

  lemma UnbornStill(v: Volume, inum: int, m: int)
    requires Ok(v) && Tidy(v) && Unborn(v, m) && 0 <= inum < v.sb.ninodes
    ensures Unborn(Relock(v, inum), m)
  {
    assert Key(0);
    RelockOk(v, inum);
  }

  lemma UnbornAfter(f: Volume, g: Volume, o: int, d: seq<byte>, m: int)
    requires Clean(f) && 0 <= o <= f.ip.size && Wrote(f, g, o, d) && Unborn(f, m) && f.cur < m
    ensures Unborn(g, m)
  {
    WroteKept(f, g, o, d);
    UnbornKept(f, g, m, m);
  }

  lemma UnbornKept(f: Volume, g: Volume, m: int, m': int)
    requires Shape(f) && OthersKept(f, g) && Unborn(f, m) && m <= m' && f.cur < m'
    ensures Unborn(g, m')
  {
    forall i | m' <= i < g.sb.ninodes ensures Ino(g, i) == Empty() {
      assert Ino(g, i) == Ino(f, i);
      assert Key(0);
    }
  }

  /** winode. */
  lemma PutInodeBuilt(sb: Super, blocks: seq<Block>, n: int, v: Volume)
    requires Built(sb, blocks, n, v) && Ok(Sync(v))
    ensures 0 <= sb.IBlock(v.cur) < |blocks| && Built(sb, PutInode(sb, blocks, v.cur, v.ip), n, Sync(v))
  {
    assert Laid(sb, blocks, n) && v == Seen(sb, blocks, n, v.cur, v.ip, v.owner) by { assert Turn(0); }
    var m := sb.IBlock(v.cur);
    assert m <= sb.IBlock(sb.ninodes - 1);
    SeenPut(sb, blocks, n, v.cur, v.ip, v.owner, m, WithInode(blocks[m], v.cur % IPB, v.ip));
  }

  lemma SameTable(v: Volume, w: Volume)
    requires Ok(v) && Ok(w) && w.sb == v.sb && w.cur == v.cur && RefsBut(v, w, -1)
    ensures Refs(w) == Refs(v)
  {
    assert InOrder(v) && InOrder(w) by { assert Key(0); }
    forall k | 0 <= k < SLOTS ensures Refs(w)[k] == Refs(v)[k] {
      assert Ref(w, w.cur, k) == Ref(v, v.cur, k);
    }
  }

  /** The inode in memory gets another size or type, and the same references. */
  lemma Retyped(sb: Super, blocks: seq<Block>, n: int, v: Volume, ip: Inode) returns (w: Volume)
    requires Built(sb, blocks, n, v) && ip.addrs == v.ip.addrs
    ensures Built(sb, blocks, n, w) && w == Retype(v, ip)
    ensures OthersKept(v, w) && Refs(w) == Refs(v) && Content(w) == Content(v)
  {
    w := Retype(v, ip);
    assert FsOk(v) by { assert Key(0); }
    RetypeOk(v, ip);
    assert Ok(w);
    SameTable(v, w);
    assert Laid(sb, blocks, n) && v == Seen(sb, blocks, n, v.cur, v.ip, v.owner) by { assert Turn(0); }
  }

  /** ... and is put on disk. */
  lemma Rewritten(sb: Super, blocks: seq<Block>, n: int, v: Volume, ip: Inode) returns (w: Volume)
    requires Built(sb, blocks, n, v) && ip.addrs == v.ip.addrs
    ensures 0 <= v.cur && 0 <= sb.IBlock(v.cur) < |blocks| && Built(sb, PutInode(sb, blocks, v.cur, ip), n, w)
    ensures w == Sync(Retype(v, ip))
    ensures OthersKept(v, w) && Synced(w) && Refs(w) == Refs(v) && Content(w) == Content(v)
  {
    var u := Retyped(sb, blocks, n, v, ip);
    assert FsOk(v) && FsOk(u) by { assert Key(0); }
    SyncOk(u);
    w := Sync(u);
    assert Ok(w);
    PutInodeBuilt(sb, blocks, n, u);
    OthersKeptTwice(v, u, w);
    SameTable(u, w);
  }

  lemma ClosedIs(v: Volume, size: word)
    requires Ok(v)
    ensures Closed(v, Sync(Retype(v, WithSize(v.ip, size))), size)
  {
    CloseOk(v, size);
  }

  /** Nothing appended: the inode is written back as it was. */
  lemma NothingAppended(f: Volume, w: Volume)
    requires Clean(f) && Closed(f, w, f.ip.size)
    ensures Wrote(f, w, f.ip.size, [])
  {
    assert Settled(f) && Finished(f, w, f.ip.size) by { assert Key(0); }
    FinishedSame(f, w);
  }

  lemma FinishedSame(f: Volume, w: Volume)
    requires Settled(f) && Finished(f, w, f.ip.size)
    ensures Written(f, w, f.ip.size, [])
  {
    assert NoHoles(w.blocks, w.ip) by {
      NoHolesAre(f);
      NoHolesAre(w);
    }
    assert Bytes(w) == Bytes(f) by {
      FileIsContent(f);
      FileIsContent(w);
    }
    assert Overwrite(Bytes(f), f.ip.size, []) == Bytes(f);
  }

  lemma Appended(f: Volume, g: Volume, w: Volume, src: seq<byte>, off: int, lo: int, hi: int, L: set<int>)
    requires Clean(f) && off == f.ip.size && Midway(f, g, src, off, |src|, |src|, lo, hi, L) && Closed(g, w, off + |src|)
    ensures Wrote(f, w, off, src)
  {
    MidwayIs(f, g, src, off, |src|, |src|, lo, hi, L);
    assert src[..|src|] == src;
    if src == [] {
      NothingDone(f, g, w, off, lo, hi, L);
    } else {
      assert off + |src| <= MAXFILE * BSIZE by { assert Key(0); }
      WrotePast(f, g, w, off, src, lo, hi, L);
    }
  }

  lemma NothingDone(f: Volume, g: Volume, w: Volume, off: int, lo: int, hi: int, L: set<int>)
    requires Clean(f) && off == f.ip.size && Doing(f, g, lo, hi, off, [], L) && Spans(off, 0, lo, hi) && Closed(g, w, off)
    ensures Wrote(f, w, off, [])
  {
    WroteInside(f, g, off, [], lo, hi, L);
    DoingSize(f, g, lo, hi, off, [], L);
    assert Clean(g);
    NothingAppended(g, w);
    WroteTwice(f, g, w, off, [], off, [], []);
  }

  lemma UnbornIs(v: Volume, m: int, i: int)
    requires Shape(v) && Unborn(v, m) && m <= i < v.sb.ninodes
    ensures Ino(v, i) == Empty()
  {
    assert Key(0);
  }

  /** An inode without blocks and without size fits. */
  lemma StillTidy(f: Volume, g: Volume)
    requires Tidy(f) && Ok(g) && OthersKept(f, g) && Synced(g) && g.held == map[] && g.ip.size == 0 && g.ip.addrs == Empty().addrs
    ensures Tidy(g)
  {
    assert FsOk(f) && AllFit(f) by { assert Key(0); }
    forall i | 0 <= i < g.sb.ninodes ensures Fits(g.blocks, Ino(g, i)) {
      if i != f.cur { StillFits(f, g, i); }
    }
  }

  /** What is read of the references of the inode is its table. */
  lemma SlotsAre(v: Volume, k: int)
    requires Ok(v) && 0 <= k < MAXFILE
    ensures Refs(v)[SlotOf(k)] == RefOf(v.blocks, v.ip, SlotOf(k))
  {
    assert Key(0);
  }

  /** References at and past hi are as they were. */
  lemma PastAsBefore(f: Volume, g: Volume, w: Volume, src: seq<byte>, off: int, lo: int, hi: int, L: set<int>, k: int)
    requires Ok(f) && Midway(f, g, src, off, |src|, |src|, lo, hi, L) && Closed(g, w, off + |src|) && 0 <= k < MAXFILE && hi <= k
    ensures Spans(off, |src|, lo, hi) && Refs(w)[SlotOf(k)] == Refs(f)[SlotOf(k)]
  {
    assert Key(0);
  }

  /** Appending makes no block past the new end. */
  lemma NonePastEnd(f: Volume, g: Volume, w: Volume, src: seq<byte>, off: int, lo: int, hi: int, L: set<int>)
    requires Ok(f) && NonePast(f.blocks, f.ip) && off == f.ip.size && w.ip.size == off + |src|
    requires Midway(f, g, src, off, |src|, |src|, lo, hi, L) && Closed(g, w, off + |src|)
    ensures NonePast(w.blocks, w.ip)
  {
    forall k | 0 <= k < MAXFILE && w.ip.size <= k * BSIZE ensures RefOf(w.blocks, w.ip, SlotOf(k)) == 0 {
      SlotsAre(w, k);
      SlotsAre(f, k);
      assert hi <= k by { SpanEnd(f, g, src, off, lo, hi, L, k); }
      PastAsBefore(f, g, w, src, off, lo, hi, L, k);
    }
  }

  lemma NonePastAfter(f: Volume, g: Volume, w: Volume, src: seq<byte>, off: int, lo: int, hi: int, L: set<int>)
    requires Tidy(f) && off == f.ip.size && Midway(f, g, src, off, |src|, |src|, lo, hi, L) && Closed(g, w, off + |src|)
    ensures NonePast(w.blocks, w.ip)
  {
    assert Fits(f.blocks, Ino(f, f.cur)) && w.ip.size == off + |src| by { assert Key(0); }
    NonePastEnd(f, g, w, src, off, lo, hi, L);
  }

  lemma SpanEnd(f: Volume, g: Volume, src: seq<byte>, off: int, lo: int, hi: int, L: set<int>, k: int)
    requires Ok(f) && Midway(f, g, src, off, |src|, |src|, lo, hi, L) && off + |src| <= k * BSIZE
    ensures hi <= k
  {
    MidwayIs(f, g, src, off, |src|, |src|, lo, hi, L);
  }

  /** A file that fits its size, which is then rounded up past the end: it has no hole if
      and only if the size was not a whole number of blocks. */
  lemma RoundedHoles(f: Volume, g: Volume)
    requires Ok(f) && Fits(f.blocks, f.ip) && Ok(g) && Refs(g) == Refs(f) && g.ip.size == (f.ip.size / BSIZE + 1) * BSIZE
    ensures NoHoles(g.blocks, g.ip) <==> f.ip.size % BSIZE != 0
  {
    var n := f.ip.size / BSIZE;
    if f.ip.size % BSIZE != 0 {
      NoneMissing(f, g);
    } else if f.ip.size < MAXFILE * BSIZE {
      SlotsAre(f, n);
      SlotsAre(g, n);
      assert n * BSIZE < g.ip.size && f.ip.size <= n * BSIZE;
    }
  }

  lemma NoneMissing(f: Volume, g: Volume)
    requires Ok(f) && Fits(f.blocks, f.ip) && Ok(g) && Refs(g) == Refs(f)
    requires f.ip.size % BSIZE != 0 && g.ip.size == (f.ip.size / BSIZE + 1) * BSIZE
    ensures NoHoles(g.blocks, g.ip)
  {
    forall k | 0 <= k < MAXFILE && k * BSIZE < g.ip.size ensures RefOf(g.blocks, g.ip, SlotOf(k)) != 0 {
      SlotsAre(f, k);
      SlotsAre(g, k);
      assert k * BSIZE < f.ip.size;
    }
  }

  // ------------------------------------------------------------------
  // The beginning and the end
  // ------------------------------------------------------------------

  /** The zeroed disk, with its superblock, is a file system without files. */
  lemma BlankTidy(sb: Super, blocks: seq<Block>) returns (v: Volume)
    requires Laid(sb, blocks, sb.datastart) && NoFiles(sb, blocks)
    ensures Built(sb, blocks, sb.datastart, v) && Tidy(v) && Unborn(v, 0) && Unborn(v, 1)
  {
    v := Seen(sb, blocks, sb.datastart, 0, Empty(), map[]);
    BlankOk(sb, blocks, 0);
    forall i | 0 <= i < sb.ninodes ensures Ino(v, i) == Empty() {
      NoFileInode(sb, blocks, sb.datastart, 0, i);
    }
    assert Synced(v) by { BlankSynced(sb, blocks); }
    EmptyFit(v);
    assert Ok(v);
  }

  lemma EmptyFit(v: Volume)
    requires Shape(v) && forall i :: 0 <= i < v.sb.ninodes ==> Ino(v, i) == Empty()
    ensures AllFit(v)
  {
  }

  /** One more bit of the first block of the free map. */
  lemma TakenInFirst(sb: Super, blocks: seq<Block>, i: int, buf: Block)
    requires Sized(sb, blocks) && 0 <= i < BPB && i < sb.size && 0 <= sb.bmapstart < sb.size
    requires Taken(sb, blocks, i) == blocks[sb.bmapstart := buf]
    ensures Taken(sb, blocks, i + 1) == blocks[sb.bmapstart := WithBit(buf, i, true)]
  {
    assert sb.BBlock(i) == sb.bmapstart && i % BPB == i;
  }

  lemma FreeMapPlace(sb: Super, blocks: seq<Block>, n: int, v: Volume)
    requires Built(sb, blocks, n, v)
    ensures 0 < sb.bmapstart < sb.size && blocks[sb.bmapstart] == Zero() && v.blocks == Taken(sb, blocks, n)
    ensures v == Volume(sb, v.blocks, v.cur, v.ip, map[], v.owner, {})
  {
    assert Turn(0);
    BitPlace(sb, 0);
  }

  lemma SizeFits(f: Volume, g: Volume, src: seq<byte>, off: int, lo: int, hi: int, L: set<int>)
    requires Ok(f) && Midway(f, g, src, off, |src|, |src|, lo, hi, L)
    ensures off + |src| <= MAXFILE * BSIZE && g.cur == f.cur
  {
    MidwayIs(f, g, src, off, |src|, |src|, lo, hi, L);
    assert Key(0);
  }

  /** A turn of the loop is one more block. */
  lemma TurnsLeft(f: Volume, g: Volume, src: seq<byte>, off: int, tot: int, lo: int, hi: int, L: set<int>)
    requires Ok(f) && Midway(f, g, src, off, tot, |src|, lo, hi, L) && tot < |src|
    ensures hi + 1 - lo <= |src| / BSIZE + 2
  {
    MidwayIs(f, g, src, off, tot, |src|, lo, hi, L);
  }

  /** The loop of balloc: the first block of the free map, with the bits below used set. */
  method FreeMap(sb: Super, ghost blocks: seq<Block>, used: int) returns (buf: Block)
    requires Sized(sb, blocks) && 0 <= used < BPB && used <= sb.size && 0 <= sb.bmapstart < sb.size && blocks[sb.bmapstart] == Zero()
    ensures Taken(sb, blocks, used) == blocks[sb.bmapstart := buf]
  {
    buf := Zero();
    for i := 0 to used
      invariant Taken(sb, blocks, i) == blocks[sb.bmapstart := buf]
    {
      TakenInFirst(sb, blocks, i, buf);
      buf := WithBit(buf, i, true);
    }
  }

  class Image {
    const sb: Super
    var blocks: seq<Block>
    var freeblock: int
    var freeinode: int
    /** The volume that balloc will make of this disk, with one inode read by rinode. */
    ghost var v: Volume

    /** The zeroed disk with its superblock in block 1. */
    constructor (sb: Super, super: Block)
      requires sb.Ok() && 1 < sb.inodestart
      ensures this.sb == sb && Valid() && Tidy(v) && Unborn(v, 0) && Unborn(v, freeinode) && freeinode == 1 && freeblock == sb.datastart
    {
      this.sb := sb;
      var zeroes := seq<Block>(sb.size, _ => Zero());
      blocks := zeroes[1 := super];
      freeblock, freeinode := sb.datastart, 1;
      ghost var w := BlankTidy(sb, zeroes[1 := super]);
      v := w;
    }

    ghost predicate Valid()
      reads this
    {
      Built(sb, blocks, freeblock, v)
    }

    /** At most n more blocks are taken since freeblock was b, and all of the image if it
        is not enough. */
    ghost predicate Used(b: int, n: int, enough: bool)
      reads this
    {
      b <= freeblock <= b + n && (!enough ==> freeblock == sb.size)
    }

    /** din.addrs[k] = freeblock++; false when the image has no more blocks. */
    method GiveBlock(din: Inode, k: int) returns (ok: bool, din': Inode)
      requires Valid() && din == v.ip && 0 <= k <= NDIRECT && din.addrs[k] == 0
      modifies this
      ensures freeinode == old(freeinode) && Used(old(freeblock), 1, ok)
      ensures ok ==> Valid() && din' == v.ip && GaveBlock(old(v), v, k, din'.addrs[k])
    {
      if freeblock == sb.size { return false, din; }
      ghost var w := GaveRef(sb, blocks, freeblock, v, k);
      din' := WithAddr(din, k, freeblock);
      v, freeblock := w, freeblock + 1;
      ok := true;
    }

    /** indirect[j] = freeblock++. */
    method GiveEntry(din: Inode, j: int) returns (ok: bool, x: word)
      requires Valid() && din == v.ip && 0 <= j < NINDIRECT && din.addrs[NDIRECT] != 0 && Refs(v)[NDIRECT + 1 + j] == 0
      modifies this
      ensures freeinode == old(freeinode) && Used(old(freeblock), 1, ok)
      ensures ok ==> Valid() && v.ip == din && GaveBlock(old(v), v, NDIRECT + 1 + j, x)
    {
      if freeblock == sb.size { return false, 0; }
      x := freeblock;
      ghost var w := PutGaveEntry(sb, blocks, freeblock, v, j, din.addrs[NDIRECT], x, freeblock + 1);
      blocks := PutEntry(blocks, din.addrs[NDIRECT], j, x);
      v, freeblock := w, freeblock + 1;
      ok := true;
    }

    /** The block of the file, made if it is missing. */
    method FindBlock(din: Inode, fbn: int) returns (ok: bool, din': Inode, x: word, ghost M: set<int>)
      requires Valid() && din == v.ip && 0 <= fbn < MAXFILE
      modifies this
      ensures freeinode == old(freeinode) && Used(old(freeblock), 2, ok)
      ensures ok ==> Valid() && din' == v.ip && DidMap(old(v), v, fbn, M) && x == Refs(v)[SlotOf(fbn)]
    {
      din', x, M := din, 0, {};
      ReadsRefs(v, SlotOf(fbn));
      if fbn < NDIRECT {
        if din.addrs[fbn] == 0 {
          ok, din' := GiveBlock(din, fbn);
          if !ok { return; }
          x := din'.addrs[fbn];
          GaveBlockIs(old(v), v, fbn, x);
          DirectMade(old(v), v, fbn, x);
          M := {sb.BBlock(x), x as int};
        } else {
          ok, x := true, din.addrs[fbn];
          Found(v, fbn);
        }
        return;
      }
      ok, din', x, M := FindIndirect(din, fbn);
    }

    /** The indirect block, made if it is missing. */
    method LoadIndirect(din: Inode) returns (ok: bool, din': Inode)
      requires Valid() && din == v.ip
      modifies this
      ensures freeinode == old(freeinode) && Used(old(freeblock), 1, ok)
      ensures ok ==> Valid() && din' == v.ip && Ready(old(v), v, din'.addrs[NDIRECT])
    {
      ReadsRefs(v, NDIRECT + 1);
      if din.addrs[NDIRECT] != 0 { return true, din; }
      ok, din' := GiveBlock(din, NDIRECT);
      if ok {
        GaveBlockIs(old(v), v, NDIRECT, din'.addrs[NDIRECT]);
        GivenIsReady(old(v), v, din'.addrs[NDIRECT]);
      }
    }

    method FindIndirect(din: Inode, fbn: int) returns (ok: bool, din': Inode, x: word, ghost M: set<int>)
      requires Valid() && din == v.ip && NDIRECT <= fbn < MAXFILE
      modifies this
      ensures freeinode == old(freeinode) && Used(old(freeblock), 2, ok)
      ensures ok ==> Valid() && din' == v.ip && DidMap(old(v), v, fbn, M) && x == Refs(v)[fbn + 1]
    {
      ghost var f := v;
      x, M := 0, {};
      ok, din' := LoadIndirect(din);
      if ok { ok, x, M := FindEntry(f, din', fbn); }
    }

    /** The entry of the indirect block, made if it is missing. */
    method FindEntry(ghost f: Volume, din: Inode, fbn: int) returns (ok: bool, x: word, ghost M: set<int>)
      requires Valid() && din == v.ip && NDIRECT <= fbn < MAXFILE && Ok(f) && Ready(f, v, din.addrs[NDIRECT])
      modifies this
      ensures freeinode == old(freeinode) && Used(old(freeblock), 1, ok)
      ensures ok ==> Valid() && v.ip == din && DidMap(f, v, fbn, M) && x == Refs(v)[fbn + 1]
    {
      var a := din.addrs[NDIRECT];
      ReadyEntry(f, v, a, fbn);
      ReadIndirect(sb, blocks, freeblock, v);
      x := Word(blocks[a], fbn - NDIRECT);
      if x != 0 {
        Found(f, fbn);
        return true, x, {};
      }
      ok, x, M := AddEntry(f, din, fbn);
    }

    method AddEntry(ghost f: Volume, din: Inode, fbn: int) returns (ok: bool, x: word, ghost M: set<int>)
      requires Valid() && din == v.ip && NDIRECT <= fbn < MAXFILE && Ok(f) && Ready(f, v, din.addrs[NDIRECT])
      requires din.addrs[NDIRECT] != 0 && Refs(v)[fbn + 1] == 0
      modifies this
      ensures freeinode == old(freeinode) && Used(old(freeblock), 1, ok)
      ensures ok ==> Valid() && v.ip == din && DidMap(f, v, fbn, M) && x == Refs(v)[fbn + 1]
    {
      ghost var h, a := v, din.addrs[NDIRECT];
      M := {};
      ReadyEntry(f, h, a, fbn);
      ok, x := GiveEntry(din, fbn - NDIRECT);
      if ok {
        GaveBlockIs(h, v, fbn + 1, x);
        EntryAfter(f, h, v, fbn, a, x);
        M := {sb.BBlock(x), x as int, a as int} + if h == f then {} else {sb.BBlock(a)};
      }
    }

    /** e goes into block fbn of the file. */
    method PutPart(din: Inode, ghost f: Volume, ghost lo: int, fbn: int, ghost off: int, p: int, e: seq<byte>,
                   ghost d: seq<byte>, ghost d': seq<byte>, ghost L: set<int>)
      returns (ok: bool, din': Inode, ghost hi': int, ghost L': set<int>)
      requires Valid() && din == v.ip && Ok(f) && Doing(f, v, lo, fbn, off, d, L) && 0 <= fbn < MAXFILE
      requires off + |d| == fbn * BSIZE + p && 0 <= p && p + |e| <= BSIZE && d' == d + e
      modifies this
      ensures freeinode == old(freeinode) && Used(old(freeblock), 2, ok)
      ensures hi' == fbn + 1
      ensures ok ==> Valid() && din' == v.ip && Doing(f, v, lo, hi', off, d', L')
    {
      ghost var g := v;
      var x;
      ghost var M;
      hi', L' := fbn + 1, L;
      ok, din', x, M := FindBlock(din, fbn);
      if !ok { return; }
      MappedIsData(g, v, fbn, M);
      DoingStep(f, g, v, lo, fbn, off, d, p, e, L, M);
      WroteBytes(sb, blocks, freeblock, v, fbn, p, e);
      blocks := PutBytes(blocks, x, p, e);
      v := PokeFile(v, fbn, p, e);
      L' := L + M + {x as int};
    }

    /** One turn of the loop of iappend, to the end of the block or of the data. */
    method Turn(din: Inode, ghost f: Volume, src: seq<byte>, off: int, tot: int, ghost lo: int, ghost hi: int, ghost L: set<int>)
      returns (ok: bool, din': Inode, tot': int, ghost hi': int, ghost L': set<int>)
      requires Valid() && din == v.ip && Ok(f) && Midway(f, v, src, off, tot, |src|, lo, hi, L) && tot < |src| && 0 <= off
      modifies this
      ensures freeinode == old(freeinode) && Used(old(freeblock), 2, ok || off + |src| > MAXFILE * BSIZE)
      ensures ok ==> hi' == hi + 1 && Valid() && din' == v.ip && tot < tot' && Midway(f, v, src, off, tot', |src|, lo, hi', L')
    {
      MidwayIs(f, v, src, off, tot, |src|, lo, hi, L);
      var fbn, p := (off + tot) / BSIZE, (off + tot) % BSIZE;
      var m := Min(|src| - tot, BSIZE - p);
      tot' := tot + m;
      SpanOn(off, tot, |src|, lo, hi, fbn, p, m);
      TakeOn(src, tot, m);
      if fbn >= MAXFILE { return false, din, tot', hi, L; }
      ok, din', hi', L' := PutPart(din, f, lo, fbn, off, p, src[tot..tot'], src[..tot], src[..tot'], L);
      if ok { MidwayIs(f, v, src, off, tot', |src|, lo, hi', L'); }
    }

    /** The loop of iappend. */
    method AppendLoop(din: Inode, src: seq<byte>, off: int) returns (ok: bool, din': Inode, ghost lo: int, ghost hi: int, ghost L: set<int>)
      requires Valid() && din == v.ip && 0 <= off <= MAXFILE * BSIZE
      modifies this
      ensures freeinode == old(freeinode) && Used(old(freeblock), 2 * (|src| / BSIZE + 2), ok || off + |src| > MAXFILE * BSIZE)
      ensures ok ==> Valid() && din' == v.ip && Midway(old(v), v, src, off, |src|, |src|, lo, hi, L)
    {
      ghost var f := v;
      var tot := 0;
      ok, din', L := true, din, {};
      lo, hi := off / BSIZE, off / BSIZE;
      DoingStart(f, off, lo);
      assert src[..0] == [];
      MidwayIs(f, f, src, off, 0, |src|, lo, hi, {});
      while tot < |src|
        invariant Valid() && din' == v.ip && Midway(f, v, src, off, tot, |src|, lo, hi, L) && ok && freeinode == old(freeinode)
        invariant old(freeblock) <= freeblock <= old(freeblock) + 2 * (hi - lo)
        invariant tot == |src| ==> hi - lo <= |src| / BSIZE + 2
        decreases |src| - tot
      {
        TurnsLeft(f, v, src, off, tot, lo, hi, L);
        ok, din', tot, hi, L := Turn(din', f, src, off, tot, lo, hi, L);
        if !ok { return; }
      }
    }

    /** Appends src to the file; false when mkfs gives up. */
    method Iappend(inum: int, src: seq<byte>) returns (ok: bool)
      requires Valid() && Tidy(v) && 0 <= inum < sb.ninodes && inum < freeinode && Unborn(v, freeinode)
      modifies this
      ensures freeinode == old(freeinode)
      ensures Used(old(freeblock), 2 * (|src| / BSIZE + 2), ok || Relock(old(v), inum).ip.size + |src| > MAXFILE * BSIZE)
      ensures ok ==> Valid() && Tidy(v) && Unborn(v, freeinode)
      ensures ok ==> Clean(Relock(old(v), inum)) && Wrote(Relock(old(v), inum), v, Relock(old(v), inum).ip.size, src)
    {
      UnbornStill(v, inum, freeinode);
      ghost var f := Reread(sb, blocks, freeblock, v, inum);
      v := f;
      var din := WordsInode(blocks[sb.IBlock(inum)], inum % IPB);
      var off := din.size;
      ghost var lo, hi, L;
      ok, din, lo, hi, L := AppendLoop(din, src, off);
      if !ok { return; }
      ghost var g := v;
      SizeFits(f, g, src, off, lo, hi, L);
      var size: word := off + |src|;
      ClosedIs(g, size);
      ghost var w := Rewritten(sb, blocks, freeblock, g, WithSize(din, size));
      blocks := PutInode(sb, blocks, inum, WithSize(din, size));
      v := w;
      Appended(f, g, w, src, off, lo, hi, L);
      NonePastAfter(f, g, w, src, off, lo, hi, L);
      TidyAfter(f, w, off, src);
      UnbornAfter(f, w, off, src, freeinode);
    }

    /** A new inode of the given type, with one link and no blocks. */
    method Ialloc(typ: half) returns (inum: int)
      requires Valid() && Tidy(v) && Unborn(v, freeinode) && 0 <= freeinode < sb.ninodes
      modifies this
      ensures inum == old(freeinode) && freeinode == inum + 1 && freeblock == old(freeblock)
      ensures Valid() && Tidy(v) && Unborn(v, freeinode) && v.cur == inum && v.ip == Inode(typ, 0, 0, 1, 0, Empty().addrs)
      ensures OthersKept(Relock(old(v), inum), v)
    {
      inum := freeinode;
      UnbornStill(v, inum, freeinode);
      ghost var f := Reread(sb, blocks, freeblock, v, inum);
      UnbornIs(f, freeinode, inum);
      var din: Inode := Inode(typ, 0, 0, 1, 0, Empty().addrs);
      v := Rewritten(sb, blocks, freeblock, f, din);
      blocks := PutInode(sb, blocks, inum, din);
      freeinode := freeinode + 1;
      UnbornKept(f, v, inum, freeinode);
      StillTidy(f, v);
    }

    /** The size of the root directory, rounded up past its end: a hole exactly when it was
        a whole number of blocks. */
    method FixRoot(root: int)
      requires Valid() && Tidy(v) && 0 <= root < sb.ninodes
      modifies this
      ensures Valid() && Synced(v) && v.cur == root && freeinode == old(freeinode) && freeblock == old(freeblock)
      ensures var f := Relock(old(v), root);
              && Clean(f) && OthersKept(f, v) && v.ip.size == (f.ip.size / BSIZE + 1) * BSIZE
              && SameKind(v.ip, f.ip) && Content(v) == Content(f) && (NoHoles(v.blocks, v.ip) <==> f.ip.size % BSIZE != 0)
    {
      ghost var f := Reread(sb, blocks, freeblock, v, root);
      var din := WordsInode(blocks[sb.IBlock(root)], root % IPB);
      var size: word := (din.size / BSIZE + 1) * BSIZE;
      v := Rewritten(sb, blocks, freeblock, f, WithSize(din, size));
      blocks := PutInode(sb, blocks, root, WithSize(din, size));
      assert Fits(f.blocks, Ino(f, f.cur)) by { assert Key(0); }
      RoundedHoles(f, v);
    }

    /** The free map, which describes the disk as it is now.  It takes one block; false
        stands for the assertion that it fits. */
    method Balloc() returns (ok: bool)
      requires Valid()
      modifies `blocks
      ensures ok <==> freeblock < BPB
      ensures ok ==> v == Volume(sb, blocks, v.cur, v.ip, map[], v.owner, {}) && Ok(v)
    {
      ok := freeblock < BPB;
      if !ok { return; }
      FreeMapPlace(sb, blocks, freeblock, v);
      var buf := FreeMap(sb, blocks, freeblock);
      blocks := blocks[sb.bmapstart := buf];
    }
  }
}

/** The facts of the other file system modules in the form in which the methods of
    lab2/fs.c use them. Each is locked: a proof that needs what it says states Key(0),
    which is always true, and the proofs of the methods, which do not, stay small. */
module FsLocked {
  import opened Sealing
  import opened FsBytes
  import opened FsModel
  import opened FsProofs
  import opened FsCost
  import opened FsWrite
  import opened FsTrunc

  /** The free map and the references agree (InOrder, locked). */
  ghost predicate Ok(f: Volume) { Shape(f) && forall x {:trigger Key(x)} :: Key(x) ==> InOrder(f) }

  ghost function Refs(f: Volume): (r: seq<int>)
    requires Ok(f)
    ensures |r| == SLOTS
  {
    assert Key(0);
    Table(f)
  }

  lemma NoEntry(f: Volume, n: int)
    requires Ok(f) && NDIRECT <= n < MAXFILE && f.ip.addrs[NDIRECT] == 0
    ensures Refs(f)[n + 1] == 0
  {
    assert Key(0);
  }

  ghost predicate Gave(f: Volume, g: Volume, s: int, b: int)
    requires Ok(f)
  {
    Ok(g) && forall x {:trigger Key(x)} :: Key(x) ==> Grew(f, g, s, b)
  }

  ghost predicate DidMap(f: Volume, g: Volume, n: int, L: set<int>)
    requires Ok(f) && 0 <= n < MAXFILE
  {
    Ok(g) && forall x {:trigger Key(x)} :: Key(x) ==> Mapped(f, g, n, L)
  }

  /** No free block. */
  ghost predicate Full(f: Volume)
    requires Shape(f)
  {
    forall b :: 0 <= b < f.sb.size ==> Marked(f, b)
  }

  /** After a panic the volume is in order, with no free block. */
  ghost predicate Stuck(f: Volume, g: Volume)
    requires Ok(f)
  {
    Ok(g) && Full(g) && forall x {:trigger Key(x)} :: Key(x) ==> Alike(f, g) && Content(g) == Content(f)
  }

  lemma BlockGiven(f: Volume, k: int, b: word)
    requires Ok(f) && 0 <= b < f.sb.size && !Marked(f, b) && 0 <= k <= NDIRECT && f.ip.addrs[k] == 0
    ensures Gave(f, Attach(Alloc(f, b), k, b), k, b)
  {
    assert Key(0);
    NewBlockOk(f, k, b);
  }

  lemma EntryGiven(f: Volume, j: int, b: word)
    requires Ok(f) && 0 <= b < f.sb.size && !Marked(f, b)
    requires 0 <= j < NINDIRECT && HasIndirect(f) && Refs(f)[NDIRECT + 1 + j] == 0
    ensures Gave(f, AttachEntry(Alloc(f, b), j, b), NDIRECT + 1 + j, b)
    ensures b != f.ip.addrs[NDIRECT] && f.sb.BBlock(b) != f.ip.addrs[NDIRECT]
  {
    assert Key(0);
    assert Ref(f, f.cur, NDIRECT) in f.owner;
    NewEntryOk(f, j, b);
  }

  lemma FullAfter(f: Volume, g: Volume, s: int, b: int)
    requires Ok(f) && (g == f || Gave(f, g, s, b)) && Ok(g) && Full(g)
    ensures Stuck(f, g)
  {
    assert Key(0);
  }

  lemma Found(f: Volume, n: int)
    requires Ok(f) && 0 <= n < MAXFILE && Refs(f)[SlotOf(n)] != 0
    ensures DidMap(f, f, n, {})
  {
    assert Key(0);
    MapPresent(f, n);
  }

  lemma DirectMade(f: Volume, g: Volume, n: int, b: int)
    requires Ok(f) && 0 <= n < NDIRECT && Gave(f, g, n, b)
    ensures DidMap(f, g, n, {f.sb.BBlock(b), b}) && Refs(g)[n] == b
  {
    assert Key(0);
    MapDirect(f, g, n, b);
  }

  lemma EntryMade(f: Volume, g: Volume, n: int, b: int)
    requires Ok(f) && NDIRECT <= n < MAXFILE && Refs(f)[NDIRECT] != 0 && Gave(f, g, n + 1, b)
    ensures DidMap(f, g, n, {f.sb.BBlock(b), b, Refs(f)[NDIRECT]}) && Refs(g)[n + 1] == b
  {
    assert Key(0);
    MapEntry(f, g, n, b);
  }

  lemma BothMade(f: Volume, h: Volume, g: Volume, n: int, a: int, b: int)
    requires Ok(f) && NDIRECT <= n < MAXFILE && Gave(f, h, NDIRECT, a) && Gave(h, g, n + 1, b)
    ensures DidMap(f, g, n, {f.sb.BBlock(a), a, f.sb.BBlock(b), b}) && Refs(g)[n + 1] == b
  {
    assert Key(0);
    MapBoth(f, h, g, n, a, b);
  }

  /** What the code reads is the table. */
  lemma ReadsRefs(f: Volume, k: int)
    requires Ok(f) && 0 <= k < SLOTS
    ensures k <= NDIRECT ==> Refs(f)[k] == f.ip.addrs[k]
    ensures k > NDIRECT && f.ip.addrs[NDIRECT] != 0 ==>
              HasIndirect(f) && Refs(f)[k] == Word(f.blocks[f.ip.addrs[NDIRECT]], k - NDIRECT - 1)
  {
    assert Key(0);
    var a := Ref(f, f.cur, NDIRECT);
    assert a != 0 ==> a in f.owner;
  }

  /** The indirect block a is there: it was in f, or it is new. */
  ghost predicate Ready(f: Volume, h: Volume, a: int)
    requires Ok(f)
  {
    Ok(h) && HasIndirect(h) && h.ip.addrs[NDIRECT] == a && (h == f || Gave(f, h, NDIRECT, a))
  }

  lemma GivenIsReady(f: Volume, h: Volume, a: int)
    requires Ok(f) && Gave(f, h, NDIRECT, a)
    ensures Ready(f, h, a)
  {
    assert Key(0);
    ReadsRefs(h, NDIRECT);
    ReadsRefs(h, NDIRECT + 1);
  }

  /** A new indirect block lists nothing, so an entry that is there was there before. */
  lemma ReadyEntry(f: Volume, h: Volume, a: int, n: int)
    requires Ok(f) && Ready(f, h, a) && NDIRECT <= n < MAXFILE
    ensures Refs(h)[n + 1] == Word(h.blocks[a], n - NDIRECT) == Refs(f)[n + 1]
    ensures Refs(h)[n + 1] != 0 ==> h == f
  {
    assert Key(0);
    ReadsRefs(h, n + 1);
    ReadsRefs(f, n + 1);
  }

  lemma EntryAfter(f: Volume, h: Volume, g: Volume, n: int, a: int, b: int)
    requires Ok(f) && NDIRECT <= n < MAXFILE && Ready(f, h, a) && Gave(h, g, n + 1, b)
    ensures DidMap(f, g, n, {f.sb.BBlock(b), b, a} + if h == f then {} else {f.sb.BBlock(a)}) && Refs(g)[n + 1] == b
  {
    assert Key(0);
    ReadsRefs(h, NDIRECT);
    if h == f {
      EntryMade(f, g, n, b);
      assert {f.sb.BBlock(b), b, a} + {} == {f.sb.BBlock(b), b, a};
    } else {
      BothMade(f, h, g, n, a, b);
      assert {f.sb.BBlock(b), b, a} + {f.sb.BBlock(a)} == {f.sb.BBlock(a), a, f.sb.BBlock(b), b};
    }
  }

  // The steps of itrunc, writei and readi.
  ghost predicate Gone(f: Volume, g: Volume, i: int)
    requires Ok(f)
  {
    Ok(g) && forall x {:trigger Key(x)} :: Key(x) ==> Dropped(f, g, i)
  }

  ghost predicate Cut(g: Volume, h: Volume, j: int)
    requires Ok(g)
  {
    Ok(h) && forall x {:trigger Key(x)} :: Key(x) ==> Pruned(g, h, j)
  }

  ghost predicate CanFree(f: Volume, b: int) { Shape(f) && 0 <= b < f.sb.size && Marked(f, b) }

  /** Truncated: empty on disk too, and exactly the blocks of the inode are free. */
  ghost predicate Emptied(f: Volume, g: Volume)
    requires Ok(f)
  {
    Ok(g) && forall x {:trigger Key(x)} :: Key(x) ==> Truncated(f, g)
  }

  lemma GoneStart(f: Volume)
    requires Ok(f)
    ensures Gone(f, f, 0)
  {
    assert Key(0);
    DroppedStart(f);
  }

  lemma GoneStep(f: Volume, g: Volume, i: int)
    requires Ok(f) && 0 <= i < NDIRECT && Gone(f, g, i)
    ensures g.ip.addrs[i] == 0 ==> Gone(f, g, i + 1)
    ensures g.ip.addrs[i] != 0 ==> CanFree(g, g.ip.addrs[i]) && Gone(f, Free(Detach(g, i), g.ip.addrs[i]), i + 1)
  {
    assert Key(0);
    if g.ip.addrs[i] == 0 {
      DropNone(f, g, i);
    } else {
      DropSome(f, g, i);
    }
  }

  lemma CutStart(g: Volume)
    requires Ok(g) && g.ip.addrs[NDIRECT] != 0
    ensures Cut(g, DetachTree(g), 0)
  {
    assert Key(0);
    PruneStart(g);
  }

  lemma CutStep(g: Volume, h: Volume, j: int)
    requires Ok(g) && Cut(g, h, j) && 0 <= j < NINDIRECT
    ensures HasIndirect(g) && |h.blocks| == |g.blocks| && h.blocks[g.ip.addrs[NDIRECT]] == g.blocks[g.ip.addrs[NDIRECT]]
    ensures var e := Word(g.blocks[g.ip.addrs[NDIRECT]], j);
      if e == 0 then Cut(g, h, j + 1) else CanFree(h, e) && Cut(g, Free(h, e), j + 1)
  {
    assert Key(0);
    PruneStep(g, h, j);
  }

  lemma CutEnd(f: Volume, g: Volume, h: Volume)
    requires Ok(f) && Ok(g) && Gone(f, g, NDIRECT) && Cut(g, h, NINDIRECT)
    ensures CanFree(h, g.ip.addrs[NDIRECT]) && Gone(f, Free(h, g.ip.addrs[NDIRECT]), 13)
    ensures h.ip == WithAddr(g.ip, NDIRECT, 0)
  {
    assert Key(0);
    DropTree(f, g, h);
  }

  lemma NoTree(f: Volume, g: Volume)
    requires Ok(f) && Gone(f, g, NDIRECT) && g.ip.addrs[NDIRECT] == 0
    ensures Gone(f, g, 13)
  {
    assert Key(0);
    DropNoTree(f, g);
  }

  lemma TruncDone(f: Volume, g: Volume)
    requires Ok(f) && Gone(f, g, 13)
    ensures Emptied(f, Sync(Resize(g, 0)))
  {
    assert Key(0);
    FinishOk(g, 0);
    TruncatedOk(f, g, Sync(Resize(g, 0)));
  }

  /** Between operations: in order, the inode on disk, no holes. */
  ghost predicate Clean(f: Volume) { Ok(f) && f.ip.size <= MAXFILE * BSIZE && forall x {:trigger Key(x)} :: Key(x) ==> Settled(f) }

  /** The bytes of the locked file. */
  ghost function Data(f: Volume): (d: seq<byte>)
    requires Clean(f)
    ensures |d| == f.ip.size
  {
    assert Key(0);
    Bytes(f)
  }

  ghost predicate Doing(f: Volume, g: Volume, lo: int, hi: int, o: int, d: seq<byte>, L: set<int>)
    requires Ok(f)
  {
    Ok(g) && forall x {:trigger Key(x)} :: Key(x) ==> Progress(f, g, lo, hi, o, d, L)
  }

  /** d is written at o, and no other file is touched. */
  ghost predicate Wrote(f: Volume, g: Volume, o: int, d: seq<byte>)
    requires Clean(f) && 0 <= o <= f.ip.size
  {
    Clean(g) && forall x {:trigger Key(x)} :: Key(x) ==> Written(f, g, o, d)
  }

  /** The kernel stopped in the middle of a write, with no free block, after d was written. */
  ghost predicate Halted(f: Volume, g: Volume, o: int, d: seq<byte>)
    requires Ok(f)
  {
    && Ok(g) && Full(g) && 0 <= o && o + |d| <= MAXFILE * BSIZE
    && forall x {:trigger Key(x)} :: Key(x) ==> Alike(f, g) && Content(g) == Splice(Content(f), o, d)
  }

  lemma DoingStart(f: Volume, o: int, lo: int)
    requires Ok(f) && 0 <= o <= MAXFILE * BSIZE && 0 <= lo <= MAXFILE
    ensures Doing(f, f, lo, lo, o, [], {})
  {
    assert Key(0);
    ProgressStart(f, lo, o);
  }

  /** The loop of writei after tot of n bytes. */
  ghost predicate Midway(f: Volume, g: Volume, src: seq<byte>, off: int, tot: int, n: int, lo: int, hi: int, L: set<int>)
    requires Ok(f)
  {
    Ok(g) && 0 <= tot <= n <= |src| && (forall x {:trigger Key(x)} :: Key(x) ==>
      Spans(off, tot, lo, hi) && (0 < tot < n ==> off + tot == hi * BSIZE) && Doing(f, g, lo, hi, off, src[..tot], L))
  }

  lemma MidwayIs(f: Volume, g: Volume, src: seq<byte>, off: int, tot: int, n: int, lo: int, hi: int, L: set<int>)
    requires Ok(f) && Ok(g) && 0 <= tot <= n <= |src|
    ensures Midway(f, g, src, off, tot, n, lo, hi, L) <==>
      Spans(off, tot, lo, hi) && (0 < tot < n ==> off + tot == hi * BSIZE) && Doing(f, g, lo, hi, off, src[..tot], L)
  {
    assert Key(0);
  }

  lemma MidwayStart(f: Volume, src: seq<byte>, off: int, n: int, lo: int)
    requires Ok(f) && 0 <= off && 0 <= n <= |src| && off + n <= MAXFILE * BSIZE && lo == off / BSIZE
    ensures Midway(f, f, src, off, 0, n, lo, lo, {})
  {
    DoingStart(f, off, lo);
    assert src[..0] == [];
  }

  lemma DoingStuck(f: Volume, g: Volume, h: Volume, lo: int, hi: int, o: int, d: seq<byte>, L: set<int>)
    requires Ok(f) && Doing(f, g, lo, hi, o, d, L) && Stuck(g, h)
    ensures Halted(f, h, o, d)
  {
    assert Key(0);
    AlikeTwice(f, g, h);
  }

  lemma MappedIsData(f: Volume, g: Volume, n: int, L: set<int>)
    requires Ok(f) && 0 <= n < MAXFILE && DidMap(f, g, n, L)
    ensures IsData(g, n) && Refs(g)[SlotOf(n)] == Ref(g, g.cur, SlotOf(n))
    ensures Refs(f)[SlotOf(n)] != 0 ==> g == f && L == {}
  {
    assert Key(0);
    assert Refs(g)[SlotOf(n)] == Table(g)[SlotOf(n)];
    assert Ref(g, g.cur, SlotOf(n)) in g.owner;
  }

  lemma DoingStep(f: Volume, g: Volume, h: Volume, lo: int, hi: int, o: int, d: seq<byte>, p: int, e: seq<byte>,
                  L: set<int>, M: set<int>)
    requires Ok(f) && Doing(f, g, lo, hi, o, d, L) && 0 <= hi < MAXFILE && DidMap(g, h, hi, M)
    requires IsData(h, hi) && o + |d| == hi * BSIZE + p && 0 <= p && p + |e| <= BSIZE
    ensures Doing(f, PokeFile(h, hi, p, e), lo, hi + 1, o, d + e, L + M + {Refs(h)[SlotOf(hi)]})
  {
    assert Key(0);
    ProgressPoke(f, g, h, lo, hi, o, d, p, e, L, M);
  }

  /** Blocks lo to hi - 1 are those of n bytes at off. */
  predicate Spans(off: int, n: int, lo: int, hi: int)
  {
    && 0 <= lo <= hi && lo * BSIZE <= off < lo * BSIZE + BSIZE
    && (if n == 0 then hi == lo else hi * BSIZE - BSIZE < off + n <= hi * BSIZE)
  }

  lemma SpanOn(off: int, tot: int, n: int, lo: int, hi: int, bn: int, p: int, m: int)
    requires 0 <= tot < n && Spans(off, tot, lo, hi) && (0 < tot < n ==> off + tot == hi * BSIZE)
    requires off + tot == bn * BSIZE + p && 0 <= p < BSIZE && m == Min(n - tot, BSIZE - p)
    ensures bn == hi && 0 < m && tot + m <= n && p + m <= BSIZE && Spans(off, tot + m, lo, hi + 1)
    ensures tot + m < n ==> off + (tot + m) == (hi + 1) * BSIZE
  {
  }

  lemma SpansIs(off: int, n: int, lo: int, hi: int)
    requires 0 <= off && 0 <= n && Spans(off, n, lo, hi)
    ensures lo == off / BSIZE && hi == LastBlock(off, n)
  {
  }

  lemma TakeOn(s: seq<byte>, a: int, m: int)
    requires 0 <= a && 0 <= m && a + m <= |s|
    ensures s[..a] + s[a..a + m] == s[..a + m]
  {
  }

  lemma SliceOn(s: seq<byte>, a: int, b: int, c: int)
    requires 0 <= a <= b <= c <= |s|
    ensures s[a..b] + s[b..c] == s[a..c]
  {
  }

  /** The size and the inode put on disk. */
  ghost predicate Closed(g: Volume, k: Volume, size: int)
    requires Ok(g)
  {
    Ok(k) && forall x {:trigger Key(x)} :: Key(x) ==> Finished(g, k, size)
  }

  lemma CloseOk(g: Volume, size: word)
    requires Ok(g)
    ensures Closed(g, Sync(Resize(g, size)), size)
  {
    assert Key(0);
    FinishOk(g, size);
  }

  ghost function Cost(f: Volume, g: Volume, o: int, n: int): set<int>
    requires Ok(f) && Ok(g) && 0 <= o && 0 <= n && o + n <= MAXFILE * BSIZE
  {
    assert Key(0);
    WriteiCost(f, g, o, n)
  }

  lemma WroteInside(f: Volume, g: Volume, o: int, d: seq<byte>, lo: int, hi: int, L: set<int>)
    requires Clean(f) && 0 <= o && o + |d| <= f.ip.size && Spans(o, |d|, lo, hi) && Doing(f, g, lo, hi, o, d, L)
    ensures Wrote(f, g, o, d)
  {
    assert Key(0);
    SpansIs(o, |d|, lo, hi);
    WrittenInside(f, g, o, d, L);
  }

  lemma WrotePast(f: Volume, g: Volume, k: Volume, o: int, d: seq<byte>, lo: int, hi: int, L: set<int>)
    requires Clean(f) && 0 <= o <= f.ip.size < o + |d| <= MAXFILE * BSIZE && Spans(o, |d|, lo, hi)
    requires Doing(f, g, lo, hi, o, d, L) && Closed(g, k, o + |d|)
    ensures Wrote(f, k, o, d)
  {
    assert Key(0);
    SpansIs(o, |d|, lo, hi);
    WrittenPast(f, g, k, o, d, L);
  }

  lemma CostInside(f: Volume, g: Volume, o: int, d: seq<byte>, lo: int, hi: int, L: set<int>)
    requires Ok(f) && 0 <= o && o + |d| <= f.ip.size <= MAXFILE * BSIZE && Spans(o, |d|, lo, hi) && Doing(f, g, lo, hi, o, d, L)
    ensures L == Cost(f, g, o, |d|)
  {
    assert Key(0);
    SpansIs(o, |d|, lo, hi);
  }

  lemma CostPast(f: Volume, g: Volume, k: Volume, o: int, d: seq<byte>, lo: int, hi: int, L: set<int>)
    requires Ok(f) && 0 <= o <= f.ip.size < o + |d| <= MAXFILE * BSIZE && Spans(o, |d|, lo, hi)
    requires Doing(f, g, lo, hi, o, d, L) && Closed(g, k, o + |d|)
    ensures L + {f.sb.IBlock(f.cur)} == Cost(f, k, o, |d|)
  {
    assert InOrder(f) && InOrder(g) && Progress(f, g, lo, hi, o, d, L) && Finished(g, k, o + |d|) by { assert Key(0); }
    SpansIs(o, |d|, lo, hi);
    PastCost(f, g, k, o, d, L);
  }

  lemma DoingSize(f: Volume, g: Volume, lo: int, hi: int, o: int, d: seq<byte>, L: set<int>)
    requires Ok(f) && Doing(f, g, lo, hi, o, d, L)
    ensures g.ip.size == f.ip.size && g.sb == f.sb && g.cur == f.cur
  {
    assert Key(0);
  }

  /** No holes: what is below the size is in a block. */
  lemma BlockThere(f: Volume, o: int, n: int, p: int)
    requires Clean(f) && 0 <= o < f.ip.size && o == n * BSIZE + p && 0 <= p && 0 <= n < MAXFILE
    ensures Refs(f)[SlotOf(n)] != 0
  {
    assert Key(0);
    assert RefOf(f.blocks, f.ip, SlotOf(n)) != 0;
  }

  lemma PartIsData(f: Volume, o: int, n: int, p: int, m: int)
    requires Clean(f) && IsData(f, n) && 0 <= p && 0 <= m && p + m <= BSIZE && o == n * BSIZE + p && o + m <= f.ip.size
    ensures Data(f)[o..o + m] == f.blocks[Ref(f, f.cur, SlotOf(n))][p..p + m]
  {
    DataIs(f);
    BytesInBlock(f, n, p, m);
  }

  lemma DataIs(f: Volume)
    requires Clean(f)
    ensures Settled(f) && Data(f) == Bytes(f)
  {
    assert Key(0);
  }

  function Min(a: int, b: int): int { if a < b then a else b }

  /** Bit bi of the free map block at b0 is the mark of block b0 + bi. */
  lemma MarkIsBit(f: Volume, b0: int, bi: int)
    requires Shape(f) && 0 <= b0 && b0 % BPB == 0 && 0 <= bi < BPB && b0 + bi < f.sb.size
    ensures (b0 + bi) % BPB == bi && f.sb.BBlock(b0 + bi) == f.sb.BBlock(b0) && 0 <= f.sb.BBlock(b0) < f.sb.size
    ensures Marked(f, b0 + bi) == Bit(f.blocks[f.sb.BBlock(b0)], bi)
  {
    assert f.sb.BBlock(b0) <= f.sb.BBlock(f.sb.size - 1);
  }

  /** The blocks below b are marked; locked. */
  ghost predicate MarkedTo(f: Volume, b: int)
    requires Shape(f)
  {
    forall x {:trigger Key(x)} :: Key(x) ==> forall c :: 0 <= c < b && c < f.sb.size ==> Marked(f, c)
  }

  lemma MarkedToIs(f: Volume, b: int)
    requires Shape(f) && MarkedTo(f, b)
    ensures forall c :: 0 <= c < b && c < f.sb.size ==> Marked(f, c)
  {
    assert Key(0);
  }

  /** A multiple of BPB is a place of the scan. */
  predicate Aligned(b0: int) { 0 <= b0 && b0 % BPB == 0 }

  lemma AlignedNext(b0: int)
    requires Aligned(b0)
    ensures Aligned(b0 + BPB)
  {
  }

  /** Set bits of one block of the free map are marks. */
  lemma MarkedOn(f: Volume, b0: int, bi: int, m: int)
    requires Shape(f) && Aligned(b0) && 0 <= bi <= BPB && b0 + bi <= f.sb.size && b0 < f.sb.size && MarkedTo(f, b0)
    requires m == f.sb.BBlock(b0) && 0 <= m < f.sb.size && forall j :: 0 <= j < bi ==> Bit(f.blocks[m], j)
    ensures MarkedTo(f, b0 + bi)
  {
    MarkedToIs(f, b0);
    forall c | b0 <= c < b0 + bi ensures Marked(f, c) {
      MarkIsBit(f, b0, c - b0);
    }
  }

  // For filewrite.
  lemma WroteNothing(f: Volume, o: int)
    requires Clean(f) && 0 <= o <= f.ip.size
    ensures Wrote(f, f, o, [])
  {
    assert Settled(f) by { assert Key(0); }
    WrittenNothing(f, o);
  }

  lemma WroteTwice(f: Volume, g: Volume, h: Volume, o: int, d: seq<byte>, p: int, e: seq<byte>, de: seq<byte>)
    requires Clean(f) && 0 <= o <= f.ip.size && Wrote(f, g, o, d) && p == o + |d| <= g.ip.size && Wrote(g, h, p, e)
    requires de == d + e
    ensures Wrote(f, h, o, de)
  {
    assert Key(0);
    WrittenTwice(f, g, h, o, d, p, e, de);
  }

  lemma WroteKept(f: Volume, g: Volume, o: int, d: seq<byte>)
    requires Clean(f) && 0 <= o <= f.ip.size && Wrote(f, g, o, d)
    ensures FsOk(f) && OthersKept(f, g) && Synced(g) && NoHoles(g.blocks, g.ip)
  {
    assert Key(0);
  }

  lemma WroteSize(f: Volume, g: Volume, o: int, d: seq<byte>)
    requires Clean(f) && 0 <= o <= f.ip.size && Wrote(f, g, o, d)
    ensures SameKind(g.ip, f.ip) && o + |d| <= g.ip.size
  {
    assert Key(0);
    assert |Bytes(g)| == |Overwrite(Bytes(f), o, d)|;
  }

  /** A chunk of filewrite logs no more than a transaction may. */
  lemma CostFits(f: Volume, g: Volume, o: int, n: int)
    requires Clean(f) && Ok(g) && 0 <= o <= f.ip.size && 0 <= n <= CHUNK && o + n <= MAXFILE * BSIZE
    ensures |Cost(f, g, o, n)| <= MAXOPBLOCKS
  {
    assert Key(0);
    WriteiFits(f, g, o, n);
  }

  /** With no inode ahead of the disk, another is read from there. */
  lemma RelockRead(v: Volume, i: int)
    requires Ok(v) && Synced(v) && v.held == map[] && 0 <= i < v.sb.ninodes
    ensures Ok(Relock(v, i)) && Synced(Relock(v, i)) && 0 <= v.sb.IBlock(i) < |v.blocks|
    ensures Relock(v, i) == Volume(v.sb, v.blocks, i, WordsInode(v.blocks[v.sb.IBlock(i)], i % IPB), map[], v.owner, v.loose)
  {
    assert FsOk(v) by { assert Key(0); }
    RelockOk(v, i);
    assert Ok(Relock(v, i));
    assert v.held - {i} == map[];
    assert DiskInode(Relock(v, i), i) == DiskInode(v, i) == Ino(v, i);
  }

  // ------------------------------------------------------------------
  // What the contracts of the methods say, unlocked
  // ------------------------------------------------------------------

  lemma OkIs(f: Volume)
    ensures Ok(f) <==> FsOk(f)
  {
    assert Key(0);
  }

  /** After a write the file is the old one overwritten, and no other file is different. */
  lemma WroteIs(f: Volume, g: Volume, o: int, d: seq<byte>, i: int)
    requires Clean(f) && 0 <= o <= f.ip.size && Wrote(f, g, o, d)
    ensures Data(g) == Overwrite(Data(f), o, d) && Synced(g) && g.loose == f.loose
    ensures Shape(f) && 0 <= i < f.sb.ninodes && i != f.cur && Ino(f, i).size <= MAXFILE * BSIZE ==>
      g.sb == f.sb && Ino(g, i) == Ino(f, i) && File(g, i) == File(f, i)
  {
    assert Key(0);
    if 0 <= i < f.sb.ninodes && i != f.cur && Ino(f, i).size <= MAXFILE * BSIZE {
      OtherFile(f, g, i);
    }
  }

  /** After truncation exactly the blocks of the inode have lost their mark. */
  lemma EmptiedIs(f: Volume, g: Volume, b: int)
    requires Ok(f) && Emptied(f, g) && 0 <= b < f.sb.size
    ensures g.sb == f.sb && g.cur == f.cur && g.ip.size == 0 && Synced(g) && g.loose == f.loose
    ensures Marked(g, b) <==> Marked(f, b) && !(b != 0 && exists k :: 0 <= k < SLOTS && Ref(f, f.cur, k) == b)
  {
    assert Key(0);
    assert Truncated(f, g);
    assert Marked(g, b) <==> Marked(f, b) && !Holds(f, b);
  }
}

/** The steps of the methods of lab2/fs.c, in the form in which their proofs use them. */
module FsTraces {
  import opened Sealing
  import opened FsBytes
  import opened FsModel
  import opened FsProofs
  import opened FsWrite
  import opened FsTrunc
  import opened FsLocked
  import R = FsRuns
  import opened FsSteps

  /** Steps from f to g after which nothing more is in hand, and no byte, size or file has
      been touched. */
  ghost predicate Prepared(f: Volume, ls: seq<R.Step>, g: Volume)
  {
    g.loose == f.loose && g.cur == f.cur && forall x {:trigger Seal(x)} :: Seal(x) ==> Steps(f, ls, g) && Quiet(ls)
  }

  lemma PreparedIs(f: Volume, ls: seq<R.Step>, g: Volume)
    requires Prepared(f, ls, g)
    ensures Steps(f, ls, g) && Quiet(ls)
  {
    assert Seal(0);
  }

  lemma NothingPrepared(f: Volume)
    ensures Prepared(f, [], f)
  {
    NoSteps(f);
  }

  lemma PreparedThen(f: Volume, ls: seq<R.Step>, g: Volume, ms: seq<R.Step>, h: Volume)
    requires Prepared(f, ls, g) && Prepared(g, ms, h)
    ensures Prepared(f, ls + ms, h)
  {
    PreparedIs(f, ls, g);
    PreparedIs(g, ms, h);
    StepsThen(f, ls, g, ms, h);
  }

  lemma RefPrepared(f: Volume, k: int, b: word)
    requires Ok(f) && 0 <= b < f.sb.size && !Marked(f, b) && 0 <= k <= NDIRECT && f.ip.addrs[k] == 0
    ensures Prepared(f, Gives(f.cur, b) + [R.SetRef(f.cur, k, b)], Attach(Alloc(f, b), k, b))
  {
    NotLoose(f, b);
    RefSteps(f, k, b);
  }

  /** A block that is not marked is in nobody's hand. */
  lemma NotLoose(f: Volume, b: int)
    requires Ok(f) && 0 <= b < f.sb.size && !Marked(f, b)
    ensures b !in f.loose && f.loose + {b} - {b} == f.loose
  {
    assert BitsOk(f) by { assert Key(0); }
  }

  lemma EntryPrepared(f: Volume, j: int, b: word)
    requires Ok(f) && 0 <= b < f.sb.size && !Marked(f, b) && 0 <= j < NINDIRECT && HasIndirect(f)
    requires Refs(f)[NDIRECT + 1 + j] == 0
    ensures 0 <= f.ip.addrs[NDIRECT] < |Alloc(f, b).blocks|
    ensures Prepared(f, Gives(f.cur, b) + [R.SetEntry(f.cur, j, b)], AttachEntry(Alloc(f, b), j, b))
  {
    NotLoose(f, b);
    assert FsOk(f) && Ref(f, f.cur, NDIRECT + 1 + j) == 0 by { assert Key(0); }
    EntrySteps(f, j, b);
  }

  /** writei so far: the steps from f to g write d at off. */
  ghost predicate Tracked(f: Volume, ls: seq<R.Step>, g: Volume, off: int, d: seq<byte>)
  {
    Steps(f, ls, g) && Writes(ls, off, d) && g.loose == f.loose && g.cur == f.cur
  }

  lemma TrackStart(f: Volume, off: int)
    ensures Tracked(f, [], f, off, [])
  {
    NoSteps(f);
    WritesNone(off);
  }

  lemma TrackOn(f: Volume, ls: seq<R.Step>, g: Volume, off: int, d: seq<byte>, ms: seq<R.Step>, h: Volume, n: int, p: int, e: seq<byte>)
    requires Tracked(f, ls, g, off, d) && Prepared(g, ms, h) && Shape(h) && IsData(h, n)
    requires off + |d| == n * BSIZE + p && 0 <= p && p + |e| <= BSIZE && 0 <= n < MAXFILE
    ensures Tracked(f, ls + ms + [R.WriteBytes(f.cur, n, p, e)], PokeFile(h, n, p, e), off, d + e)
  {
    var l := R.WriteBytes(f.cur, n, p, e);
    PreparedIs(g, ms, h);
    StepsThen(f, ls, g, ms, h);
    BytesSteps(h, n, p, e);
    StepsThen(f, ls + ms, h, [l], PokeFile(h, n, p, e));
    WritesQuiet(ls, off, d, ms);
    WritesOn(ls + ms, off, d, l, d + e);
  }

  /** A whole writei; sealed. */
  ghost predicate DidWrite(f: Volume, ls: seq<R.Step>, g: Volume, off: int, d: seq<byte>)
  {
    forall x {:trigger Seal(x)} :: Seal(x) ==> Steps(f, ls, g) && WriteiSteps(ls, off, d, f.ip.size) && g.loose == f.loose
  }

  lemma DidWriteIs(f: Volume, ls: seq<R.Step>, g: Volume, off: int, d: seq<byte>)
    requires DidWrite(f, ls, g, off, d)
    ensures Steps(f, ls, g) && WriteiSteps(ls, off, d, f.ip.size) && g.loose == f.loose
  {
    assert Seal(0);
  }

  lemma DidInside(f: Volume, ls: seq<R.Step>, g: Volume, off: int, d: seq<byte>)
    requires Tracked(f, ls, g, off, d) && 0 <= off && off + |d| <= f.ip.size <= MAXFILE * BSIZE
    ensures DidWrite(f, ls, g, off, d)
  {
    WriteiInside(ls, off, d, f.ip.size);
  }

  lemma DidPast(f: Volume, ls: seq<R.Step>, g: Volume, off: int, d: seq<byte>, n: word)
    requires Tracked(f, ls, g, off, d) && Shape(g) && 0 <= off <= f.ip.size < off + |d| == n <= MAXFILE * BSIZE
    ensures DidWrite(f, ls + [R.SetSize(f.cur, n), R.WriteInode(f.cur)], Sync(Resize(g, n)), off, d)
  {
    SizeSteps(g, n);
    StepsThen(f, ls, g, [R.SetSize(f.cur, n), R.WriteInode(f.cur)], Sync(Resize(g, n)));
    WriteiPast(ls, off, d, f.ip.size, f.cur, n);
  }

  /** The end of a writei that makes the file longer. */
  lemma EndPast(f: Volume, g: Volume, k: Volume, off: int, d: seq<byte>, lo: int, hi: int, L: set<int>, ls: seq<R.Step>, n: word)
    requires Clean(f) && 0 <= off <= f.ip.size < off + |d| == n <= MAXFILE * BSIZE && Spans(off, |d|, lo, hi)
    requires Doing(f, g, lo, hi, off, d, L) && Tracked(f, ls, g, off, d) && Closed(g, k, n) && k == Sync(Resize(g, n))
    ensures Wrote(f, k, off, d) && L + {f.sb.IBlock(f.cur)} == Cost(f, k, off, |d|)
    ensures DidWrite(f, ls + [R.SetSize(f.cur, n), R.WriteInode(f.cur)], k, off, d)
  {
    DidPast(f, ls, g, off, d, n);
    WrotePast(f, g, k, off, d, lo, hi, L);
    CostPast(f, g, k, off, d, lo, hi, L);
  }

  /** The end of one inside the file. */
  lemma EndInside(f: Volume, g: Volume, off: int, d: seq<byte>, lo: int, hi: int, L: set<int>, ls: seq<R.Step>)
    requires Clean(f) && 0 <= off && off + |d| <= f.ip.size && Spans(off, |d|, lo, hi)
    requires Doing(f, g, lo, hi, off, d, L) && Tracked(f, ls, g, off, d)
    ensures Wrote(f, g, off, d) && L == Cost(f, g, off, |d|) && DidWrite(f, ls, g, off, d)
  {
    DidInside(f, ls, g, off, d);
    WroteInside(f, g, off, d, lo, hi, L);
    CostInside(f, g, off, d, lo, hi, L);
  }

  // ------------------------------------------------------------------
  // itrunc
  // ------------------------------------------------------------------

  ghost predicate Freed(f: Volume, ls: seq<R.Step>, g: Volume) { Steps(f, ls, g) && g.loose == f.loose && g.cur == f.cur }

  lemma NothingFreed(f: Volume)
    ensures Freed(f, [], f)
  {
    NoSteps(f);
  }

  lemma FreedThen(f: Volume, ls: seq<R.Step>, g: Volume, ms: seq<R.Step>, h: Volume)
    requires Freed(f, ls, g) && Freed(g, ms, h)
    ensures Freed(f, ls + ms, h)
  {
    StepsThen(f, ls, g, ms, h);
  }

  lemma RefFreed(f: Volume, k: int)
    requires Ok(f) && 0 <= k < NDIRECT && f.ip.addrs[k] != 0
    ensures f.ip.addrs[k] < f.sb.size
    ensures Freed(f, [R.ClearRef(f.cur, k), R.GiveBack(f.cur, f.ip.addrs[k])], Free(Detach(f, k), f.ip.addrs[k]))
  {
    var b := f.ip.addrs[k];
    assert FsOk(f) by { assert Key(0); }
    assert b == Ref(f, f.cur, k);
    assert b in f.owner && b as int !in f.loose by { assert LooseOk(f); }
    DropSteps(f, k);
    assert f.loose + {b as int} - {b as int} == f.loose;
  }

  lemma TreeStarted(g: Volume)
    requires Ok(g) && g.ip.addrs[NDIRECT] != 0
    ensures Steps(g, [R.ClearTree(g.cur)], DetachTree(g))
  {
    assert LooseOk(g) by { assert Key(0); }
    TreeSteps(g);
  }

  lemma EntryFreed(g: Volume, ls: seq<R.Step>, h: Volume, j: int, e: word)
    requires Ok(g) && Cut(g, h, j) && 0 <= j < NINDIRECT && Steps(g, ls, h)
    requires HasIndirect(g) && e == Word(g.blocks[g.ip.addrs[NDIRECT]], j) && e != 0 && e < h.sb.size
    ensures Steps(g, ls + [R.GiveBack(h.cur, e)], Free(h, e))
  {
    assert InOrder(g) && Pruned(g, h, j) by { assert Key(0); }
    TreeOneLess(g, j, e);
    GiveSteps(g, ls, h, e);
  }

  lemma TreeFreed(g: Volume, ls: seq<R.Step>, h: Volume)
    requires Ok(g) && Cut(g, h, NINDIRECT) && Steps(g, ls, h)
    requires HasIndirect(g) && g.ip.addrs[NDIRECT] < h.sb.size
    ensures h.cur == g.cur && Freed(g, ls + [R.GiveBack(h.cur, g.ip.addrs[NDIRECT])], Free(h, g.ip.addrs[NDIRECT]))
  {
    assert InOrder(g) && Pruned(g, h, NINDIRECT) by { assert Key(0); }
    TreeLast(g);
    var a: int := g.ip.addrs[NDIRECT];
    GiveSteps(g, ls, h, a);
    assert h.loose - {a} == g.loose;
  }

  lemma EmptyFreed(f: Volume, ls: seq<R.Step>, g: Volume)
    requires Freed(f, ls, g) && Shape(g)
    ensures Freed(f, ls + [R.SetSize(f.cur, 0), R.WriteInode(f.cur)], Sync(Resize(g, 0)))
  {
    SizeSteps(g, 0);
    StepsThen(f, ls, g, [R.SetSize(f.cur, 0), R.WriteInode(f.cur)], Sync(Resize(g, 0)));
  }

  /** After itrunc the inode has no blocks. */
  lemma EmptiedBare(f: Volume, g: Volume)
    requires Ok(f) && Emptied(f, g)
    ensures R.Bare(g.ip)
  {
    EmptiedIs(f, g, 0);
    assert Key(0);
    forall k | 0 <= k <= NDIRECT ensures g.ip.addrs[k] == 0 {
      assert Ref(g, g.cur, k) == 0;
    }
  }

  /** The inode that ialloc takes: the Claim step of the machine, in every state of the whole
      that has this disk. */
  lemma ClaimIs(s: R.Sys, i: int, typ: half)
    requires R.SysOk(s) && 0 <= i < s.sb.ninodes && R.OnDisk(s, i).typ == 0 && typ != 0
    ensures R.Can(s, R.Claim(i, typ)) && i !in s.mem
    ensures 0 <= s.sb.IBlock(i) < |s.blocks| && R.Apply(s, R.Claim(i, typ)).blocks == PutInode(s.sb, s.blocks, i, R.NewInode(typ))
  {
    R.SysHands(s);
    assert s.sb.IBlock(i) <= s.sb.IBlock(s.sb.ninodes - 1);
  }
}

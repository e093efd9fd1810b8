/** lab2/fs.c: the block allocator, the block map, truncation, and reading and
    writing the bytes of the locked inode. */
module Fs {
  import opened Words
  import opened FsBytes
  import opened FsModel
  import opened FsProofs
  import opened FsTrunc
  import opened FsLocked
  import R = FsRuns
  import opened FsSteps
  import opened FsTraces

  const T_DEV: int := 3

  /** A return value, or the end of the kernel: balloc panics when the disk is full. */
  datatype Outcome = Ret(n: int) | Panic

  /** Where byte o is. */
  method Locate(o: int) returns (bn: int, p: int)
    requires 0 <= o
    ensures o == bn * BSIZE + p && 0 <= p < BSIZE && 0 <= bn
  {
    bn, p := o / BSIZE, o % BSIZE;
  }

  /** The first test of readi and writei, in 32 bits: past the end, or the end wraps. */
  method BadRange(off: word, n: word, size: word) returns (bad: bool)
    ensures bad <==> off > size || off + n >= WRAP
  {
    bad := off > size || (off + n) % WRAP < off;
  }

  /** The type of an inode on disk. */
  function TypeOf(sb: Super, blocks: seq<Block>, i: int): half
    requires sb.Ok() && |blocks| == sb.size && 0 <= i < sb.ninodes
  {
    assert sb.IBlock(i) <= sb.IBlock(sb.ninodes - 1);
    WordsInode(blocks[sb.IBlock(i)], i % IPB).typ
  }

  /** ialloc: the first free inode from 1 on is taken, or none is left and the kernel
      panics. */
  method Ialloc(sb: Super, blocks: seq<Block>, typ: half) returns (ok: bool, inum: int, blocks': seq<Block>)
    requires sb.Ok() && |blocks| == sb.size
    ensures ok ==> 1 <= inum < sb.ninodes && TypeOf(sb, blocks, inum) == 0 && 0 <= sb.IBlock(inum) < |blocks|
                   && (forall i :: 1 <= i < inum ==> TypeOf(sb, blocks, i) != 0)
                   && blocks' == PutInode(sb, blocks, inum, Inode(typ, 0, 0, 0, 0, seq<word>(13, _ => 0)))
    ensures !ok ==> blocks' == blocks && forall i :: 1 <= i < sb.ninodes ==> TypeOf(sb, blocks, i) != 0
  {
    inum := 1;
    while inum < sb.ninodes
      invariant 1 <= inum && forall i :: 1 <= i < inum && i < sb.ninodes ==> TypeOf(sb, blocks, i) != 0
    {
      if TypeOf(sb, blocks, inum) == 0 {
        return true, inum, PutInode(sb, blocks, inum, R.NewInode(typ));
      }
      inum := inum + 1;
    }
    return false, 0, blocks;
  }

  class FileSystem {
    const sb: Super
    const inum: int
    var blocks: seq<Block>
    var ip: Inode
    /** The blocks given to log_write in this transaction. */
    var logged: set<int>
    /** The inodes that others have locked. */
    ghost var held: map<int, Inode>
    ghost var owner: map<int, (int, int)>
    ghost var loose: set<int>

    /** ilock, with no other inode locked: v is the volume on disk, as mkfs or the
        operations before have left it. */
    constructor (sb: Super, blocks: seq<Block>, inum: int, ghost v: Volume)
      requires Ok(v) && Synced(v) && v.held == map[] && v.sb == sb && v.blocks == blocks && 0 <= inum < sb.ninodes
      ensures V() == Relock(v, inum) && Ok(V()) && Synced(V()) && logged == {}
    {
      RelockRead(v, inum);
      this.sb, this.inum, this.blocks := sb, inum, blocks;
      ip := WordsInode(blocks[sb.IBlock(inum)], inum % IPB);
      logged, held, owner, loose := {}, map[], v.owner, v.loose;
    }

    ghost function V(): Volume
      reads this
    {
      Volume(sb, blocks, inum, ip, held, owner, loose)
    }

    // ----------------------------------------------------------------
    // The free map
    // ----------------------------------------------------------------

    /** The first clear bit below limit, or limit. */
    static method FindClear(bp: Block, limit: int) returns (bi: int)
      requires 0 <= limit <= BPB
      ensures 0 <= bi <= limit && (bi < limit ==> !Bit(bp, bi))
      ensures forall j :: 0 <= j < bi ==> Bit(bp, j)
    {
      bi := 0;
      while bi < limit && Bit(bp, bi)
        invariant 0 <= bi <= limit && forall j :: 0 <= j < bi ==> Bit(bp, j)
      {
        bi := bi + 1;
      }
    }

    /** The scan of balloc: the first free block, or the size of the disk. */
    method FindFree() returns (b: int)
      requires Shape(V())
      ensures 0 <= b <= sb.size && (b < sb.size ==> !Marked(V(), b))
      ensures forall c :: 0 <= c < b ==> Marked(V(), c)
    {
      var b0 := 0;
      while b0 < sb.size
        invariant Aligned(b0) && MarkedTo(V(), b0)
      {
        MarkIsBit(V(), b0, 0);
        var limit := Min(BPB, sb.size - b0);
        var m := sb.BBlock(b0);
        var bi := FindClear(blocks[m], limit);
        MarkedOn(V(), b0, bi, m);
        if bi < limit {
          MarkIsBit(V(), b0, bi);
          MarkedToIs(V(), b0 + bi);
          return b0 + bi;
        }
        AlignedNext(b0);
        MarkedToIs(V(), b0 + bi);
        b0 := b0 + BPB;
      }
      MarkedToIs(V(), b0);
      return sb.size;
    }

    /** The first free block, now marked and zeroed; false stands for the panic. */
    method Balloc() returns (ok: bool, b: int)
      requires Shape(V())
      modifies `blocks, `logged
      ensures ok ==> 0 <= b < sb.size && !Marked(old(V()), b) && forall c :: 0 <= c < b ==> Marked(old(V()), c)
      ensures ok ==> blocks == Mark(sb, old(blocks), b, true)[b := Zero()] && logged == old(logged) + {sb.BBlock(b), b}
      ensures !ok ==> Full(old(V())) && blocks == old(blocks) && logged == old(logged)
    {
      b := FindFree();
      if b == sb.size {
        assert Full(V());
        return false, 0;
      }
      var m := sb.BBlock(b);
      blocks := blocks[m := WithBit(blocks[m], b % BPB, true)];
      logged := logged + {m};
      blocks := blocks[b := Zero()];
      logged := logged + {b};
      ok := true;
    }

    /** Clears the mark of b, which must be set. */
    method Bfree(b: int)
      requires Shape(V()) && 0 <= b < sb.size && Marked(V(), b)
      modifies `blocks, `logged
      ensures blocks == Mark(sb, old(blocks), b, false) && logged == old(logged) + {sb.BBlock(b)}
    {
      var m := sb.BBlock(b);
      blocks := blocks[m := WithBit(blocks[m], b % BPB, false)];
      logged := logged + {m};
    }

    method Iupdate()
      requires Shape(V())
      modifies `blocks, `logged
      ensures V() == Sync(old(V())) && logged == old(logged) + {sb.IBlock(inum)}
    {
      blocks := PutInode(sb, blocks, inum, ip);
      logged := logged + {sb.IBlock(inum)};
    }

    // ----------------------------------------------------------------
    // The block map
    // ----------------------------------------------------------------

    /** Reference k of the inode gets a new block. */
    method GiveBlock(k: int) returns (ok: bool, addr: word, ghost ls: seq<R.Step>)
      requires Ok(V()) && 0 <= k <= NDIRECT && ip.addrs[k] == 0
      modifies this
      ensures ok ==> Prepared(old(V()), ls, V())
      ensures ok ==> Gave(old(V()), V(), k, addr) && logged == old(logged) + {sb.BBlock(addr), addr}
      ensures !ok ==> V() == old(V()) && Full(V()) && logged == old(logged)
    {
      var b;
      ok, b := Balloc();
      if !ok { return false, 0, []; }
      addr := b;
      ls := [R.TakeBlock(inum, b), R.ZeroBlock(inum, b), R.SetRef(inum, k, b)];
      ip := WithAddr(ip, k, addr);
      owner, loose := owner[b := (inum, k)], loose + {b} - {b};
      assert V() == Attach(Alloc(old(V()), addr), k, addr);
      BlockGiven(old(V()), k, addr);
      RefPrepared(old(V()), k, addr);
      assert Gives(inum, b) + [R.SetRef(inum, k, b)] == ls;
    }

    /** Entry j of the indirect block gets a new block. */
    method GiveEntry(j: int) returns (ok: bool, addr: word, ghost ls: seq<R.Step>)
      requires Ok(V()) && 0 <= j < NINDIRECT && HasIndirect(V()) && Refs(V())[NDIRECT + 1 + j] == 0
      modifies this
      ensures ip == old(ip)
      ensures ok ==> Gave(old(V()), V(), NDIRECT + 1 + j, addr) && Prepared(old(V()), ls, V())
      ensures ok ==> logged == old(logged) + {sb.BBlock(addr), addr, ip.addrs[NDIRECT]}
      ensures !ok ==> V() == old(V()) && Full(V()) && logged == old(logged)
    {
      var b;
      ok, b := Balloc();
      if !ok { return false, 0, []; }
      addr := b;
      ls := [R.TakeBlock(inum, b), R.ZeroBlock(inum, b), R.SetEntry(inum, j, b)];
      EntryPrepared(old(V()), j, addr);
      assert Gives(inum, b) + [R.SetEntry(inum, j, b)] == ls;
      EntryGiven(old(V()), j, addr);
      var a := ip.addrs[NDIRECT];
      blocks := blocks[a := WithWord(blocks[a], j, addr)];
      logged := logged + {a};
      owner, loose := owner[b := (inum, NDIRECT + 1 + j)], loose + {b} - {b};
      assert V() == AttachEntry(Alloc(old(V()), addr), j, addr);
    }

    /** The disk block of file block bn, made if it is not there; M is what it logs. */
    method Bmap(bn: int) returns (ok: bool, addr: word, ghost M: set<int>, ghost ls: seq<R.Step>)
      requires Ok(V()) && 0 <= bn < MAXFILE
      modifies this
      ensures ok ==> Prepared(old(V()), ls, V())
      ensures ok ==> DidMap(old(V()), V(), bn, M) && logged == old(logged) + M && addr == Refs(V())[SlotOf(bn)]
      ensures !ok ==> Stuck(old(V()), V()) && Refs(old(V()))[SlotOf(bn)] == 0
    {
      M, ls := {}, [];
      NothingPrepared(V());
      ReadsRefs(V(), SlotOf(bn));
      if bn < NDIRECT {
        addr := ip.addrs[bn];
        if addr == 0 {
          ok, addr, ls := GiveBlock(bn);
          if ok {
            DirectMade(old(V()), V(), bn, addr);
            M := {sb.BBlock(addr), addr as int};
          } else {
            FullAfter(old(V()), V(), 0, 0);
          }
          return;
        }
        Found(V(), bn);
        return true, addr, {}, [];
      }
      ok, addr, M, ls := BmapIndirect(bn);
    }

    /** The indirect block, made if it is not there. */
    method LoadIndirect() returns (ok: bool, a: word, ghost ls: seq<R.Step>)
      requires Ok(V())
      modifies this
      ensures ok ==> Ready(old(V()), V(), a) && Prepared(old(V()), ls, V())
      ensures ok ==> logged == old(logged) + if V() == old(V()) then {} else {sb.BBlock(a), a}
      ensures !ok ==> V() == old(V()) && Full(V()) && ip.addrs[NDIRECT] == 0
    {
      ReadsRefs(V(), NDIRECT + 1);
      a := ip.addrs[NDIRECT];
      if a == 0 {
        ok, a, ls := GiveBlock(NDIRECT);
        if ok { GivenIsReady(old(V()), V(), a); }
        return;
      }
      NothingPrepared(V());
      return true, a, [];
    }

    method BmapIndirect(bn: int) returns (ok: bool, addr: word, ghost M: set<int>, ghost ls: seq<R.Step>)
      requires Ok(V()) && NDIRECT <= bn < MAXFILE
      modifies this
      ensures ok ==> Prepared(old(V()), ls, V())
      ensures ok ==> DidMap(old(V()), V(), bn, M) && logged == old(logged) + M && addr == Refs(V())[bn + 1]
      ensures !ok ==> Stuck(old(V()), V()) && Refs(old(V()))[bn + 1] == 0
    {
      ghost var f := V();
      var a;
      ok, a, ls := LoadIndirect();
      if !ok {
        FullAfter(f, V(), 0, 0);
        NoEntry(f, bn);
        return false, 0, {}, [];
      }
      ReadyEntry(f, V(), a, bn);
      addr := Word(blocks[a], bn - NDIRECT);
      if addr != 0 {
        Found(f, bn);
        return true, addr, {}, ls;
      }
      ok, addr, M, ls := MakeEntry(f, a, bn, ls, old(logged));
    }

    /** A missing entry of the indirect block a, which was there in f or is new. */
    method MakeEntry(ghost f: Volume, a: word, bn: int, ghost ls: seq<R.Step>, ghost log0: set<int>)
      returns (ok: bool, addr: word, ghost M: set<int>, ghost ls': seq<R.Step>)
      requires Ok(f) && NDIRECT <= bn < MAXFILE && Ready(f, V(), a) && Prepared(f, ls, V()) && Refs(V())[bn + 1] == 0
      requires logged == log0 + if V() == f then {} else {sb.BBlock(a), a as int}
      modifies this
      ensures ok ==> Prepared(f, ls', V()) && DidMap(f, V(), bn, M) && addr == Refs(V())[bn + 1] && logged == log0 + M
      ensures !ok ==> Stuck(f, V())
    {
      ghost var h, ms := V(), [];
      ls', M := ls, {};
      ok, addr, ms := GiveEntry(bn - NDIRECT);
      if ok {
        PreparedThen(f, ls, h, ms, V());
        EntryAfter(f, h, V(), bn, a, addr);
        ls', M := ls + ms, {sb.BBlock(addr), addr as int, a as int} + if h == f then {} else {sb.BBlock(a)};
      } else {
        FullAfter(f, V(), NDIRECT, a);
      }
    }

    // ----------------------------------------------------------------
    // Truncation
    // ----------------------------------------------------------------

    method FreeDirect() returns (ghost ls: seq<R.Step>)
      requires Ok(V())
      modifies this
      ensures Gone(old(V()), V(), NDIRECT) && Freed(old(V()), ls, V())
    {
      ghost var f := V();
      GoneStart(f);
      ls := [];
      NothingFreed(f);
      for i := 0 to NDIRECT
        invariant Ok(V()) && Gone(f, V(), i) && Freed(f, ls, V())
      {
        ls := FreeRef(f, i, ls);
      }
    }

    /** One direct block of itrunc. */
    method FreeRef(ghost f: Volume, i: int, ghost ls: seq<R.Step>) returns (ghost ls': seq<R.Step>)
      requires Ok(f) && Ok(V()) && 0 <= i < NDIRECT && Gone(f, V(), i) && Freed(f, ls, V())
      modifies this
      ensures Ok(V()) && Gone(f, V(), i + 1) && Freed(f, ls', V())
    {
      GoneStep(f, V(), i);
      ghost var g := V();
      ls' := ls;
      if ip.addrs[i] != 0 {
        var b := ip.addrs[i];
        Bfree(b);
        ip := WithAddr(ip, i, 0);
        owner, loose := owner - {b}, loose + {b} - {b};
        assert V() == Free(Detach(g, i), b);
        RefFreed(g, i);
        FreedThen(f, ls, g, [R.ClearRef(inum, i), R.GiveBack(inum, b)], V());
        ls' := ls + [R.ClearRef(inum, i), R.GiveBack(inum, b)];
      }
    }

    /** While the indirect block is read, its inode still refers to it; h is the volume
        as if it did not. */
    ghost predicate Reading(g: Volume, h: Volume, j: int)
      requires Ok(g)
      reads this
    {
      && ip == g.ip && owner == g.owner && loose == g.loose && Cut(g, h, j)
      && h == Volume(sb, blocks, inum, h.ip, held, h.owner, h.loose)
    }

    /** One entry of the indirect block a. */
    method FreeEntry(ghost g: Volume, ghost h: Volume, a: word, j: int, ghost ls: seq<R.Step>)
      returns (ghost h': Volume, ghost ls': seq<R.Step>)
      requires Ok(g) && Reading(g, h, j) && 0 <= j < NINDIRECT && a == ip.addrs[NDIRECT] && Steps(g, ls, h)
      modifies `blocks, `logged
      ensures Reading(g, h', j + 1) && Steps(g, ls', h')
    {
      CutStep(g, h, j);
      var e := Word(blocks[a], j);
      h', ls' := h, ls;
      if e != 0 {
        EntryFreed(g, ls, h, j, e);
        Bfree(e);
        h', ls' := Free(h, e), ls + [R.GiveBack(inum, e)];
      }
    }

    /** Gives back what the indirect block lists, then the indirect block. */
    method FreeIndirect(ghost f: Volume) returns (ghost ls: seq<R.Step>)
      requires Ok(f) && Ok(V()) && Gone(f, V(), NDIRECT) && ip.addrs[NDIRECT] != 0
      modifies this
      ensures Gone(f, V(), 13) && Freed(old(V()), ls, V())
    {
      ghost var g := V();
      var a := ip.addrs[NDIRECT];
      CutStart(g);
      ghost var h := DetachTree(g);
      ls := [R.ClearTree(inum)];
      TreeStarted(g);
      for j := 0 to NINDIRECT
        invariant Reading(g, h, j) && held == g.held && Steps(g, ls, h)
      {
        h, ls := FreeEntry(g, h, a, j, ls);
      }
      CutEnd(f, g, h);
      TreeFreed(g, ls, h);
      ls := ls + [R.GiveBack(inum, a)];
      Bfree(a);
      h := Free(h, a);
      ip := WithAddr(ip, NDIRECT, 0);
      owner, loose := h.owner, h.loose;
      assert V() == h;
    }

    /** Frees exactly the blocks of the inode; the file is empty. */
    method Itrunc() returns (ghost ls: seq<R.Step>)
      requires Ok(V())
      modifies this
      ensures Emptied(old(V()), V()) && Freed(old(V()), ls, V())
    {
      ghost var f := V();
      ls := FreeDirect();
      if ip.addrs[NDIRECT] != 0 {
        ghost var h := V();
        ghost var ms := FreeIndirect(f);
        FreedThen(f, ls, h, ms, V());
        ls := ls + ms;
      } else {
        NoTree(f, V());
      }
      ghost var g := V();
      ip := WithSize(ip, 0);
      Iupdate();
      TruncDone(f, g);
      EmptyFreed(f, ls, g);
      ls := ls + [R.SetSize(inum, 0), R.WriteInode(inum)];
    }

    /** iput with this many references: an inode without links and other references is
        truncated and freed.  g is the volume after itrunc. */
    method Iput(refs: int) returns (freed: bool, ghost ls: seq<R.Step>, ghost g: Volume)
      requires Ok(V())
      modifies this
      ensures freed <==> old(ip.nlink) == 0 && refs == 1
      ensures !freed ==> V() == old(V())
      ensures freed ==> Emptied(old(V()), g) && Freed(old(V()), ls, g) && R.Bare(g.ip)
      ensures freed ==> V() == Sync(Retype(g, Inode(0, g.ip.major, g.ip.minor, g.ip.nlink, g.ip.size, g.ip.addrs)))
    {
      ls, g := [], V();
      freed := ip.nlink == 0 && refs == 1;
      if freed {
        ls := Itrunc();
        g := V();
        EmptiedBare(old(V()), g);
        ip := Inode(0, ip.major, ip.minor, ip.nlink, ip.size, ip.addrs);
        Iupdate();
      }
    }

    // ----------------------------------------------------------------
    // Reading and writing bytes
    // ----------------------------------------------------------------

    /** One turn of the loop of readi. */
    method ReadBlock(o: int, n: int, p: int, m: int) returns (d: seq<byte>)
      requires Clean(V()) && 0 <= o && o == n * BSIZE + p && 0 <= n < MAXFILE && 0 < m && o + m <= ip.size && 0 <= p && p + m <= BSIZE
      modifies this
      ensures V() == old(V()) && logged == old(logged) && d == Data(V())[o..o + m]
    {
      ghost var f := V();
      BlockThere(f, o, n, p);
      var ok, addr, M, ls := Bmap(n);
      assert ok;
      MappedIsData(f, V(), n, M);
      d := blocks[addr][p..p + m];
      PartIsData(f, o, n, p, m);
    }

    /** One turn of the loop, to the end of the block or of the request. */
    method ReadTurn(off: int, len: int, tot: int, dst: seq<byte>) returns (dst': seq<byte>, tot': int)
      requires Clean(V()) && 0 <= off && 0 <= tot < len && off + len <= ip.size && dst == Data(V())[off..off + tot]
      modifies this
      ensures V() == old(V()) && logged == old(logged) && tot < tot' <= len && dst' == Data(V())[off..off + tot']
    {
      ghost var data := Data(V());
      var o := off + tot;
      var bn, p := Locate(o);
      var m := Min(len - tot, BSIZE - p);
      var d := ReadBlock(o, bn, p, m);
      SliceOn(data, off, o, o + m);
      dst', tot' := dst + d, tot + m;
    }

    method ReadLoop(off: int, len: int) returns (dst: seq<byte>)
      requires Clean(V()) && 0 <= off && 0 <= len && off + len <= ip.size
      modifies this
      ensures V() == old(V()) && logged == old(logged) && dst == Data(V())[off..off + len]
    {
      ghost var f, data := V(), Data(V());
      dst := [];
      var tot := 0;
      while tot < len
        invariant 0 <= tot <= len && V() == f && logged == old(logged)
        invariant dst == data[off..off + tot]
      {
        dst, tot := ReadTurn(off, len, tot, dst);
      }
    }

    /** Reads the stored bytes, cut at the end of the file, and allocates nothing. */
    method Readi(off: word, n: word) returns (r: int, dst: seq<byte>)
      requires Clean(V()) && ip.typ != T_DEV
      modifies this
      ensures V() == old(V()) && logged == old(logged)
      ensures off > ip.size || off + n >= WRAP ==> r == -1 && dst == []
      ensures off <= ip.size && off + n < WRAP ==> r == Min(n, ip.size - off) && dst == Data(V())[off..off + r]
    {
      var bad := BadRange(off, n, ip.size);
      if bad { return -1, []; }
      r := if off + n > ip.size then ip.size - off else n;
      dst := ReadLoop(off, r);
    }

    /** One turn of the loop of writei: e goes into block hi of the file. */
    method WriteBlock(ghost f: Volume, ghost lo: int, hi: int, ghost off: int, p: int, e: seq<byte>,
                      ghost d: seq<byte>, ghost d': seq<byte>, ghost L: set<int>, ghost ls: seq<R.Step>)
      returns (ok: bool, ghost hi': int, ghost L': set<int>, ghost ls': seq<R.Step>)
      requires Ok(f) && Ok(V()) && Doing(f, V(), lo, hi, off, d, L) && 0 <= hi < MAXFILE && L <= logged
      requires Tracked(f, ls, V(), off, d)
      requires off + |d| == hi * BSIZE + p && 0 <= p && p + |e| <= BSIZE && d' == d + e
      modifies this
      ensures ok ==> hi' == hi + 1 && Doing(f, V(), lo, hi', off, d', L') && L <= L' && logged == old(logged) + L'
      ensures ok ==> Tracked(f, ls', V(), off, d')
      ensures !ok ==> Halted(f, V(), off, d)
    {
      ghost var g := V();
      var addr;
      ghost var M, ms;
      hi', L', ls' := hi + 1, L, ls;
      ok, addr, M, ms := Bmap(hi);
      if !ok {
        DoingStuck(f, g, V(), lo, hi, off, d, L);
        return;
      }
      MappedIsData(g, V(), hi, M);
      DoingStep(f, g, V(), lo, hi, off, d, p, e, L, M);
      TrackOn(f, ls, g, off, d, ms, V(), hi, p, e);
      blocks := blocks[addr := WithBytes(blocks[addr], p, e)];
      logged := logged + {addr};
      L', ls' := L + M + {addr as int}, ls + ms + [R.WriteBytes(inum, hi, p, e)];
    }

    /** One turn of the loop of writei, to the end of the block or of the request. */
    method WriteTurn(ghost f: Volume, src: seq<byte>, off: int, tot: int, n: int, ghost lo: int, ghost hi: int, ghost L: set<int>, ghost ls: seq<R.Step>)
      returns (ok: bool, tot': int, ghost hi': int, ghost L': set<int>, ghost ls': seq<R.Step>)
      requires Ok(f) && Midway(f, V(), src, off, tot, n, lo, hi, L) && tot < n && 0 <= off && off + n <= MAXFILE * BSIZE && L <= logged
      requires Tracked(f, ls, V(), off, src[..tot])
      modifies this
      ensures ok ==> tot < tot' <= n && Tracked(f, ls', V(), off, src[..tot'])
      ensures ok ==> Midway(f, V(), src, off, tot', n, lo, hi', L') && L <= L' && logged == old(logged) + L'
      ensures !ok ==> Halted(f, V(), off, src[..tot])
    {
      MidwayIs(f, V(), src, off, tot, n, lo, hi, L);
      var bn, p := Locate(off + tot);
      var m := Min(n - tot, BSIZE - p);
      tot' := tot + m;
      SpanOn(off, tot, n, lo, hi, bn, p, m);
      TakeOn(src, tot, m);
      ok, hi', L', ls' := WriteBlock(f, lo, bn, off, p, src[tot..tot'], src[..tot], src[..tot'], L, ls);
      if ok { MidwayIs(f, V(), src, off, tot', n, lo, hi', L'); }
    }

    /** The loop of writei, which takes blocks lo to hi - 1. */
    method WriteLoop(src: seq<byte>, off: int, n: int) returns (ok: bool, ghost lo: int, ghost hi: int, ghost L: set<int>, ghost done: int, ghost ls: seq<R.Step>)
      requires Ok(V()) && 0 <= off && 0 <= n <= |src| && off + n <= MAXFILE * BSIZE
      modifies this
      ensures ok ==> Midway(old(V()), V(), src, off, n, n, lo, hi, L) && logged == old(logged) + L
      ensures ok ==> Tracked(old(V()), ls, V(), off, src[..n])
      ensures !ok ==> 0 <= done < n && Halted(old(V()), V(), off, src[..done])
    {
      ghost var f := V();
      var tot := 0;
      ok, L, ls := true, {}, [];
      TrackStart(f, off);
      assert src[..0] == [];
      lo, hi := off / BSIZE, off / BSIZE;
      MidwayStart(f, src, off, n, lo);
      while tot < n
        invariant Midway(f, V(), src, off, tot, n, lo, hi, L) && logged == old(logged) + L && ok
        invariant 0 <= tot <= n && Tracked(f, ls, V(), off, src[..tot])
        decreases n - tot
      {
        done := tot;
        ok, tot, hi, L, ls := WriteTurn(f, src, off, tot, n, lo, hi, L, ls);
        if !ok { return; }
      }
      done := n;
    }

    /** A longer file: the size and the references reach the disk. */
    method SetSize(n: word)
      requires Ok(V())
      modifies `blocks, `ip, `logged
      ensures Closed(old(V()), V(), n) && V() == Sync(Resize(old(V()), n)) && logged == old(logged) + {sb.IBlock(inum)}
    {
      CloseOk(V(), n);
      ip := WithSize(ip, n);
      Iupdate();
    }

    /** After the loop: the size, if it grows. */
    method WriteEnd(ghost f: Volume, off: int, n: int, ghost d: seq<byte>, ghost lo: int, ghost hi: int, ghost L: set<int>,
                    ghost ls: seq<R.Step>, ghost log0: set<int>)
      returns (ghost ls': seq<R.Step>)
      requires Clean(f) && Ok(V()) && Doing(f, V(), lo, hi, off, d, L) && Tracked(f, ls, V(), off, d) && Spans(off, n, lo, hi)
      requires |d| == n && 0 <= off <= f.ip.size && off + n <= MAXFILE * BSIZE && logged == log0 + L
      modifies this
      ensures Wrote(f, V(), off, d) && DidWrite(f, ls', V(), off, d) && logged == log0 + Cost(f, V(), off, n)
    {
      ghost var g := V();
      DoingSize(f, g, lo, hi, off, d, L);
      if n > 0 && off + n > ip.size {
        var size: word := off + n;
        SetSize(size);
        EndPast(f, g, V(), off, d, lo, hi, L, ls, size);
        ls' := ls + [R.SetSize(f.cur, size), R.WriteInode(f.cur)];
      } else {
        EndInside(f, g, off, d, lo, hi, L, ls);
        ls' := ls;
      }
    }

    method WriteInRange(src: seq<byte>, off: int, n: int) returns (ok: bool, ghost done: int, ghost ls: seq<R.Step>)
      requires Clean(V()) && 0 <= n <= |src| && 0 <= off <= ip.size && off + n <= MAXFILE * BSIZE
      modifies this
      ensures ok ==> Wrote(old(V()), V(), off, src[..n]) && logged == old(logged) + Cost(old(V()), V(), off, n)
      ensures ok ==> DidWrite(old(V()), ls, V(), off, src[..n])
      ensures !ok ==> 0 <= done < n && Halted(old(V()), V(), off, src[..done])
    {
      ghost var f := V();
      ghost var lo, hi, L;
      ok, lo, hi, L, done, ls := WriteLoop(src, off, n);
      if !ok { return; }
      MidwayIs(f, V(), src, off, n, n, lo, hi, L);
      ls := WriteEnd(f, off, n, src[..n], lo, hi, L, ls, old(logged));
    }

    /** Changes exactly the bytes from off to off + n, or nothing. */
    method Writei(src: seq<byte>, off: word, n: word) returns (r: Outcome, ghost done: int, ghost ls: seq<R.Step>)
      requires Clean(V()) && ip.typ != T_DEV && n <= |src|
      modifies this
      ensures off > old(ip.size) || off + n > MAXFILE * BSIZE ==> r == Ret(-1) && V() == old(V()) && logged == old(logged)
      ensures off <= old(ip.size) && off + n <= MAXFILE * BSIZE ==> r == Panic || r == Ret(n)
      ensures r == Ret(n) ==> off <= old(ip.size) && Wrote(old(V()), V(), off, src[..n])
      ensures r == Ret(n) ==> off + n <= MAXFILE * BSIZE && logged == old(logged) + Cost(old(V()), V(), off, n)
      ensures r == Ret(n) ==> DidWrite(old(V()), ls, V(), off, src[..n])
      ensures r == Panic ==> 0 <= done < n && Halted(old(V()), V(), off, src[..done])
    {
      var bad := BadRange(off, n, ip.size);
      if bad || off + n > MAXFILE * BSIZE { return Ret(-1), 0, []; }
      var ok;
      ok, done, ls := WriteInRange(src, off, n);
      r := if ok then Ret(n) else Panic;
    }
  }
}

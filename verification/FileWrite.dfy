/** lab2/file.c: filewrite splits a write into operations that fit the log. */
module FileWrite {
  import opened Words
  import opened FsBytes
  import opened FsModel
  import opened FsCost
  import opened FsLocked
  import opened Fs

  /** How many bytes of a write of n at off reach a file of that size: chunks are whole,
      and the one that would pass the largest file stops the write. */
  function Reach(off: int, size: int, n: int): int
  {
    if off > size || n <= 0 then 0
    else if off + n <= MAXFILE * BSIZE then n
    else (MAXFILE * BSIZE - off) / CHUNK * CHUNK
  }

  /** After q whole chunks the next one, of n1 bytes, is refused. */
  lemma ReachAtStop(off: int, size: int, n: int, q: int, n1: int)
    requires 0 <= off && 0 <= q && q * CHUNK < n && n1 == Min(n - q * CHUNK, CHUNK)
    requires off <= size <= MAXFILE * BSIZE && off + q * CHUNK <= MAXFILE * BSIZE < off + q * CHUNK + n1
    ensures Reach(off, size, n) == q * CHUNK
  {
    DivIs(MAXFILE * BSIZE - off, CHUNK, q, MAXFILE * BSIZE - off - q * CHUNK);
  }

  /** A write is cut short, after some chunks, exactly when it would pass the largest file
      and its first chunk would not. */
  lemma CutShortIff(off: int, size: int, n: int)
    requires 0 <= off && size <= MAXFILE * BSIZE
    ensures 0 < Reach(off, size, n) < n <==> off <= size && off + n > MAXFILE * BSIZE && off + CHUNK <= MAXFILE * BSIZE
  {
    var room := MAXFILE * BSIZE - off;
    if room >= 0 { Multiple(room, CHUNK, room / CHUNK); }
  }

  /** Such a write: the largest file and one byte more, to an empty file. */
  lemma CutShort()
    ensures var n := MAXFILE * BSIZE + 1; Reach(0, 0, n) == 46 * CHUNK && 0 < 46 * CHUNK < n
  {
    DivIs(MAXFILE * BSIZE, CHUNK, 46, 1024);
  }

  /** From f to g, the first i bytes of src are written at off; past the end nothing is. */
  ghost predicate Sent(f: Volume, g: Volume, off: int, d: seq<byte>)
  {
    && Clean(f) && Clean(g) && 0 <= off && g.ip.typ != T_DEV
    && (if off <= f.ip.size then off + |d| <= g.ip.size && Wrote(f, g, off, d) else d == [] && g == f)
  }

  lemma SentStart(f: Volume, off: int)
    requires Clean(f) && 0 <= off && f.ip.typ != T_DEV
    ensures Sent(f, f, off, [])
  {
    if off <= f.ip.size { WroteNothing(f, off); }
  }

  lemma SentOn(f: Volume, g: Volume, h: Volume, off: int, d: seq<byte>, p: int, e: seq<byte>, de: seq<byte>)
    requires Sent(f, g, off, d) && p == off + |d| <= g.ip.size && Wrote(g, h, p, e) && |e| > 0 && de == d + e
    ensures Sent(f, h, off, de)
  {
    WroteSize(g, h, p, e);
    if off <= f.ip.size { WroteTwice(f, g, h, off, d, p, e, de); }
  }

  /** i bytes take q operations. */
  predicate InOps(i: int, q: int) { i <= q * 1536 < i + 1536 }

  lemma OneMoreOp(i: int, n: int, q: int, n1: int)
    requires InOps(i, q) && i < n && i == q * CHUNK && n1 == Min(n - i, CHUNK)
    ensures InOps(i + n1, q + 1)
  {
  }

  lemma OpsAre(n: int, q: int)
    requires InOps(n, q)
    ensures q == (n + 1535) / 1536
  {
  }

  ghost predicate AllFit(ops: seq<set<int>>) { forall k :: 0 <= k < |ops| ==> |ops[k]| <= MAXOPBLOCKS }

  class OpenFile {
    const fs: FileSystem
    const writable: bool
    var off: word
    /** What each operation, from begin_op to end_op, has logged. */
    ghost var ops: seq<set<int>>

    constructor (fs: FileSystem, writable: bool)
      ensures this.fs == fs && this.writable == writable && off == 0 && ops == []
    {
      this.fs, this.writable := fs, writable;
      off, ops := 0, [];
    }

    /** One operation: begin_op, writei of d, end_op. */
    method Operation(d: seq<byte>) returns (r: Outcome)
      requires Clean(fs.V()) && fs.ip.typ != T_DEV && 0 < |d| <= CHUNK && AllFit(ops)
      modifies this, fs
      ensures old(off) > old(fs.ip.size) || old(off) + |d| > MAXFILE * BSIZE ==>
        r == Ret(-1) && off == old(off) && fs.V() == old(fs.V())
      ensures old(off) <= old(fs.ip.size) && old(off) + |d| <= MAXFILE * BSIZE ==> r == Ret(|d|) || r == Panic
      ensures r == Ret(|d|) ==> off == old(off) + |d| && old(off) <= old(fs.ip.size) && Wrote(old(fs.V()), fs.V(), old(off), d)
      ensures r == Panic ==> Ok(fs.V()) && Full(fs.V())
      ensures AllFit(ops) && (r != Panic ==> ops == old(ops) + [fs.logged])
    {
      fs.logged := {};
      assert d[..|d|] == d;
      ghost var done, ls;
      r, done, ls := fs.Writei(d, off, |d|);
      if r == Panic { return; }
      if r.n > 0 {
        CostFits(old(fs.V()), fs.V(), off, |d|);
        off := off + r.n;
      }
      ops := ops + [fs.logged];
    }

    /** Writes Reach bytes at the offset and moves it; fails unless that is all of them.
        Every operation fits the log. */
    method Filewrite(src: seq<byte>, n: int) returns (r: Outcome)
      requires Clean(fs.V()) && fs.ip.typ != T_DEV && n <= |src| && AllFit(ops)
      modifies this, fs
      ensures !writable ==> r == Ret(-1) && off == old(off) && fs.V() == old(fs.V())
      ensures writable && r != Panic ==>
        var w := Reach(old(off), old(fs.ip.size), n);
        && r == Ret(if w == n then n else -1) && off == old(off) + w
        && 0 <= w <= |src| && Sent(old(fs.V()), fs.V(), old(off), src[..w])
      ensures r == Panic ==> Ok(fs.V()) && Full(fs.V())
      ensures AllFit(ops) && (r == Ret(n) && n > 0 ==> |ops| == |old(ops)| + (n + 1535) / 1536)
    {
      if !writable { return Ret(-1); }
      ghost var f, off0 := fs.V(), off as int;
      SentStart(f, off0);
      var i := 0;
      ghost var q, done: seq<byte> := 0, [];
      while i < n
        invariant 0 <= i && (i <= n || i == 0) && 0 <= q && (i < n ==> i == q * CHUNK) && off == off0 + i
        invariant done == src[..i] && Sent(f, fs.V(), off0, done) && AllFit(ops)
        invariant |ops| == |old(ops)| + q && InOps(i, q)
      {
        ghost var g, p := fs.V(), off as int;
        var n1 := Min(n - i, CHUNK);
        var c := Operation(src[i..i + n1]);
        if c == Panic { return Panic; }
        if c.n < 0 {
          if off0 <= f.ip.size { ReachAtStop(off0, f.ip.size, n, q, n1); }
          return Ret(-1);
        }
        ghost var more := done + src[i..i + n1];
        SentOn(f, g, fs.V(), off0, done, p, src[i..i + n1], more);
        TakeOn(src, i, n1);
        OneMoreOp(i, n, q, n1);
        i, q, done := i + n1, q + 1, more;
      }
      if i == n { OpsAre(n, q); }
      return Ret(if i == n then n else -1);
    }
  }
}

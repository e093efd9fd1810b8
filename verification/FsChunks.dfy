/** The steps of writei, as an operation that turns one version of a file into the next:
    the bytes overwritten at the offset, and the size if it grows. */
module FsChunks {
  import opened FsBytes
  import opened FsModel
  import opened FsProofs
  import opened FsWrite
  import opened FsRuns
  import opened FsKernel
  import opened FsVersions
  import opened FsSteps
  import opened FsTraces
  import opened FsCost
  import Lg = LogMachine
  import Cr = FsCrash

  /** A step of the holder of i on its inode and its blocks. */
  predicate Works(a: Act, i: int) { IsOwn(a, i) && Working(a.s) }

  /** The steps that the holder of i makes from step a to step k - 1. */
  function Own(acts: seq<Act>, i: int, a: nat, k: nat): (ls: seq<Step>)
    requires a <= k <= |acts|
    decreases k
  {
    if a == k then [] else Own(acts, i, a, k - 1) + if Works(acts[k - 1], i) then [acts[k - 1].s] else []
  }

  /** The steps of the holder of i from a to k are those of writei of d at off in a file of
      the given size. */
  ghost predicate IsWritei(acts: seq<Act>, i: int, a: nat, k: nat, off: int, d: seq<byte>, size: int)
    requires a <= k <= |acts|
  {
    WriteiSteps(Own(acts, i, a, k), off, d, size)
  }

  lemma TurnLess(ls: seq<Step>, l: Step, off: int)
    requires InTurn(ls + [l], off)
    ensures InTurn(ls, off) && (l.WriteBytes? ==> GoesOn(l, off + |Put(ls)|))
  {
    var ms := ls + [l];
    assert ms[..|ls|] == ls && ms[|ls|] == l;
    forall m | 0 <= m < |ls| && ls[m].WriteBytes? ensures GoesOn(ls[m], off + |Put(ls[..m])|) {
      assert ms[m] == ls[m] && ms[..m] == ls[..m];
    }
  }

  lemma SplicedOn(c: seq<byte>, ls: seq<Step>, l: Step, off: int)
    requires |c| == MAXFILE * BSIZE && 0 <= off && off + |Put(ls)| <= |c| && (l.WriteBytes? ==> GoesOn(l, off + |Put(ls)|))
    ensures off + |Put(ls + [l])| <= |c| && Spliced(Splice(c, off, Put(ls)), l) == Splice(c, off, Put(ls + [l]))
  {
    PutOn(ls, l);
    if l.WriteBytes? { SpliceTwice(c, off, Put(ls), l.d); } else { assert Put(ls) + [] == Put(ls); }
  }

  lemma {:induction false} OwnIsSplice(c: seq<byte>, acts: seq<Act>, i: int, off: int, a: nat, k: nat)
    requires a <= k <= |acts| && |c| == MAXFILE * BSIZE && 0 <= off <= |c| && InTurn(Own(acts, i, a, k), off)
    ensures off + |Put(Own(acts, i, a, k))| <= |c| && OwnBytes(c, acts, i, a, k) == Splice(c, off, Put(Own(acts, i, a, k)))
    decreases k
  {
    if a == k {
      assert Splice(c, off, []) == c;
    } else {
      var ls := Own(acts, i, a, k - 1);
      if Works(acts[k - 1], i) {
        var l := acts[k - 1].s;
        TurnLess(ls, l, off);
        OwnIsSplice(c, acts, i, off, a, k - 1);
        SplicedOn(c, ls, l, off);
      } else {
        assert ls + [] == ls;
        OwnIsSplice(c, acts, i, off, a, k - 1);
      }
    }
  }

  lemma {:induction false} OwnIsSized(size: int, acts: seq<Act>, i: int, a: nat, k: nat)
    requires a <= k <= |acts|
    ensures OwnSize(size, acts, i, a, k) == Sized(size, Own(acts, i, a, k))
    decreases k
  {
    if a < k {
      OwnIsSized(size, acts, i, a, k - 1);
      var ls := Own(acts, i, a, k - 1);
      if Works(acts[k - 1], i) {
        assert (ls + [acts[k - 1].s])[..|ls|] == ls;
      } else {
        assert ls + [] == ls;
      }
    }
  }

  lemma {:induction false} OwnMember(acts: seq<Act>, i: int, a: nat, k: nat, m: nat)
    requires a <= m < k <= |acts| && Works(acts[m], i)
    ensures acts[m].s in Own(acts, i, a, k)
    decreases k
  {
    if m < k - 1 { OwnMember(acts, i, a, k - 1, m); }
  }

  lemma WriteiCut(acts: seq<Act>, i: int, a: nat, k: nat, off: int, d: seq<byte>, c: seq<byte>, size: int)
    requires a <= k <= |acts| && |c| == MAXFILE * BSIZE && 0 <= size <= MAXFILE * BSIZE && IsWritei(acts, i, a, k, off, d, size)
    ensures 0 <= OwnSize(size, acts, i, a, k)
    ensures Cut(OwnBytes(c, acts, i, a, k), OwnSize(size, acts, i, a, k)) == Overwrite(Cut(c, size), off, d)
  {
    OwnIsSplice(c, acts, i, off, a, k);
    OwnIsSized(size, acts, i, a, k);
    if off + |d| > size { SplicePast(c, size, off, d); } else { SpliceInside(c, size, off, d); }
  }

  lemma NoTruncation(acts: seq<Act>, i: int, a: nat, k: nat, off: int, d: seq<byte>, size: int)
    requires a <= k <= |acts| && IsWritei(acts, i, a, k, off, d, size)
    ensures forall m :: a <= m < k && IsOwn(acts[m], i) ==> !Truncates(acts[m].s)
  {
    forall m | a <= m < k && IsOwn(acts[m], i) ensures !Truncates(acts[m].s) {
      if Works(acts[m], i) { OwnMember(acts, i, a, k, m); }
    }
  }

  /** writei of d at off is an operation that overwrites the version it finds. */
  lemma WriteiIsOperation(acts: seq<Act>, i: int, k: nat, off: int, d: seq<byte>, version: nat -> seq<byte>)
    requires k < |acts| && LockedAt(acts, i, k) >= 0
    requires var t := Count(acts, i, k);
             && |version(t)| <= MAXFILE * BSIZE && IsWritei(acts, i, LockedAt(acts, i, k), k, off, d, |version(t)|)
             && version(t + 1) == Overwrite(version(t), off, d)
    ensures OperationOk(acts, i, k, version)
  {
    var a: nat, t := LockedAt(acts, i, k), Count(acts, i, k);
    NoTruncation(acts, i, a, k, off, d, |version(t)|);
    forall c: seq<byte>, size: word | |c| == MAXFILE * BSIZE && Cut(c, size) == version(t)
      ensures 0 <= OwnSize(size, acts, i, a, k) && Cut(OwnBytes(c, acts, i, a, k), OwnSize(size, acts, i, a, k)) == version(t + 1)
    {
      WriteiCut(acts, i, a, k, off, d, c, size);
    }
  }

  /** The steps that the method Writei of lab2/fs.c reports are such an operation, whatever
      other processes do between them. */
  lemma MethodIsOperation(f: Volume, ls: seq<Step>, g: Volume, acts: seq<Act>, i: int, k: nat, off: int, d: seq<byte>,
                          version: nat -> seq<byte>)
    requires DidWrite(f, ls, g, off, d) && k < |acts| && LockedAt(acts, i, k) >= 0 && Own(acts, i, LockedAt(acts, i, k), k) == ls
    requires var t := Count(acts, i, k);
             f.ip.size == |version(t)| <= MAXFILE * BSIZE && 0 <= off <= |version(t)| && version(t + 1) == Overwrite(version(t), off, d)
    ensures OperationOk(acts, i, k, version)
  {
    DidWriteIs(f, ls, g, off, d);
    WriteiIsOperation(acts, i, k, off, d, version);
  }

  // ------------------------------------------------------------------
  // filewrite
  // ------------------------------------------------------------------

  /** How many of n bytes are in the first t chunks. */
  function InChunks(t: nat, n: nat): (r: nat)
    ensures r <= n
  {
    if t * CHUNK < n then t * CHUNK else n
  }

  /** The file after the first t chunks of a write of data at off. */
  ghost function Stage(was: seq<byte>, off: int, data: seq<byte>, t: nat): seq<byte>
  {
    if 0 <= off <= |was| then Overwrite(was, off, data[..InChunks(t, |data|)]) else was
  }

  /** Operation t on the file is the writei of chunk t. */
  ghost predicate ChunkAt(acts: seq<Act>, i: int, k: nat, was: seq<byte>, off: int, data: seq<byte>)
    requires k < |acts| && LockedAt(acts, i, k) >= 0
  {
    var t := Count(acts, i, k);
    var from, to := InChunks(t, |data|), InChunks(t + 1, |data|);
    from <= to && IsWritei(acts, i, LockedAt(acts, i, k), k, off + from, data[from..to], |Stage(was, off, data, t)|)
  }

  /** The operations on file i are those of filewrite, each between begin_op and end_op. */
  ghost predicate IsFilewrite(acts: seq<Act>, i: int, was: seq<byte>, off: int, data: seq<byte>)
  {
    forall k: nat :: k < |acts| && Unlocks(acts[k], i) && LockedAt(acts, i, k) >= 0 ==> ChunkAt(acts, i, k, was, off, data)
  }

  lemma StageNext(was: seq<byte>, off: int, data: seq<byte>, t: nat, from: nat, to: nat)
    requires 0 <= off <= |was| <= MAXFILE * BSIZE && off + |data| <= MAXFILE * BSIZE
    requires from == InChunks(t, |data|) && to == InChunks(t + 1, |data|)
    ensures from <= to && |Stage(was, off, data, t)| <= MAXFILE * BSIZE && off + from <= |Stage(was, off, data, t)|
    ensures Stage(was, off, data, t + 1) == Overwrite(Stage(was, off, data, t), off + from, data[from..to])
  {
    OverwriteTwice(was, off, data[..from], data[from..to]);
    assert data[..from] + data[from..to] == data[..to];
  }

  /** A crash at any moment of a filewrite, whatever else runs: recovery finds a file system
      in order, and the old file overwritten by a whole number of chunks, namely those that
      were complete at the last commit. */
  lemma FilewriteAfterCrash(L: Lg.Layout, run: seq<Kernel>, acts: seq<Act>, i: int, k: nat,
                            was: seq<byte>, off: int, data: seq<byte>)
    requires Cr.Begins(L, run, acts) && k < |run| && 0 <= i < run[0].fs.sb.ninodes && FileOf(run[0].fs, i) == was
    requires 0 <= off <= |was| <= MAXFILE * BSIZE && off + |data| <= MAXFILE * BSIZE && IsFilewrite(acts, i, was, off, data)
    ensures Cr.Holds(L, run[k].log.disk, Cr.LastStable(run, acts, k))
    ensures var j := Cr.LastCommit(acts, k);
            var t := if j >= 0 then Count(acts, i, j) else 0;
            FileOf(Cr.LastStable(run, acts, k), i) == Overwrite(was, off, data[..InChunks(t, |data|)])
  {
    var version := FilewriteIsProgram(acts, i, was, off, data);
    WholeOperations(L, run, acts, i, k, version);
  }

  lemma FilewriteIsProgram(acts: seq<Act>, i: int, was: seq<byte>, off: int, data: seq<byte>)
    returns (version: nat -> seq<byte>)
    requires 0 <= off <= |was| <= MAXFILE * BSIZE && off + |data| <= MAXFILE * BSIZE && IsFilewrite(acts, i, was, off, data)
    ensures Program(acts, i, version) && version(0) == was
    ensures forall t: nat :: version(t) == Overwrite(was, off, data[..InChunks(t, |data|)])
  {
    version := (t: nat) => Stage(was, off, data, t);
    assert version(0) == was;
    forall j: nat | j < |acts| && Unlocks(acts[j], i) && LockedAt(acts, i, j) >= 0 ensures OperationOk(acts, i, j, version) {
      ChunkIsOperation(acts, i, j, was, off, data, version);
    }
  }

  lemma ChunkIsOperation(acts: seq<Act>, i: int, k: nat, was: seq<byte>, off: int, data: seq<byte>, version: nat -> seq<byte>)
    requires k < |acts| && LockedAt(acts, i, k) >= 0 && ChunkAt(acts, i, k, was, off, data)
    requires 0 <= off <= |was| <= MAXFILE * BSIZE && off + |data| <= MAXFILE * BSIZE
    requires var t := Count(acts, i, k);
             version(t) == Stage(was, off, data, t) && version(t + 1) == Stage(was, off, data, t + 1)
    ensures OperationOk(acts, i, k, version)
  {
    var t := Count(acts, i, k);
    var from, to := InChunks(t, |data|), InChunks(t + 1, |data|);
    StageNext(was, off, data, t, from, to);
    NextVersion(version, t, Stage(was, off, data, t), Stage(was, off, data, t + 1), off + from, data[from..to]);
    WriteiIsOperation(acts, i, k, off + from, data[from..to], version);
  }

  lemma NextVersion(version: nat -> seq<byte>, t: nat, v: seq<byte>, w: seq<byte>, off: int, d: seq<byte>)
    requires version(t) == v && version(t + 1) == w && 0 <= off <= |v| && w == Overwrite(v, off, d)
    ensures 0 <= off <= |version(t)| && version(t + 1) == Overwrite(version(t), off, d)
  {
  }
}

/** A file after a crash: the file that a whole number of its write operations left. */
module FsVersions {
  import opened Sealing
  import opened FsBytes
  import opened FsModel
  import opened FsRuns
  import opened FsKernel
  import opened FsCrash
  import Lg = LogMachine

  /** The first `size` of the bytes that a file can have, and zeros past them. */
  function Cut(c: seq<byte>, size: int): (d: seq<byte>)
    requires |c| == MAXFILE * BSIZE && 0 <= size
    ensures |d| == size
  {
    if size <= |c| then c[..size] else c + seq(size - |c|, _ => 0)
  }

  /** The bytes of file i up to its size. */
  ghost function FileIn(s: Sys, i: int): seq<byte>
    requires SysShape(s) && 0 <= i < s.sb.ninodes
  {
    Cut(BytesIn(s, i), InodeIn(s, i).size)
  }

  predicate Locks(a: Act, i: int) { a.OfFs? && a.s == Lock(i) }
  predicate Unlocks(a: Act, i: int) { a.OfFs? && (a.s == Unlock(i) || a.s == Drop(i)) }

  /** The last step before k that locked inode i, or -1. */
  function LockedAt(acts: seq<Act>, i: int, k: nat): (a: int)
    requires k <= |acts|
    ensures -1 <= a < k
  {
    if k == 0 then -1 else if Locks(acts[k - 1], i) then k - 1 else LockedAt(acts, i, k - 1)
  }

  /** How many operations on file i have been completed, of those that a crash has not
      undone. */
  ghost function Count(acts: seq<Act>, i: int, k: nat): nat
    requires k <= |acts|
  {
    if k == 0 then 0
    else if Unlocks(acts[k - 1], i) then Count(acts, i, k - 1) + 1
    else if acts[k - 1] == OfLog(Lg.Crash) then
      var j := LastCommit(acts, k - 1);
      if j >= 0 then Count(acts, i, j) else 0
    else Count(acts, i, k - 1)
  }

  // ------------------------------------------------------------------
  // One step
  // ------------------------------------------------------------------

  lemma FsOf(L: Lg.Layout, k: Kernel)
    requires InOrder(L, k)
    ensures SysOk(k.fs)
  {
    assert Seal(0);
  }

  /** A step of the file system. */
  lemma FsFollows(L: Lg.Layout, k: Kernel, p: nat, l: Step, k': Kernel)
    requires InOrder(L, k) && Follows(L, k, OfFs(p, l), k')
    ensures SysOk(k.fs) && Can(k.fs, l) && k'.fs == Apply(k.fs, l)
  {
    assert Turn(0);
  }

  lemma LogFollows(L: Lg.Layout, k: Kernel, l: Lg.Label, k': Kernel)
    requires InOrder(L, k) && Follows(L, k, OfLog(l), k')
    ensures k'.fs == if l == Lg.Crash then k.stable else k.fs
  {
    assert Turn(0);
  }

  /** A step that is not one of the holder of i leaves its lock and its file alone. */
  lemma OtherStep(s: Sys, l: Step, i: int)
    requires SysOk(s) && Can(s, l) && 0 <= i < s.sb.ninodes && (l.i != i || !Working(l))
    ensures SysShape(Apply(s, l)) && Apply(s, l).sb == s.sb && FileIn(Apply(s, l), i) == FileIn(s, i)
  {
    OtherStepTo(s, l, i, Apply(s, l));
  }

  lemma OtherStepTo(s: Sys, l: Step, i: int, s': Sys)
    requires SysOk(s) && Can(s, l) && 0 <= i < s.sb.ninodes && (l.i != i || !Working(l)) && s' == Apply(s, l)
    ensures SysShape(s') && s'.sb == s.sb && FileIn(s', i) == FileIn(s, i)
  {
    StepOk(s, l);
    assert SysShape(s') && s'.sb == s.sb;
    assert BytesIn(s', i) == BytesIn(s, i) by { ContentStep(s, l, i); }
    assert InodeIn(s', i).size == InodeIn(s, i).size by { SizeStep(s, l, i); }
    SameFile(s, s', i);
  }

  lemma SameFile(s: Sys, s': Sys, i: int)
    requires SysShape(s) && SysShape(s') && s'.sb == s.sb && 0 <= i < s.sb.ninodes
    requires BytesIn(s', i) == BytesIn(s, i) && InodeIn(s', i).size == InodeIn(s, i).size
    ensures FileIn(s', i) == FileIn(s, i)
  {
  }

  /** Who has inode i locked before and after. */
  lemma LockedStep(s: Sys, l: Step, i: int)
    requires SysOk(s) && Can(s, l)
    ensures l.i == i ==> (i in s.mem <==> !l.Lock? && !l.Claim?)
    ensures i in Apply(s, l).mem <==> if l.i == i then l.Lock? || Working(l) else i in s.mem
  {
    SysHands(s);
    MemAfter(s, l);
    assert i in Apply(s, l).mem <==> i in Apply(s, l).mem.Keys;
  }

  // ------------------------------------------------------------------
  // Whole runs
  // ------------------------------------------------------------------

  ghost function FileOf(s: Sys, i: int): seq<byte>
  {
    if SysShape(s) && 0 <= i < s.sb.ninodes then FileIn(s, i) else []
  }

  lemma FileStep(s: Sys, l: Step, i: int)
    requires SysOk(s) && Can(s, l) && 0 <= i < s.sb.ninodes
    ensures l.i != i || !Working(l) ==> FileOf(Apply(s, l), i) == FileOf(s, i)
    ensures l.i == i ==> (i in s.mem <==> !l.Lock? && !l.Claim?)
    ensures i in Apply(s, l).mem <==> if l.i == i then l.Lock? || Working(l) else i in s.mem
  {
    LockedStep(s, l, i);
    if l.i != i || !Working(l) { OtherStep(s, l, i); }
  }

  /** Version t of the file is what its first t operations make of it; inside an operation
      the version is the one that it found. */
  ghost predicate HasVersion(run: seq<Kernel>, acts: seq<Act>, i: int, k: nat, version: nat -> seq<byte>)
    requires k <= |acts| < |run|
  {
    if i in run[k].fs.mem then LockedAt(acts, i, k) >= 0 && FileOf(run[LockedAt(acts, i, k)].fs, i) == version(Count(acts, i, k))
    else FileOf(run[k].fs, i) == version(Count(acts, i, k))
  }

  /** An operation that finds version t leaves version t + 1, as writei does between ilock
      and iunlock. */
  ghost predicate WholeWrites(run: seq<Kernel>, acts: seq<Act>, i: int, version: nat -> seq<byte>)
    requires |run| == |acts| + 1
  {
    forall k: nat :: k < |acts| && Unlocks(acts[k], i) ==>
      LockedAt(acts, i, k) >= 0 && FileOf(run[LockedAt(acts, i, k)].fs, i) == version(Count(acts, i, k)) ==>
      FileOf(run[k].fs, i) == version(Count(acts, i, k) + 1)
  }

  lemma FsVersion(L: Lg.Layout, run: seq<Kernel>, acts: seq<Act>, i: int, k: nat, p: nat, l: Step, version: nat -> seq<byte>)
    requires |run| == |acts| + 1 && k < |acts| && acts[k] == OfFs(p, l) && 0 <= i
    requires SysOk(run[k].fs) && Can(run[k].fs, l) && run[k + 1].fs == Apply(run[k].fs, l) && i < run[k].fs.sb.ninodes
    requires HasVersion(run, acts, i, k, version) && WholeWrites(run, acts, i, version)
    ensures HasVersion(run, acts, i, k + 1, version)
  {
    FileStep(run[k].fs, l, i);
    if l == Unlock(i) || l == Drop(i) { assert Unlocks(acts[k], i); }
  }

  lemma CrashVersion(L: Lg.Layout, run: seq<Kernel>, acts: seq<Act>, i: int, k: nat, version: nat -> seq<byte>)
    requires |run| == |acts| + 1 && k < |acts| && acts[k] == OfLog(Lg.Crash) && run[k + 1].fs == LastStable(run, acts, k)
    requires var j := LastCommit(acts, k); HasVersion(run, acts, i, if j >= 0 then j else 0, version)
    requires LastStable(run, acts, k).mem == map[]
    ensures HasVersion(run, acts, i, k + 1, version)
  {
  }

  lemma LogVersion(run: seq<Kernel>, acts: seq<Act>, i: int, k: nat, l: Lg.Label, version: nat -> seq<byte>)
    requires |run| == |acts| + 1 && k < |acts| && acts[k] == OfLog(l) && l != Lg.Crash && run[k + 1].fs == run[k].fs
    requires HasVersion(run, acts, i, k, version)
    ensures HasVersion(run, acts, i, k + 1, version)
  {
  }

  lemma StableQuiet(L: Lg.Layout, k: Kernel)
    requires InOrder(L, k)
    ensures k.stable.mem == map[]
  {
    assert Seal(0);
  }

  lemma SameSuper(L: Lg.Layout, k: Kernel, a: Act, k': Kernel)
    requires InOrder(L, k) && Follows(L, k, a, k')
    ensures k'.fs.sb == k.fs.sb
  {
    match a
    case OfFs(p, l) =>
      FsFollows(L, k, p, l, k');
      StepOk(k.fs, l);
    case OfLog(l) =>
      LogFollows(L, k, l, k');
      assert k.stable.sb == k.fs.sb by { assert Seal(0); }
  }

  lemma {:induction false} SuperKept(L: Lg.Layout, run: seq<Kernel>, acts: seq<Act>, k: nat)
    requires Begins(L, run, acts) && k < |run|
    ensures run[k].fs.sb == run[0].fs.sb
  {
    if k > 0 {
      var j: nat := k - 1;
      SuperKept(L, run, acts, j);
      KernelRunOk(L, run, acts, j);
      SameSuper(L, run[j], acts[j], run[j + 1]);
      assert run[j + 1] == run[k];
    }
  }

  lemma VersionNext(L: Lg.Layout, run: seq<Kernel>, acts: seq<Act>, i: int, k: nat, next: nat, version: nat -> seq<byte>)
    requires Begins(L, run, acts) && next == k + 1 <= |acts| && 0 <= i < run[0].fs.sb.ninodes && WholeWrites(run, acts, i, version)
    requires HasVersion(run, acts, i, k, version)
    requires var j := LastCommit(acts, k); HasVersion(run, acts, i, if j >= 0 then j else 0, version)
    ensures HasVersion(run, acts, i, next, version)
  {
    KernelRunOk(L, run, acts, k);
    SuperKept(L, run, acts, k);
    match acts[k]
    case OfFs(p, l) =>
      FsFollows(L, run[k], p, l, run[k + 1]);
      FsVersion(L, run, acts, i, k, p, l, version);
    case OfLog(l) =>
      LogFollows(L, run[k], l, run[k + 1]);
      if l == Lg.Crash {
        StableIsPast(L, run, acts, k);
        StableQuiet(L, run[k]);
        CrashVersion(L, run, acts, i, k, version);
      } else {
        LogVersion(run, acts, i, k, l, version);
      }
  }

  lemma {:induction false} Versions(L: Lg.Layout, run: seq<Kernel>, acts: seq<Act>, i: int, k: nat, version: nat -> seq<byte>)
    requires Begins(L, run, acts) && k < |run| && 0 <= i < run[0].fs.sb.ninodes && WholeWrites(run, acts, i, version)
    requires FileOf(run[0].fs, i) == version(0)
    ensures HasVersion(run, acts, i, k, version)
  {
    if k == 0 {
      VersionZero(L, run, acts, i, version);
    } else {
      var m: nat := k - 1;
      Versions(L, run, acts, i, m, version);
      var j := LastCommit(acts, m);
      var c: nat := if j >= 0 then j else 0;
      Versions(L, run, acts, i, c, version);
      VersionNext(L, run, acts, i, m, k, version);
    }
  }

  lemma VersionZero(L: Lg.Layout, run: seq<Kernel>, acts: seq<Act>, i: int, version: nat -> seq<byte>)
    requires Begins(L, run, acts) && FileOf(run[0].fs, i) == version(0)
    ensures HasVersion(run, acts, i, 0, version)
  {
    StableQuiet(L, run[0]);
  }

  /** At every moment of every run, with crashes anywhere: the file that recovery would
      find is the one that a whole number of its operations have made, namely of those that
      were complete at the last commit. */
  lemma FileAfterCrash(L: Lg.Layout, run: seq<Kernel>, acts: seq<Act>, i: int, k: nat, version: nat -> seq<byte>)
    requires Begins(L, run, acts) && k < |run| && 0 <= i < run[0].fs.sb.ninodes && WholeWrites(run, acts, i, version)
    requires FileOf(run[0].fs, i) == version(0)
    ensures Holds(L, run[k].log.disk, LastStable(run, acts, k))
    ensures var j := LastCommit(acts, k);
            FileOf(LastStable(run, acts, k), i) == version(if j >= 0 then Count(acts, i, j) else 0)
  {
    CrashConsistent(L, run, acts, k);
    var j := LastCommit(acts, k);
    Versions(L, run, acts, i, if j >= 0 then j else 0, version);
  }

  // ------------------------------------------------------------------
  // What an operation does, from its own steps alone
  // ------------------------------------------------------------------

  predicate IsOwn(a: Act, i: int) { a.OfFs? && a.s.i == i }

  /** The bytes and the size that the steps a to k - 1 of the holder of i make. */
  ghost function OwnBytes(c: seq<byte>, acts: seq<Act>, i: int, a: nat, k: nat): (r: seq<byte>)
    requires a <= k <= |acts| && |c| == MAXFILE * BSIZE
    ensures |r| == |c|
    decreases k
  {
    if a == k then c
    else
      var d := OwnBytes(c, acts, i, a, k - 1);
      if IsOwn(acts[k - 1], i) then Spliced(d, acts[k - 1].s) else d
  }

  ghost function OwnSize(size: int, acts: seq<Act>, i: int, a: nat, k: nat): int
    requires a <= k <= |acts|
    decreases k
  {
    if a == k then size
    else if IsOwn(acts[k - 1], i) && acts[k - 1].s.SetSize? then acts[k - 1].s.size
    else OwnSize(size, acts, i, a, k - 1)
  }

  /** From step a to step k no crash comes between, and no truncation of the file. */
  ghost predicate Steady(acts: seq<Act>, i: int, a: nat, k: nat)
    requires a <= k <= |acts|
  {
    forall m :: a <= m < k ==> acts[m] != OfLog(Lg.Crash) && (IsOwn(acts[m], i) ==> !Truncates(acts[m].s))
  }

  ghost predicate Effect(s: Sys, s': Sys, acts: seq<Act>, i: int, a: nat, k: nat)
    requires a <= k <= |acts|
  {
    && SysShape(s) && SysShape(s') && 0 <= i < s.sb.ninodes && s'.sb == s.sb
    && BytesIn(s', i) == OwnBytes(BytesIn(s, i), acts, i, a, k) && InodeIn(s', i).size == OwnSize(InodeIn(s, i).size, acts, i, a, k)
  }

  lemma EffectFs(s: Sys, s': Sys, acts: seq<Act>, i: int, a: nat, k: nat, p: nat, l: Step)
    requires a <= k < |acts| && Effect(s, s', acts, i, a, k) && acts[k] == OfFs(p, l) && SysOk(s') && Can(s', l)
    requires l.i == i ==> !Truncates(l)
    ensures Effect(s, Apply(s', l), acts, i, a, k + 1)
  {
    StepOk(s', l);
    ContentStep(s', l, i);
    SizeStep(s', l, i);
  }

  /** Whatever others do in between, the operation does to its file what its own steps
      say. */
  lemma {:induction false} OwnEffect(L: Lg.Layout, run: seq<Kernel>, acts: seq<Act>, i: int, a: nat, k: nat)
    requires Begins(L, run, acts) && a <= k <= |acts| && 0 <= i < run[0].fs.sb.ninodes && Steady(acts, i, a, k)
    ensures Effect(run[a].fs, run[k].fs, acts, i, a, k)
    decreases k
  {
    if a == k {
      KernelRunOk(L, run, acts, k);
      FsOf(L, run[k]);
      SuperKept(L, run, acts, k);
    } else {
      var j: nat := k - 1;
      OwnEffect(L, run, acts, i, a, j);
      KernelRunOk(L, run, acts, j);
      EffectNext(L, run[j], run[j + 1], run[a].fs, acts, i, a, j);
      assert run[j + 1] == run[k];
    }
  }

  lemma EffectNext(L: Lg.Layout, k: Kernel, k': Kernel, s: Sys, acts: seq<Act>, i: int, a: nat, j: nat)
    requires InOrder(L, k) && a <= j < |acts| && Follows(L, k, acts[j], k') && Steady(acts, i, a, j + 1) && Effect(s, k.fs, acts, i, a, j)
    ensures Effect(s, k'.fs, acts, i, a, j + 1)
  {
    match acts[j]
    case OfFs(p, l) =>
      FsFollows(L, k, p, l, k');
      EffectFs(s, k.fs, acts, i, a, j, p, l);
    case OfLog(l) =>
      LogFollows(L, k, l, k');
  }

  /** Inside an operation there has been no crash since the inode was locked. */
  lemma {:induction false} NoCrashSince(L: Lg.Layout, run: seq<Kernel>, acts: seq<Act>, i: int, k: nat)
    requires Begins(L, run, acts) && k < |run| && 0 <= i < run[0].fs.sb.ninodes && i in run[k].fs.mem
    ensures LockedAt(acts, i, k) >= 0
    ensures forall m :: LockedAt(acts, i, k) <= m < k ==> acts[m] != OfLog(Lg.Crash)
  {
    if k == 0 {
      StableQuiet(L, run[0]);
    } else {
      var j: nat := k - 1;
      KernelRunOk(L, run, acts, j);
      SuperKept(L, run, acts, j);
      assert run[j + 1] == run[k];
      StillLocked(L, run[j], acts[j], run[j + 1], i);
      if !Locks(acts[j], i) { NoCrashSince(L, run, acts, i, j); }
    }
  }

  lemma StillLocked(L: Lg.Layout, k: Kernel, a: Act, k': Kernel, i: int)
    requires InOrder(L, k) && Follows(L, k, a, k') && i in k'.fs.mem && 0 <= i < k.fs.sb.ninodes
    ensures a != OfLog(Lg.Crash) && (Locks(a, i) || i in k.fs.mem)
  {
    match a
    case OfFs(p, l) =>
      FsFollows(L, k, p, l, k');
      LockedStep(k.fs, l, i);
    case OfLog(l) =>
      LogFollows(L, k, l, k');
      StableQuiet(L, k);
  }

  /** The steps of each operation on file i, from its ilock to its iunlock, turn version t
      into version t + 1 and do not truncate.  This is about the steps alone. */
  ghost predicate Program(acts: seq<Act>, i: int, version: nat -> seq<byte>)
  {
    forall k: nat :: k < |acts| && Unlocks(acts[k], i) && LockedAt(acts, i, k) >= 0 ==> OperationOk(acts, i, k, version)
  }

  ghost predicate OperationOk(acts: seq<Act>, i: int, k: nat, version: nat -> seq<byte>)
    requires k < |acts| && LockedAt(acts, i, k) >= 0
  {
    var a, t := LockedAt(acts, i, k), Count(acts, i, k);
    && (forall m :: a <= m < k && IsOwn(acts[m], i) ==> !Truncates(acts[m].s))
    && (forall c: seq<byte>, size: word {:trigger Cut(c, size)} :: |c| == MAXFILE * BSIZE && Cut(c, size) == version(t) ==>
          0 <= OwnSize(size, acts, i, a, k) && Cut(OwnBytes(c, acts, i, a, k), OwnSize(size, acts, i, a, k)) == version(t + 1))
  }

  lemma ProgramWrites(L: Lg.Layout, run: seq<Kernel>, acts: seq<Act>, i: int, version: nat -> seq<byte>)
    requires Begins(L, run, acts) && 0 <= i < run[0].fs.sb.ninodes && Program(acts, i, version)
    ensures WholeWrites(run, acts, i, version)
  {
    forall k: nat | k < |acts| && Unlocks(acts[k], i) && LockedAt(acts, i, k) >= 0
                    && FileOf(run[LockedAt(acts, i, k)].fs, i) == version(Count(acts, i, k))
      ensures FileOf(run[k].fs, i) == version(Count(acts, i, k) + 1)
    {
      ProgramWrite(L, run, acts, i, k, version);
    }
  }

  lemma ProgramWrite(L: Lg.Layout, run: seq<Kernel>, acts: seq<Act>, i: int, k: nat, version: nat -> seq<byte>)
    requires Begins(L, run, acts) && 0 <= i < run[0].fs.sb.ninodes && k < |acts| && Unlocks(acts[k], i)
    requires LockedAt(acts, i, k) >= 0 && OperationOk(acts, i, k, version)
    requires FileOf(run[LockedAt(acts, i, k)].fs, i) == version(Count(acts, i, k))
    ensures FileOf(run[k].fs, i) == version(Count(acts, i, k) + 1)
  {
    var a: nat := LockedAt(acts, i, k);
    UnlockerHolds(L, run, acts, i, k);
    NoCrashSince(L, run, acts, i, k);
    OwnEffect(L, run, acts, i, a, k);
    var s := run[a].fs;
    OperationEffect(s, run[k].fs, acts, i, k, version);
  }

  lemma OperationEffect(s: Sys, s': Sys, acts: seq<Act>, i: int, k: nat, version: nat -> seq<byte>)
    requires k < |acts| && LockedAt(acts, i, k) >= 0 && OperationOk(acts, i, k, version)
    requires Effect(s, s', acts, i, LockedAt(acts, i, k), k) && FileOf(s, i) == version(Count(acts, i, k))
    ensures FileOf(s', i) == version(Count(acts, i, k) + 1)
  {
    OperationCut(acts, i, k, version, BytesIn(s, i), InodeIn(s, i).size);
  }

  lemma OperationCut(acts: seq<Act>, i: int, k: nat, version: nat -> seq<byte>, c: seq<byte>, size: word)
    requires k < |acts| && LockedAt(acts, i, k) >= 0 && OperationOk(acts, i, k, version)
    requires |c| == MAXFILE * BSIZE && Cut(c, size) == version(Count(acts, i, k))
    ensures var a := LockedAt(acts, i, k);
            && 0 <= OwnSize(size, acts, i, a, k)
            && Cut(OwnBytes(c, acts, i, a, k), OwnSize(size, acts, i, a, k)) == version(Count(acts, i, k) + 1)
  {
  }

  lemma UnlockerHolds(L: Lg.Layout, run: seq<Kernel>, acts: seq<Act>, i: int, k: nat)
    requires Begins(L, run, acts) && k < |acts| && Unlocks(acts[k], i)
    ensures i in run[k].fs.mem
  {
    KernelRunOk(L, run, acts, k);
    FsFollows(L, run[k], acts[k].p, acts[k].s, run[k + 1]);
  }

  /** The same with the hypothesis on the steps of the operations, whatever else runs in
      between: after a crash anywhere, recovery finds a file system in order, and file i as
      those of its operations have left it that were complete at the last commit. */
  lemma WholeOperations(L: Lg.Layout, run: seq<Kernel>, acts: seq<Act>, i: int, k: nat, version: nat -> seq<byte>)
    requires Begins(L, run, acts) && k < |run| && 0 <= i < run[0].fs.sb.ninodes && Program(acts, i, version)
    requires FileOf(run[0].fs, i) == version(0)
    ensures Holds(L, run[k].log.disk, LastStable(run, acts, k))
    ensures var j := LastCommit(acts, k);
            FileOf(LastStable(run, acts, k), i) == version(if j >= 0 then Count(acts, i, j) else 0)
  {
    ProgramWrites(L, run, acts, i, version);
    FileAfterCrash(L, run, acts, i, k, version);
  }
}

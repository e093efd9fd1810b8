/** What recovery finds after a crash, at any moment of any run of the file system of
    lab2/fs.c on the log of lab2/log.c: a file system in order, as it was at a moment
    at which no operation was in progress. */
module FsCrash {
  import opened Sealing
  import opened FsBytes
  import opened FsModel
  import opened FsRuns
  import opened FsKernel
  import opened Runs
  import Lg = LogMachine
  import Lp = LogProofs

  // ------------------------------------------------------------------
  // Runs
  // ------------------------------------------------------------------

  /** KernelOk, locked. */
  ghost predicate InOrder(L: Lg.Layout, k: Kernel) { forall x {:trigger Seal(x)} :: Seal(x) ==> KernelOk(L, k) }

  /** One step, in which the log stays inside its region; locked. */
  ghost predicate Follows(L: Lg.Layout, k: Kernel, a: Act, k': Kernel)
  {
    forall x {:trigger Turn(x)} :: Turn(x) ==> SysOk(k.fs) && Able(L, k, a) && k' == Next(L, k, a) && Lg.Fits(L, k'.log)
  }

  ghost predicate IsKernelRun(L: Lg.Layout, run: seq<Kernel>, acts: seq<Act>)
  {
    |run| == |acts| + 1 && forall j :: 0 <= j < |acts| ==> Follows(L, run[j], acts[j], run[j + 1])
  }

  lemma KernelKept(L: Lg.Layout, k: Kernel, a: Act, k': Kernel)
    requires InOrder(L, k) && Follows(L, k, a, k')
    ensures InOrder(L, k')
  {
    assert Turn(0);
    assert KernelOk(L, k) by { assert Seal(0); }
    KernelStep(L, k, a);
  }

  /** Every state of every run is in order. */
  lemma KernelRunOk(L: Lg.Layout, run: seq<Kernel>, acts: seq<Act>, k: nat)
    requires IsKernelRun(L, run, acts) && InOrder(L, run[0]) && k < |run|
    ensures InOrder(L, run[k])
  {
    forall j | 0 <= j < |acts| && InOrder(L, run[j]) && Follows(L, run[j], acts[j], run[j + 1]) ensures InOrder(L, run[j + 1]) {
      KernelKept(L, run[j], acts[j], run[j + 1]);
    }
    Throughout((s, a, s') => Follows(L, s, a, s'), s => InOrder(L, s), run, acts, k);
  }

  lemma StableNext(L: Lg.Layout, k: Kernel, a: Act, k': Kernel)
    requires InOrder(L, k) && Follows(L, k, a, k')
    ensures k'.stable == (if a == OfLog(Lg.HeadWrite) then k.fs else k.stable)
  {
    assert Turn(0);
  }

  /** The last step before k that committed, or -1. */
  ghost function LastCommit(acts: seq<Act>, k: nat): (j: int)
    requires k <= |acts|
    ensures -1 <= j < k && (j >= 0 ==> acts[j] == OfLog(Lg.HeadWrite))
    ensures forall m: nat :: j < m < k ==> acts[m] != OfLog(Lg.HeadWrite)
  {
    if k == 0 then -1 else if acts[k - 1] == OfLog(Lg.HeadWrite) then k - 1 else LastCommit(acts, k - 1)
  }

  ghost predicate Begins(L: Lg.Layout, run: seq<Kernel>, acts: seq<Act>)
  {
    IsKernelRun(L, run, acts) && InOrder(L, run[0]) && run[0].fs == run[0].stable
  }

  /** The file system at the last commit before step k, or at the start. */
  ghost function LastStable(run: seq<Kernel>, acts: seq<Act>, k: nat): Sys
    requires k <= |acts| < |run|
  {
    if LastCommit(acts, k) >= 0 then run[LastCommit(acts, k)].fs else run[0].fs
  }

  /** The file system that recovery finds is the one of the last commit. */
  lemma {:induction false} StableIsPast(L: Lg.Layout, run: seq<Kernel>, acts: seq<Act>, k: nat)
    requires Begins(L, run, acts) && k < |run|
    ensures run[k].stable == LastStable(run, acts, k)
  {
    if k > 0 {
      var j: nat := k - 1;
      StableIsPast(L, run, acts, j);
      KernelRunOk(L, run, acts, j);
      StableNext(L, run[j], acts[j], run[j + 1]);
      assert run[j + 1] == run[k];
    }
  }

  /** The disk under its log holds, block for block, a file system with nothing locked and
      nothing in hand, in which marks are references and no block is shared. */
  ghost predicate Holds(L: Lg.Layout, d: Lg.Disk, s: Sys)
  {
    && Lg.DiskOk(L, d) && SysOk(s) && s.mem == map[] && s.loose == map[]
    && |s.blocks| == L.total && forall b :: L.IsHome(b) ==> b in Lg.Image(L, d) && Lg.Image(L, d)[b] == AsWords(s.blocks[b])
  }

  /** Crash consistency: at every moment of every run, what recovery would find is a file
      system in order, namely the one of the last commit, when no operation was in
      progress. */
  lemma CrashConsistent(L: Lg.Layout, run: seq<Kernel>, acts: seq<Act>, k: nat)
    requires Begins(L, run, acts) && k < |run|
    ensures Holds(L, run[k].log.disk, LastStable(run, acts, k))
  {
    KernelRunOk(L, run, acts, k);
    StableIsPast(L, run, acts, k);
    StableHolds(L, run[k]);
  }

  lemma StableHolds(L: Lg.Layout, k: Kernel)
    requires InOrder(L, k)
    ensures Holds(L, k.log.disk, k.stable)
  {
    assert Seal(0);
    assert HandsOk(k.stable);
    assert k.stable.loose == map[];
  }

  /** After a crash anywhere and recovery, a free inode has no bytes and owns no block. */
  lemma FreeAfterCrash(L: Lg.Layout, run: seq<Kernel>, acts: seq<Act>, k: nat, i: int, b: int)
    requires Begins(L, run, acts) && k < |run|
    requires var s := LastStable(run, acts, k); SysShape(s) && 0 <= i < s.sb.ninodes && OnDisk(s, i).typ == 0
    ensures var s := LastStable(run, acts, k);
            && Holds(L, run[k].log.disk, s) && OnDisk(s, i).size == 0
            && (forall m :: 0 <= m < SLOTS ==> RefOf(s.blocks, OnDisk(s, i), m) == 0) && (b in s.owner ==> s.owner[b].0 != i)
  {
    CrashConsistent(L, run, acts, k);
    FreeOnDisk(LastStable(run, acts, k), i, b);
  }

  lemma FreeOnDisk(s: Sys, i: int, b: int)
    requires SysOk(s) && s.mem == map[] && 0 <= i < s.sb.ninodes && OnDisk(s, i).typ == 0
    ensures OnDisk(s, i).size == 0 && (forall m :: 0 <= m < SLOTS ==> RefOf(s.blocks, OnDisk(s, i), m) == 0)
    ensures b in s.owner ==> s.owner[b].0 != i
  {
    FreeIn(s, i, b);
    assert forall m :: 0 <= m < SLOTS ==> RefOf(s.blocks, OnDisk(s, i), m) == RefIn(s, i, m);
  }

  /** The machine starts from a recovered log and a file system with nothing locked. */
  lemma StartOk(L: Lg.Layout, d: Lg.Disk, n: nat, s: Sys)
    requires Lg.DiskOk(L, d) && Lg.HeadCount(d[L.start]) == 0 && SysOk(s) && s.mem == map[] && Placed(L, s.sb)
    requires forall b :: L.IsHome(b) ==> d[b] == AsWords(s.blocks[b])
    ensures KernelOk(L, Kernel(Lg.State(d, [], map[], Lg.Running, Lg.AllIdle(n)), s, s, map[]))
  {
    var log := Lg.State(d, [], map[], Lg.Running, Lg.AllIdle(n));
    Lg.NoneOutstanding(log.ops);
    Lg.ReservedBounds(log.ops);
    assert Lp.Inv(L, log);
    Lg.ImageAt(L, d);
    assert Lg.Image(L, d) + map[] == Lg.Image(L, d);
  }
}

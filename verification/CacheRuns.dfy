/** Whole runs of the buffer cache of lab2/bio.c: what the reference count counts, and
    that a buffer stays with its block while anyone has it. */
module CacheRuns {
  import opened CacheModel
  import opened CacheProofs

  /** What process p does to buffer b: bget finds it; p gets its sleep lock, reads, writes,
      changes or dirties it, and gives the sleep lock up; the rest of brelse.  Others may
      come in between. */
  datatype Call =
    | Get(p: nat, blockno: int, b: int)
    | Acquire(p: nat, b: int)
    | Fetch(p: nat, b: int)
    | Store(p: nat, b: int)
    | Modify(p: nat, b: int, data: Block)
    | Taint(p: nat, b: int)
    | Unlock(p: nat, b: int)
    | Release(p: nat, b: int)

  /** The call takes cache c to c'. */
  ghost predicate CallTo(c: Cache, l: Call, c': Cache)
  {
    && 0 <= l.b < |c.bufs| == |c.stamp|
    && match l
       case Get(_, blockno, b) => GotBuffer(c, blockno, b, c')
       case Acquire(_, b) => c' == SetLock(c, b, true)
       case Fetch(_, b) => 0 <= c.bufs[b].blockno < |c.disk| && c' == Fill(c, b)
       case Store(_, b) => 0 <= c.bufs[b].blockno < |c.disk| && c' == Flush(c, b)
       case Modify(_, b, data) => 0 <= c.bufs[b].blockno < |c.view| && c' == Change(c, b, data)
       case Taint(_, b) => c' == MarkDirty(c, b)
       case Unlock(_, b) => c' == SetLock(c, b, false)
       case Release(_, b) =>
         |c'.bufs| == |c.bufs| && c'.bufs[b].locked == c.bufs[b].locked && ReleasedTo(c, b, SetLock(c', b, false))
  }

  /** brelse is these two calls, when nobody comes in between. */
  lemma BrelseIsTwo(c: Cache, p: nat, b: int, c': Cache)
    requires 0 <= b < |c.bufs| == |c.stamp| && ReleasedTo(c, b, c')
    ensures CallTo(c, Unlock(p, b), SetLock(c, b, false)) && CallTo(SetLock(c, b, false), Release(p, b), c')
  {
    assert SetLock(c', b, false) == c';
  }

  /** Who has buffer b after the first k calls: one entry for each bget that returned it,
      less one for each brelse. */
  function Users(calls: seq<Call>, b: int, k: nat): multiset<nat>
    requires k <= |calls|
  {
    if k == 0 then multiset{}
    else if calls[k - 1].b == b && calls[k - 1].Get? then Users(calls, b, k - 1) + multiset{calls[k - 1].p}
    else if calls[k - 1].b == b && calls[k - 1].Release? then Users(calls, b, k - 1) - multiset{calls[k - 1].p}
    else Users(calls, b, k - 1)
  }

  ghost predicate CallAt(run: seq<Cache>, calls: seq<Call>, k: nat)
    requires k < |calls| < |run|
  {
    CallTo(run[k], calls[k], run[k + 1]) && (calls[k].Release? ==> calls[k].p in Users(calls, calls[k].b, k))
  }

  /** A run of calls from a cache where nothing is referenced and no block is held twice;
      a buffer is released by a process that has it. */
  ghost predicate IsRun(run: seq<Cache>, calls: seq<Call>)
  {
    && |run| == |calls| + 1 && Unique(run[0].bufs)
    && (forall b :: 0 <= b < |run[0].bufs| ==> run[0].bufs[b].refcnt == 0)
    && (forall k: nat :: k < |calls| ==> CallAt(run, calls, k))
  }

  /** What one call does to the count and to the block of a buffer a. */
  lemma CallEffect(c: Cache, l: Call, c': Cache, a: int)
    requires CallTo(c, l, c') && 0 <= a < |c.bufs|
    ensures |c'.bufs| == |c.bufs|
    ensures c'.bufs[a].refcnt == c.bufs[a].refcnt
      || (a == l.b && l.Get? && c'.bufs[a].refcnt == c.bufs[a].refcnt + 1)
      || (a == l.b && l.Release? && c'.bufs[a].refcnt == c.bufs[a].refcnt - 1)
    ensures a == l.b && (l.Get? || l.Release?) ==> c'.bufs[a].refcnt != c.bufs[a].refcnt
    ensures c.bufs[a].refcnt != 0 || !l.Get? || a != l.b ==> c'.bufs[a].dev == c.bufs[a].dev && c'.bufs[a].blockno == c.bufs[a].blockno
  {
    if l.Release? { assert SetLock(c', l.b, false).bufs[a] == Unrefer(c, l.b).bufs[a]; }
  }

  lemma CallUnique(c: Cache, l: Call, c': Cache)
    requires CallTo(c, l, c') && Unique(c.bufs)
    ensures Unique(c'.bufs)
  {
    if !l.Get? {
      forall a | 0 <= a < |c.bufs| ensures |c'.bufs| == |c.bufs| && c'.bufs[a].dev == c.bufs[a].dev && c'.bufs[a].blockno == c.bufs[a].blockno {
        CallEffect(c, l, c', a);
      }
    }
  }

  /** The count of a buffer is the number of its users, in every state of every run. */
  lemma {:induction false} RefcntCounts(run: seq<Cache>, calls: seq<Call>, k: nat, b: int)
    requires IsRun(run, calls) && k <= |calls| && 0 <= b < |run[0].bufs|
    ensures |run[k].bufs| == |run[0].bufs| && run[k].bufs[b].refcnt == |Users(calls, b, k)|
  {
    if k > 0 {
      var j: nat := k - 1;
      RefcntCounts(run, calls, j, b);
      assert CallAt(run, calls, j);
      CallEffect(run[j], calls[j], run[j + 1], b);
      assert run[j + 1] == run[k];
    }
  }

  lemma {:induction false} StaysUnique(run: seq<Cache>, calls: seq<Call>, k: nat)
    requires IsRun(run, calls) && k <= |calls|
    ensures Unique(run[k].bufs)
  {
    if k > 0 {
      var j: nat := k - 1;
      StaysUnique(run, calls, j);
      assert CallAt(run, calls, j);
      CallUnique(run[j], calls[j], run[j + 1]);
      assert run[j + 1] == run[k];
    }
  }

  lemma {:induction false} BufCount(run: seq<Cache>, calls: seq<Call>, k: nat)
    requires IsRun(run, calls) && k <= |calls|
    ensures |run[k].bufs| == |run[0].bufs|
  {
    if k > 0 {
      var j: nat := k - 1;
      BufCount(run, calls, j);
      assert CallAt(run, calls, j);
      assert run[j + 1] == run[k];
    }
  }

  /** A buffer that someone has keeps its block in the next call. */
  lemma KeptOnce(run: seq<Cache>, calls: seq<Call>, k: nat, b: int, p: nat)
    requires IsRun(run, calls) && k < |calls| && 0 <= b < |run[0].bufs| && p in Users(calls, b, k)
    ensures |run[k].bufs| == |run[k + 1].bufs| == |run[0].bufs| && run[k].bufs[b].refcnt > 0
    ensures run[k + 1].bufs[b].dev == run[k].bufs[b].dev && run[k + 1].bufs[b].blockno == run[k].bufs[b].blockno
  {
    RefcntCounts(run, calls, k, b);
    assert CallAt(run, calls, k);
    CallEffect(run[k], calls[k], run[k + 1], b);
  }

  /** From its bget to its last brelse a process keeps a buffer that holds the block it
      asked for: nothing recycles it in between, whatever others do. */
  lemma {:induction false} HeldIsKept(run: seq<Cache>, calls: seq<Call>, j: nat, k: nat)
    requires IsRun(run, calls) && j < k <= |calls| && calls[j].Get?
    requires forall m :: j < m <= k ==> calls[j].p in Users(calls, calls[j].b, m)
    ensures 0 <= calls[j].b < |run[k].bufs| == |run[0].bufs|
    ensures Holds(run[k].bufs[calls[j].b], calls[j].blockno)
  {
    var i: nat := k - 1;
    if i == j {
      assert CallAt(run, calls, j);
      BufCount(run, calls, j);
    } else {
      HeldIsKept(run, calls, j, i);
      KeptOnce(run, calls, i, calls[j].b, calls[j].p);
    }
    assert run[i + 1] == run[k];
  }

  /** While a process has the buffer of a block, every bget for that block returns that
      buffer, so that all users of a block meet at one sleep lock. */
  lemma SameBuffer(run: seq<Cache>, calls: seq<Call>, j: nat, k: nat)
    requires IsRun(run, calls) && j < k < |calls| && calls[j].Get? && calls[k].Get?
    requires forall m :: j < m <= k ==> calls[j].p in Users(calls, calls[j].b, m)
    ensures calls[k].blockno == calls[j].blockno <==> calls[k].b == calls[j].b
  {
    HeldIsKept(run, calls, j, k);
    KeptOnce(run, calls, k, calls[j].b, calls[j].p);
    StaysUnique(run, calls, k);
    assert CallAt(run, calls, k);
    assert Holds(run[k].bufs[calls[j].b], calls[j].blockno);
  }

  /** A buffer changes its block only in a bget that finds it without users. */
  lemma RecycledOnlyUnused(run: seq<Cache>, calls: seq<Call>, k: nat, b: int)
    requires IsRun(run, calls) && k < |calls| && 0 <= b < |run[0].bufs|
    ensures |run[k].bufs| == |run[k + 1].bufs| == |run[0].bufs|
    ensures run[k + 1].bufs[b].blockno != run[k].bufs[b].blockno
        ==> calls[k].Get? && calls[k].b == b && Users(calls, b, k) == multiset{}
  {
    RefcntCounts(run, calls, k, b);
    assert CallAt(run, calls, k);
    CallEffect(run[k], calls[k], run[k + 1], b);
  }
}

/** lab2/log.c as it is written: loops over the in-memory header, each with one
    disk write an iteration.  Every method is proved to be a run of the step
    machine, so what holds after each machine step holds between any two disk
    writes of the method. */
module Log {
  import opened Sealing
  import opened LogMachine
  import opened LogProofs
  import opened LogRegion

  /** Locked: a proof that needs the invariant states Key(0), which is always true. */
  ghost predicate Sound(L: Layout, s: State)
  {
    DiskOk(L, s.disk) && forall x {:trigger Key(x)} :: Key(x) ==> Inv(L, s)
  }

  function Repeat(l: Label, k: nat): seq<Label> { seq(k, _ => l) }

  /** The disk writes of commit, in order. */
  function CommitLabels(n: nat): seq<Label>
  {
    Repeat(LogBlockWrite, n) + [HeadWrite] + Repeat(InstallWrite, n) + [HeadClear]
  }

  function RecoverLabels(n: nat): seq<Label>
  {
    [ReadHead] + Repeat(RecoverWrite, n) + [RecoverClear]
  }

  /** Where a loop that repeats label l stands after k iterations from s. */
  ghost predicate LoopAt(L: Layout, s: State, l: Label, k: nat, t: State)
  {
    Legal(L, s, Repeat(l, k)) && After(L, s, Repeat(l, k)) == t
  }

  lemma LoopStep(L: Layout, s: State, l: Label, k: nat, t: State)
    requires LoopAt(L, s, l, k, t) && Enabled(L, t, l)
    ensures LoopAt(L, s, l, k + 1, Apply(L, t, l))
  {
    OneMore(L, s, Repeat(l, k), l);
    assert Repeat(l, k) + [l] == Repeat(l, k + 1);
  }

  /** The facts a copying loop needs about block number `tail` of its list. */
  predicate CopyOk(L: Layout, s: State, tail: nat)
  {
    && tail < |s.lh| && |s.disk| == L.total
    && Slot(L, tail) < L.total && L.InLog(Slot(L, tail)) && L.IsHome(s.lh[tail])
    && Slot(L, tail) !in s.cache
  }

  /** The labels lead from s to t. */
  ghost predicate RunOf(L: Layout, s: State, ls: seq<Label>, t: State)
  {
    Legal(L, s, ls) && After(L, s, ls) == t
  }

  lemma RunThen(L: Layout, s: State, a: seq<Label>, t: State, b: seq<Label>, u: State)
    requires RunOf(L, s, a, t) && RunOf(L, t, b, u)
    ensures RunOf(L, s, a + b, u)
  {
    LegalConcat(L, s, a, b);
  }

  lemma StepRun(L: Layout, s: State, l: Label)
    requires Enabled(L, s, l)
    ensures RunOf(L, s, [l], Apply(L, s, l))
  {
    OneMore(L, s, [], l);
    assert [] + [l] == [l];
  }

  /** The four stages of commit, in sequence. */
  lemma CommitRun(L: Layout, s0: State, n: nat, s1: State, s2: State, s3: State)
    requires LoopAt(L, s0, LogBlockWrite, n, s1) && Enabled(L, s1, HeadWrite) && s2 == Apply(L, s1, HeadWrite)
    requires LoopAt(L, s2, InstallWrite, n, s3) && Enabled(L, s3, HeadClear)
    ensures RunOf(L, s0, CommitLabels(n), Apply(L, s3, HeadClear))
  {
    StepRun(L, s1, HeadWrite);
    RunThen(L, s0, Repeat(LogBlockWrite, n), s1, [HeadWrite], s2);
    RunThen(L, s0, Repeat(LogBlockWrite, n) + [HeadWrite], s2, Repeat(InstallWrite, n), s3);
    StepRun(L, s3, HeadClear);
    RunThen(L, s0, Repeat(LogBlockWrite, n) + [HeadWrite] + Repeat(InstallWrite, n), s3,
            [HeadClear], Apply(L, s3, HeadClear));
  }

  lemma RecoverRun(L: Layout, s0: State, n: nat, s1: State, s2: State)
    requires Enabled(L, s0, ReadHead) && s1 == Apply(L, s0, ReadHead)
    requires LoopAt(L, s1, RecoverWrite, n, s2) && Enabled(L, s2, RecoverClear)
    ensures RunOf(L, s0, RecoverLabels(n), Apply(L, s2, RecoverClear))
  {
    StepRun(L, s0, ReadHead);
    RunThen(L, s0, [ReadHead], s1, Repeat(RecoverWrite, n), s2);
    StepRun(L, s2, RecoverClear);
    RunThen(L, s0, [ReadHead] + Repeat(RecoverWrite, n), s2, [RecoverClear], Apply(L, s2, RecoverClear));
  }

  /** Without a log_write the list of logged blocks always fits. */
  lemma {:induction false} NoWritesFit(L: Layout, s: State, ls: seq<Label>)
    requires Inv(L, s) && Legal(L, s, ls) && forall i :: 0 <= i < |ls| ==> !ls[i].Write?
    ensures AllFit(L, s, ls)
    decreases |ls|
  {
    if ls != [] {
      Refines(L, s, ls[0]);
      NoWritesFit(L, Apply(L, s, ls[0]), ls[1..]);
    }
  }

  lemma {:induction false} CommittedNone(pending: map<int, Block>, ls: seq<Label>)
    requires HeadWrite !in ls
    ensures Committed(pending, ls) == []
    decreases |ls|
  {
    if ls != [] {
      assert ls[0] != HeadWrite;
      CommittedNone(if ls[0].Write? then pending[ls[0].b := ls[0].v] else if ls[0].Crash? then map[] else pending, ls[1..]);
    }
  }

  lemma {:induction false} CommittedAfterLog(pending: map<int, Block>, n: nat, rest: seq<Label>)
    ensures Committed(pending, Repeat(LogBlockWrite, n) + rest) == Committed(pending, rest)
  {
    var ls := Repeat(LogBlockWrite, n) + rest;
    if n == 0 {
      assert ls == rest;
    } else {
      assert ls[1..] == Repeat(LogBlockWrite, n - 1) + rest;
      CommittedAfterLog(pending, n - 1, rest);
    }
  }

  /** Without a commit point on the way, the image stays. */
  lemma ImageKept(L: Layout, s: State, ls: seq<Label>)
    requires Inv(L, s) && Legal(L, s, ls)
    requires forall i :: 0 <= i < |ls| ==> !ls[i].Write? && ls[i] != HeadWrite
    ensures DiskOk(L, After(L, s, ls).disk) && Image(L, After(L, s, ls).disk) == Image(L, s.disk)
  {
    NoWritesFit(L, s, ls);
    Durable(L, s, ls);
    CommittedNone(Abstract(L, s).pending, ls);
  }

  lemma HomeIsImage(L: Layout, d: Disk)
    requires DiskOk(L, d) && HeadCount(d[L.start]) == 0
    ensures Home(L, d) == Image(L, d)
  {
  }

  lemma {:induction false} LegalPrefix(L: Layout, s: State, ls: seq<Label>, k: nat)
    requires Legal(L, s, ls) && k <= |ls|
    ensures Legal(L, s, ls[..k])
    decreases |ls|
  {
    if k > 0 {
      assert ls[..k][1..] == ls[1..][..k - 1];
      LegalPrefix(L, Apply(L, s, ls[0]), ls[1..], k - 1);
    }
  }

  /** The commit point is write number n of commit, counting from 0. */
  lemma CommittedByPrefix(pending: map<int, Block>, n: nat, k: nat)
    requires k <= 2 * n + 2
    ensures Committed(pending, CommitLabels(n)[..k]) == if k <= n then [] else [pending]
  {
    var ls := CommitLabels(n);
    if k <= n {
      assert forall i :: 0 <= i < k ==> ls[..k][i] == LogBlockWrite;
      CommittedNone(pending, ls[..k]);
    } else {
      var rest := ls[n + 1..k];
      assert forall i :: 0 <= i < |rest| ==> rest[i] != HeadWrite;
      assert ls[..k] == Repeat(LogBlockWrite, n) + ([HeadWrite] + rest);
      CommittedAfterLog(pending, n, [HeadWrite] + rest);
      assert ([HeadWrite] + rest)[1..] == rest;
      CommittedNone(map[], rest);
    }
  }

  /** Crash atomicity: stop commit after any number k of its 2n + 2 disk writes;
      recovery then yields the old image when the header was not yet written
      (k <= n), and otherwise the old image under the whole transaction. */
  lemma CrashAtomic(L: Layout, s: State, n: nat, k: nat)
    requires Inv(L, s) && s.phase == WritingLog(0) && Legal(L, s, CommitLabels(n)) && k <= 2 * n + 2
    ensures Legal(L, s, CommitLabels(n)[..k])
    ensures var t := After(L, s, CommitLabels(n)[..k]);
            && DiskOk(L, t.disk)
            && Image(L, t.disk) == if k <= n then Image(L, s.disk) else Image(L, s.disk) + s.cache
  {
    var ls := CommitLabels(n)[..k];
    assert forall i :: 0 <= i < |CommitLabels(n)| ==> !CommitLabels(n)[i].Write?;
    assert forall i :: 0 <= i < |ls| ==> ls[i] == CommitLabels(n)[i];
    LegalPrefix(L, s, CommitLabels(n), k);
    NoWritesFit(L, s, ls);
    Durable(L, s, ls);
    CommittedByPrefix(s.cache, n, k);
  }

  lemma LoopInv(L: Layout, s: State, l: Label, k: nat, t: State)
    requires Sound(L, s) && LoopAt(L, s, l, k, t) && !l.Write?
    ensures Sound(L, t)
  {
    assert Key(0);
    NoWritesFit(L, s, Repeat(l, k));
    RunRefines(L, s, Repeat(l, k));
  }

  lemma WriteLogReady(L: Layout, s: State, k: nat, t: State)
    requires Sound(L, s) && LoopAt(L, s, LogBlockWrite, k, t) && t.phase == WritingLog(k) && k < |t.lh|
    ensures CopyOk(L, t, k)
    ensures LoopAt(L, s, LogBlockWrite, k + 1,
                   t.(disk := t.disk[Slot(L, k) := Read(t, t.lh[k])], phase := WritingLog(k + 1)))
  {
    assert Key(0);
    LoopInv(L, s, LogBlockWrite, k, t);
    LoopStep(L, s, LogBlockWrite, k, t);
  }

  function Next(p: Phase): Phase
    requires p.Installing? || p.Recovering?
  {
    if p.Installing? then Installing(p.tail + 1) else Recovering(p.tail + 1)
  }

  function InstallLabel(p: Phase): Label { if p.Installing? then InstallWrite else RecoverWrite }

  lemma InstallReady(L: Layout, s: State, l: Label, k: nat, t: State)
    requires Sound(L, s) && LoopAt(L, s, l, k, t) && k < |t.lh|
    requires t.phase == Installing(k) || t.phase == Recovering(k)
    requires l == InstallLabel(t.phase)
    ensures CopyOk(L, t, k)
    ensures LoopAt(L, s, l, k + 1,
                   t.(disk := InstallOne(L, t.disk, t.lh[k], k), cache := t.cache - {t.lh[k]}, phase := Next(t.phase)))
  {
    assert Key(0);
    LoopInv(L, s, l, k, t);
    LoopStep(L, s, l, k, t);
    assert l == RecoverWrite ==> t.cache == map[] == t.cache - {t.lh[k]};
  }

  /** After the log blocks, the header can be written: the commit point. */
  lemma HeadReady(L: Layout, s: State, n: nat, t: State)
    requires Sound(L, s) && LoopAt(L, s, LogBlockWrite, n, t) && t.phase == WritingLog(|t.lh|)
    ensures Enabled(L, t, HeadWrite) && L.start !in t.cache && Sound(L, Apply(L, t, HeadWrite))
  {
    assert Key(0);
    LoopInv(L, s, LogBlockWrite, n, t);
    Refines(L, t, HeadWrite);
  }

  lemma ClearReady(L: Layout, s: State, n: nat, t: State)
    requires Sound(L, s) && LoopAt(L, s, InstallWrite, n, t) && t.phase == Installing(|t.lh|)
    ensures Enabled(L, t, HeadClear) && L.start !in t.cache
    ensures var u := Apply(L, t, HeadClear);
            Sound(L, u) && Home(L, u.disk) == Image(L, u.disk) && HeadCount(u.disk[L.start]) == 0
  {
    assert Key(0);
    LoopInv(L, s, InstallWrite, n, t);
    Refines(L, t, HeadClear);
  }

  lemma ReadHeadReady(L: Layout, s: State)
    requires Sound(L, s) && s.phase == Off
    ensures Enabled(L, s, ReadHead) && s.cache == map[] && Sound(L, Apply(L, s, ReadHead))
  {
    assert Key(0);
    Refines(L, s, ReadHead);
  }

  lemma RecoverClearReady(L: Layout, s: State, n: nat, t: State)
    requires Sound(L, s) && LoopAt(L, s, RecoverWrite, n, t) && t.phase == Recovering(|t.lh|)
    ensures Enabled(L, t, RecoverClear) && t.cache == map[]
    ensures var u := Apply(L, t, RecoverClear);
            Sound(L, u) && Home(L, u.disk) == Image(L, u.disk)
  {
    assert Key(0);
    LoopInv(L, s, RecoverWrite, n, t);
    Refines(L, t, RecoverClear);
  }

  lemma RecoverImage(L: Layout, s: State, n: nat, t: State)
    requires Sound(L, s) && RunOf(L, s, RecoverLabels(n), t)
    ensures DiskOk(L, t.disk) && Image(L, t.disk) == Image(L, s.disk)
  {
    assert Key(0);
    assert forall i :: 0 <= i < |RecoverLabels(n)| ==> !RecoverLabels(n)[i].Write? && RecoverLabels(n)[i] != HeadWrite;
    ImageKept(L, s, RecoverLabels(n));
  }

  /** With no block logged there is nothing to commit. */
  lemma NothingToCommit(L: Layout, s: State)
    requires Sound(L, s) && s.phase == Finishing
    ensures Home(L, s.disk) == Image(L, s.disk) + s.cache
  {
    assert Key(0);
    HomeIsImage(L, s.disk);
  }

  lemma BeginSound(L: Layout, s: State, p: nat)
    requires Sound(L, s) && Enabled(L, s, Begin(p))
    ensures Sound(L, Apply(L, s, Begin(p))) && Outstanding(Apply(L, s, Begin(p)).ops) == Outstanding(s.ops) + 1
  {
    assert Key(0);
    BeginRefines(L, s, p);
    ReservedUpdate(s.ops, p, Active({}, false));
  }

  /** Only while the log is running are there operations. */
  lemma ActiveRuns(L: Layout, s: State, p: nat)
    requires Sound(L, s) && p < |s.ops| && s.ops[p].Active?
    ensures s.phase == Running
  {
    assert Key(0);
  }

  lemma EndSound(L: Layout, s: State, p: nat)
    requires Sound(L, s) && Enabled(L, s, End(p))
    ensures Sound(L, Apply(L, s, End(p))) && Outstanding(s.ops[p := Idle]) == Outstanding(s.ops) - 1
  {
    assert Key(0);
    EndRefines(L, s, p);
    ReservedUpdate(s.ops, p, Idle);
  }

  lemma FinishSound(L: Layout, s: State)
    requires Sound(L, s) && s.phase == Finishing
    ensures Sound(L, Apply(L, s, Finish)) && s.lh == [] && s.cache == map[]
  {
    assert Key(0);
    Refines(L, s, Finish);
  }

  lemma WholeCommit(n: nat)
    ensures |CommitLabels(n)| == 2 * n + 2 && CommitLabels(n)[..2 * n + 2] == CommitLabels(n)
  {
  }

  /** A whole commit moves the transaction to the home blocks. */
  lemma CommitImage(L: Layout, s: State, n: nat, t: State)
    requires Sound(L, s) && s.phase == WritingLog(0) && RunOf(L, s, CommitLabels(n), t)
    ensures DiskOk(L, t.disk) && Image(L, t.disk) == Image(L, s.disk) + s.cache
  {
    WholeCommit(n);
    assert Key(0);
    CrashAtomic(L, s, n, 2 * n + 2);
  }

  function Logged(s: State, p: nat, b: int, v: Block): State
    requires p < |s.ops| && s.ops[p].Active?
  {
    State(s.disk, Append(s.lh, b), s.cache[b := v], s.phase, s.ops[p := Active(s.ops[p].blocks + {b}, false)])
  }

  /** The test and the append of log_write, with nothing in between. */
  lemma TestAndAppend(L: Layout, s: State, p: nat, b: int, v: Block)
    requires Sound(L, s) && s.phase == Running && p < |s.ops| && s.ops[p].Active? && RoomToLog(L, s)
    requires L.IsHome(b) && |s.ops[p].blocks + {b}| <= MAXOPBLOCKS
    ensures Sound(L, Logged(s, p, b, v)) && Outstanding(Logged(s, p, b, v).ops) == Outstanding(s.ops)
    ensures Abstract(L, Logged(s, p, b, v)) == StoreStep(Abstract(L, s), Write(p, b, v))
  {
    assert Key(0);
    CheckRefines(L, s, p);
    var s1 := Apply(L, s, Check(p));
    WriteRefines(L, s1, p, b, v);
    ReservedUpdate(s.ops, p, Active(s.ops[p].blocks + {b}, false));
    assert Apply(L, s1, Write(p, b, v)) == Logged(s, p, b, v);
  }

  class Log {
    const L: Layout
    var disk: Disk
    var cache: map<int, Block>
    var n: int
    const block: array<int>
    var outstanding: int
    var committing: bool
    ghost var phase: Phase
    ghost var ops: seq<Op>

    ghost function S(): State
      requires 0 <= n <= block.Length
      reads this, block
    {
      State(disk, block[..n], cache, phase, ops)
    }

    /** What the code relies on between two statements. */
    ghost predicate Shape()
      reads this, block
    {
      block.Length == LOGSIZE && 0 <= n <= LOGSIZE && Sound(L, S())
    }

    method Bread(b: int) returns (data: Block)
      requires 0 <= b < |disk|
      ensures data == if b in cache then cache[b] else disk[b]
    {
      if b in cache { data := cache[b]; } else { data := disk[b]; }
    }

    /** One block to disk; its buffer is clean afterwards. */
    method Bwrite(b: int, data: Block)
      requires 0 <= b < |disk|
      modifies this`disk, this`cache
      ensures disk == old(disk)[b := data] && cache == old(cache) - {b}
    {
      disk := disk[b := data];
      cache := cache - {b};
    }

    method CopyToLog(tail: nat)
      requires 0 <= n <= block.Length && CopyOk(L, S(), tail)
      modifies this`disk, this`cache
      ensures disk == old(disk)[Slot(L, tail) := old(Read(S(), block[tail]))]
      ensures cache == old(cache)
    {
      var from := Bread(block[tail]);
      Bwrite(L.start + tail + 1, from);
      assert cache == old(cache);
    }

    method WriteLog()
      requires Shape() && phase == WritingLog(0)
      modifies this`disk, this`cache, this`phase
      ensures LoopAt(L, old(S()), LogBlockWrite, n, S()) && phase == WritingLog(n)
    {
      ghost var s0 := S();
      var tail := 0;
      while tail < n
        invariant 0 <= tail <= n && phase == WritingLog(tail)
        invariant LoopAt(L, s0, LogBlockWrite, tail, S())
      {
        WriteLogReady(L, s0, tail, S());
        CopyToLog(tail);
        phase := WritingLog(tail + 1);
        tail := tail + 1;
      }
    }

    method CopyHome(tail: nat)
      requires 0 <= n <= block.Length && CopyOk(L, S(), tail)
      modifies this`disk, this`cache
      ensures disk == InstallOne(L, old(disk), block[tail], tail)
      ensures cache == old(cache) - {block[tail]}
    {
      var from := Bread(L.start + tail + 1);
      Bwrite(block[tail], from);
    }

    /** install_trans, called by commit or by recover_from_log. */
    method InstallTrans()
      requires Shape() && (phase == Installing(0) || phase == Recovering(0))
      modifies this`disk, this`cache, this`phase
      ensures phase == if old(phase).Installing? then Installing(n) else Recovering(n)
      ensures LoopAt(L, old(S()), InstallLabel(old(phase)), n, S())
    {
      ghost var s0 := S();
      var tail := 0;
      while tail < n
        invariant 0 <= tail <= n
        invariant phase == if s0.phase.Installing? then Installing(tail) else Recovering(tail)
        invariant LoopAt(L, s0, InstallLabel(s0.phase), tail, S())
      {
        InstallReady(L, s0, InstallLabel(s0.phase), tail, S());
        CopyHome(tail);
        phase := Next(phase);
        tail := tail + 1;
      }
    }

    /** write_head: fill in the header block in memory, then one disk write. */
    method WriteHead()
      requires block.Length == LOGSIZE && 0 <= n <= LOGSIZE && L.start < |disk| && L.start !in cache
      modifies this`disk, this`cache
      ensures disk == old(disk)[L.start := WithHead(old(disk)[L.start], block[..n])]
      ensures cache == old(cache)
    {
      var hb := Bread(L.start);
      var was := hb;
      hb := hb[0 := n];
      for i := 0 to n
        invariant |hb| == WORDS
        invariant hb == [n] + block[..i] + was[1 + i..]
      {
        hb := hb[1 + i := block[i]];
        assert block[..i + 1] == block[..i] + [block[i]];
      }
      Bwrite(L.start, hb);
      assert cache == old(cache);
    }

    method ReadHead()
      requires block.Length == LOGSIZE && L.start < |disk| && L.start !in cache && CountOk(disk[L.start])
      modifies this`n, block
      ensures 0 <= n <= LOGSIZE && block[..n] == HeadNums(disk[L.start])
    {
      var hb := Bread(L.start);
      n := hb[0];
      for i := 0 to n
        invariant block[..i] == hb[1..1 + i]
        invariant n == hb[0] && disk == old(disk)
      {
        block[i] := hb[1 + i];
        assert block[..i + 1] == block[..i] + [block[i]];
      }
    }

    /** The first half of commit: after the log blocks comes the write that commits. */
    method WriteTransaction() returns (ghost s1: State)
      requires Shape() && phase == WritingLog(0)
      modifies this`disk, this`cache, this`phase
      ensures Shape() && phase == Installing(0)
      ensures LoopAt(L, old(S()), LogBlockWrite, n, s1) && Enabled(L, s1, HeadWrite) && S() == Apply(L, s1, HeadWrite)
    {
      ghost var s0 := S();
      WriteLog();
      s1 := S();
      HeadReady(L, s0, n, s1);
      WriteHead();
      phase := Installing(0);
    }

    /** The second half: the blocks go home, and the transaction is erased. */
    method EraseTransaction() returns (ghost s3: State)
      requires Shape() && phase == Installing(0)
      modifies this`disk, this`cache, this`phase, this`n
      ensures Shape() && phase == Finishing && n == 0
      ensures LoopAt(L, old(S()), InstallWrite, old(n), s3) && Enabled(L, s3, HeadClear) && S() == Apply(L, s3, HeadClear)
      ensures Home(L, disk) == Image(L, disk)
    {
      ghost var s2 := S();
      InstallTrans();
      s3 := S();
      ClearReady(L, s2, n, s3);
      n := 0;
      WriteHead();
      phase := Finishing;
    }

    /** commit. */
    method Commit()
      requires Shape() && phase == (if n > 0 then WritingLog(0) else Finishing)
      modifies this`disk, this`cache, this`phase, this`n
      ensures Shape() && phase == Finishing && n == 0
      ensures old(n) > 0 ==> RunOf(L, old(S()), CommitLabels(old(n)), S())
      ensures old(n) == 0 ==> S() == old(S())
      ensures Home(L, disk) == Image(L, old(disk)) + old(cache)
    {
      if n > 0 {
        ghost var s0, n0 := S(), n;
        ghost var s1 := WriteTransaction();
        ghost var s2 := S();
        ghost var s3 := EraseTransaction();
        CommitRun(L, s0, n0, s1, s2, s3);
        CommitImage(L, s0, n0, S());
      } else {
        NothingToCommit(L, S());
      }
    }

    /** recover_from_log, run by initlog after a crash. */
    method RecoverFromLog()
      requires Shape() && phase == Off
      modifies this`disk, this`cache, this`phase, this`n, block
      ensures Shape() && phase == Running && n == 0 && cache == map[]
      ensures RunOf(L, old(S()), RecoverLabels(HeadCount(old(disk)[L.start])), S())
      ensures Home(L, disk) == Image(L, old(disk)) == Image(L, disk)
    {
      ghost var s0 := S();
      ReadHeadReady(L, s0);
      ReadHead();
      phase := Recovering(0);
      ghost var s1, n0 := S(), n;
      InstallTrans();
      ghost var s2 := S();
      RecoverClearReady(L, s1, n, s2);
      n := 0;
      WriteHead();
      phase := Running;
      RecoverRun(L, s0, n0, s1, s2);
      RecoverImage(L, s0, n0, S());
    }

    /** What holds whenever log.lock is free. */
    ghost predicate Valid()
      reads this, block
    {
      && Shape()
      && outstanding == Outstanding(ops)
      && (committing <==> phase.WritingLog? || phase.Installing? || phase.Finishing?)
      && (phase == Running || committing)
    }

    /** begin_op; `admitted` is false where the code sleeps and tries again. */
    method BeginOp(ghost p: nat) returns (admitted: bool)
      requires Valid() && p < |ops| && ops[p].Idle?
      modifies this`outstanding, this`ops
      ensures Valid()
      ensures admitted <==> !committing && n + (old(outstanding) + 1) * MAXOPBLOCKS <= LOGSIZE
      ensures admitted ==> Enabled(L, old(S()), Begin(p)) && S() == Apply(L, old(S()), Begin(p))
      ensures !admitted ==> S() == old(S())
    {
      if committing {
        admitted := false;
      } else if n + (outstanding + 1) * MAXOPBLOCKS > LOGSIZE {
        admitted := false;
      } else {
        BeginSound(L, S(), p);
        outstanding := outstanding + 1;
        ops := ops[p := Active({}, false)];
        admitted := true;
      }
    }

    /** The absorption scan of log_write: where b stands in the list, or its end. */
    method FindBlock(b: int) returns (i: nat)
      requires block.Length == LOGSIZE && 0 <= n <= LOGSIZE
      ensures i <= n && b !in block[..i] && (i < n ==> block[i] == b)
    {
      i := 0;
      while i < n
        invariant 0 <= i <= n && b !in block[..i]
      {
        if block[i] == b { break; }
        assert block[..i + 1] == block[..i] + [block[i]];
        i := i + 1;
      }
    }

    /** log_write by operation p of a buffer that now holds v; false is its panic when
        there is no room. */
    method LogWrite(ghost p: nat, b: int, v: Block) returns (ok: bool)
      requires Valid() && p < |ops| && ops[p].Active?
      requires L.IsHome(b) && |ops[p].blocks + {b}| <= MAXOPBLOCKS
      modifies this`n, this`cache, this`ops, block
      ensures Valid() && (ok <==> RoomToLog(L, old(S())))
      ensures ok ==> n <= L.size - 1 && block[..n] == Append(old(block[..n]), b) && cache == old(cache)[b := v]
      ensures ok ==> Abstract(L, S()) == StoreStep(old(Abstract(L, S())), Write(p, b, v))
      ensures !ok ==> S() == old(S())
    {
      ghost var s0 := S();
      if n >= LOGSIZE || n >= L.size - 1 { return false; }
      ok := true;
      ActiveRuns(L, s0, p);
      TestAndAppend(L, s0, p, b, v);
      var i := FindBlock(b);
      block[i] := b;
      if i == n {
        n := n + 1;
        assert block[..n] == s0.lh + [b];
      } else {
        assert block[..n] == s0.lh;
      }
      cache := cache[b := v];
      ops := ops[p := Active(ops[p].blocks + {b}, false)];
    }

    /** The second half of end_op: the last operation out commits for all. */
    method CommitLast()
      requires 0 <= n <= block.Length && block.Length == LOGSIZE && phase == Running
      requires Sound(L, S().(phase := if n > 0 then WritingLog(0) else Finishing))
      modifies this`disk, this`cache, this`phase, this`n, this`committing
      ensures Shape() && phase == Running && !committing && n == 0 && cache == map[]
      ensures Home(L, disk) == Image(L, old(disk)) + old(cache)
    {
      committing := true;
      phase := if n > 0 then WritingLog(0) else Finishing;
      Commit();
      FinishSound(L, S());
      committing := false;
      phase := Running;
    }

    /** end_op. */
    method EndOp(ghost p: nat)
      requires Valid() && p < |ops| && ops[p].Active?
      modifies this`disk, this`cache, this`phase, this`n, this`ops, this`outstanding, this`committing
      ensures Valid() && phase == Running && ops == old(ops)[p := Idle]
      ensures outstanding > 0 ==> S() == old(S()).(ops := ops)
      ensures outstanding == 0 ==> n == 0 && cache == map[] && Home(L, disk) == Image(L, old(disk)) + old(cache)
    {
      ActiveRuns(L, S(), p);
      EndSound(L, S(), p);
      ghost var s1 := Apply(L, S(), End(p));
      assert !committing;
      outstanding := outstanding - 1;
      ops := ops[p := Idle];
      if outstanding == 0 { CommitLast(); }
    }
  }
}

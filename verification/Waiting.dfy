/** The code of this kernel that sleeps under a spinlock, as monitors: pipes
    (lab2/pipe.c), sleep locks (lab2/sleeplock.c) and the log's admission of
    operations (lab2/log.c).  A process in a pipe may be killed at any moment. */
module Waiting {
  import PipeBuffer
  import opened Monitor
  import opened MonitorProofs
  import LogMachine

  // ------------------------------------------------------------------
  // Sleep locks
  // ------------------------------------------------------------------

  datatype SleepLockPc = Acquire | Release | Done

  const LOCKED: int := 0

  function SleepLockBody(locked: bool, b: SleepLockPc): (bool, Next<SleepLockPc>)
  {
    match b
    case Acquire => if locked then (locked, Sleep(LOCKED, Acquire)) else (true, Leave)
    case Release => (false, Wake(LOCKED, Done))
    case Done => (locked, Leave)
  }

  ghost const SleepLock: Code<bool, SleepLockPc> := Code(
    SleepLockBody,
    (c: int, locked: bool) => c == LOCKED ==> locked,
    (c, b) => false,
    (v, b) => true,
    b => b != Done)

  lemma SleepLockDisciplined()
    ensures Disciplined(SleepLock)
  {
  }

  /** A process asleep on a sleep lock, while its spinlock is free, sleeps on a
      lock that is held. */
  lemma SleepLockNoLostWakeup(run: seq<State<bool, SleepLockPc>>, k: nat, i: nat)
    requires IsRun(SleepLock, run) && Inv(SleepLock, run[0]) && k < |run|
    requires run[k].lk == FREE && i < |run[k].st| && run[k].st[i].Asleep? && run[k].st[i].c == LOCKED
    ensures run[k].v
  {
    SleepLockDisciplined();
    RunKeepsInv(SleepLock, run, k);
    SleeperIsRight(SleepLock, run[k], i);
  }

  // ------------------------------------------------------------------
  // begin_op and end_op
  // ------------------------------------------------------------------

  datatype LogVars = LogVars(n: int, outstanding: int, committing: bool)

  /** log_write adds a block; Committed is the end of end_op, after commit. */
  datatype LogPc = Begin | Append | End | Committed | LogDone

  const LOG: int := 0

  predicate MustWait(v: LogVars) { v.committing || v.n + (v.outstanding + 1) * LogMachine.MAXOPBLOCKS > LogMachine.LOGSIZE }

  function LogBody(v: LogVars, b: LogPc): (LogVars, Next<LogPc>)
  {
    match b
    case Begin =>
      if MustWait(v) then (v, Sleep(LOG, Begin)) else (v.(outstanding := v.outstanding + 1), Leave)
    case Append => (v.(n := v.n + 1), Leave)
    case End =>
      var out := v.outstanding - 1;
      if out == 0 then (v.(outstanding := 0, committing := true), Leave)
      else (v.(outstanding := out), Wake(LOG, LogDone))
    case Committed => (v.(n := 0, committing := false), Wake(LOG, LogDone))
    case LogDone => (v, Leave)
  }

  ghost const LogAdmission: Code<LogVars, LogPc> := Code(
    LogBody,
    (c: int, v: LogVars) => c == LOG ==> MustWait(v),
    (c, b) => false,
    (v, b) => true,
    b => b != LogDone)

  lemma LogDisciplined()
    ensures Disciplined(LogAdmission)
  {
  }

  /** An operation asleep in begin_op, while log.lock is free, really has to wait. */
  lemma BeginOpNoLostWakeup(run: seq<State<LogVars, LogPc>>, k: nat, i: nat)
    requires IsRun(LogAdmission, run) && Inv(LogAdmission, run[0]) && k < |run|
    requires run[k].lk == FREE && i < |run[k].st| && run[k].st[i].Asleep? && run[k].st[i].c == LOG
    ensures MustWait(run[k].v)
  {
    LogDisciplined();
    RunKeepsInv(LogAdmission, run, k);
    SleeperIsRight(LogAdmission, run[k], i);
  }

  // ------------------------------------------------------------------
  // Pipes
  // ------------------------------------------------------------------

  const PIPESIZE: int := PipeBuffer.PIPESIZE

  type Fill = n: int | 0 <= n <= PIPESIZE

  datatype PipeVars = PipeVars(count: Fill, readopen: bool, writeopen: bool)

  /** Program points, with p->killed where the code looks at it. */
  datatype PipePc =
    | ReadTest(n: nat, killed: bool) | ReadCopy(n: nat) | ReadExit
    | WriteLoop(n: nat, killed: bool) | WriteSleep(n: nat, killed: bool) | WriteExit
    | CloseReader | CloseWriter | CloseExit

  /** The channels &p->nread and &p->nwrite. */
  const NREAD: int := 0
  const NWRITE: int := 1

  /** piperead, pipewrite and pipeclose, one action at a time; `n` are the bytes
      still to move. */
  function PipeBody(v: PipeVars, b: PipePc): (PipeVars, Next<PipePc>)
  {
    match b
    case ReadTest(n, killed) =>
      if v.count == 0 && v.writeopen then (v, if killed then Leave else Sleep(NREAD, b)) else (v, Go(ReadCopy(n)))
    case ReadCopy(n) =>
      if n > 0 && v.count > 0 then (v.(count := v.count - 1), Go(ReadCopy(n - 1))) else (v, Wake(NWRITE, ReadExit))
    case ReadExit => (v, Leave)
    case WriteLoop(n, killed) =>
      if n == 0 then (v, Wake(NREAD, WriteExit))
      else if v.count < PIPESIZE then (v.(count := v.count + 1), Go(WriteLoop(n - 1, killed)))
      else if !v.readopen || killed then (v, Leave)
      else (v, Wake(NREAD, WriteSleep(n, killed)))
    case WriteSleep(n, killed) => (v, Sleep(NWRITE, WriteLoop(n, killed)))
    case WriteExit => (v, Leave)
    case CloseReader => (v.(readopen := false), Wake(NWRITE, CloseExit))
    case CloseWriter => (v.(writeopen := false), Wake(NREAD, CloseExit))
    case CloseExit => (v, Leave)
  }

  /** Empty and writable, or nobody can read any more. */
  predicate PipeCond(c: int, v: PipeVars)
  {
    && (c == NREAD ==> (v.count == 0 && v.writeopen) || !v.readopen)
    && (c == NWRITE ==> (v.count == PIPESIZE && v.readopen) || !v.writeopen)
  }

  predicate PipeOwes(c: int, b: PipePc) { (c == NREAD && b.WriteLoop?) || (c == NWRITE && b.ReadCopy?) }

  ghost const Pipe: Code<PipeVars, PipePc> := Code(
    PipeBody,
    PipeCond,
    PipeOwes,
    (v: PipeVars, b: PipePc) => b.WriteSleep? ==> v.count == PIPESIZE && v.readopen,
    (b: PipePc) => b.ReadTest? || b.WriteLoop? || b.CloseReader? || b.CloseWriter?)

  /** A killed writer gives up on a full pipe, and wakes nobody. */
  predicate KilledExit(v: PipeVars, b: PipePc)
  {
    b.WriteLoop? && b.killed && b.n > 0 && v.count == PIPESIZE && v.readopen
  }

  /** That exit apart, the code pays the wakeups it owes. */
  lemma PipeDisciplined(v: PipeVars, b: PipePc)
    requires Pipe.local(v, b) && !KilledExit(v, b)
    ensures DisciplinedAt(Pipe, v, b) && EntriesOk(Pipe)
  {
  }

  // ------------------------------------------------------------------
  // kill
  // ------------------------------------------------------------------

  function Marked(b: PipePc): PipePc
  {
    match b
    case ReadTest(n, _) => ReadTest(n, true)
    case WriteLoop(n, _) => WriteLoop(n, true)
    case WriteSleep(n, _) => WriteSleep(n, true)
    case _ => b
  }

  /** kill sets p->killed and makes a sleeper runnable. */
  function KilledStage(t: Stage<PipePc>): Stage<PipePc>
  {
    match t
    case Lock(b) => Lock(Marked(b))
    case In(b) => In(Marked(b))
    case SleepTake(c, b) => SleepTake(c, Marked(b))
    case Asleep(_, b) => Ready(Marked(b))
    case Ready(b) => Ready(Marked(b))
    case WakeTake(c, b) => WakeTake(c, Marked(b))
    case _ => t
  }

  /** kill holds ptable.lock throughout. */
  ghost predicate Kills(s: State<PipeVars, PipePc>, i: nat, s': State<PipeVars, PipePc>)
  {
    i < |s.st| && s.pt == FREE && s' == s.(st := s.st[i := KilledStage(s.st[i])])
  }

  lemma KillKeepsInv(s: State<PipeVars, PipePc>, i: nat, s': State<PipeVars, PipePc>)
    requires Inv(Pipe, s) && Kills(s, i, s')
    ensures Inv(Pipe, s')
  {
    forall k | 0 <= k < |s'.st|
      ensures StageOk(Pipe, s'.v, s'.st[k]) && (HasLk(s'.st[k]) <==> s'.lk == k) && (HasPt(s'.st[k]) <==> s'.pt == k)
    {
      assert StageOk(Pipe, s.v, s.st[k]);
    }
    forall k, c | 0 <= k < |s'.st| && Sleeping(s'.st[k], c)
      ensures Pipe.cond(c, s'.v) || (s'.lk != FREE && WillWake(Pipe, s'.st[s'.lk], c))
    {
      assert Sleeping(s.st[k], c);
    }
  }

  // ------------------------------------------------------------------
  // Ends of the pipe
  // ------------------------------------------------------------------

  /** A process inside piperead or pipewrite keeps its end of the pipe open: the
      file table closes an end only when its last descriptor goes, and no call
      starts on a closed end. */
  predicate Reader(b: PipePc) { b.ReadTest? || b.ReadCopy? || b.ReadExit? }
  predicate Writer(b: PipePc) { b.WriteLoop? || b.WriteSleep? || b.WriteExit? }

  predicate Active(t: Stage<PipePc>) { !t.Idle? && !t.Out? }

  /** What a stage demands of the ends of the pipe, and of its channel. */
  predicate EndsOk(v: PipeVars, t: Stage<PipePc>)
  {
    Active(t) ==>
      && (Reader(t.b) ==> v.readopen)
      && (Writer(t.b) ==> v.writeopen)
      && (t.SleepTake? || t.SleepDrop? || t.SleepMark? || t.SleepYield? || t.Asleep? ==>
            (t.c == NREAD ==> Reader(t.b)) && (t.c == NWRITE ==> Writer(t.b)))
  }

  /** Nobody closes an end that the other uses. */
  predicate Compatible(t: Stage<PipePc>, u: Stage<PipePc>)
  {
    Active(t) && Active(u) ==> !(Reader(t.b) && u.b.CloseReader?) && !(Writer(t.b) && u.b.CloseWriter?)
  }

  ghost predicate Refs(s: State<PipeVars, PipePc>)
  {
    && (forall i :: 0 <= i < |s.st| ==> EndsOk(s.v, s.st[i]))
    && (forall i, j :: 0 <= i < |s.st| && 0 <= j < |s.st| ==> Compatible(s.st[i], s.st[j]))
  }

  /** When the file table lets a call of the pipe begin. */
  ghost predicate MayCall(s: State<PipeVars, PipePc>, b: PipePc)
  {
    EndsOk(s.v, Lock(b)) && forall j :: 0 <= j < |s.st| ==> Compatible(Lock(b), s.st[j]) && Compatible(s.st[j], Lock(b))
  }

  ghost predicate PipeNext(s: State<PipeVars, PipePc>, s': State<PipeVars, PipePc>)
  {
    || (exists i: nat :: CanStep(Pipe, s, i) && s' == Step(Pipe, s, i))
    || (exists i: nat, b :: CanEnter(Pipe, s, i, b) && MayCall(s, b) && s' == Enter(s, i, b))
    || Outside(s, s')
    || (exists i: nat :: Kills(s, i, s'))
  }

  /** The interleaved runs of pipe calls that respect the file table, with kills. */
  ghost predicate IsPipeRun(run: seq<State<PipeVars, PipePc>>)
  {
    run != [] && forall k :: 0 <= k < |run| - 1 ==> PipeNext(run[k], run[k + 1])
  }

  /** The part a stage plays does not change, except that a closer is done once it
      has closed. */
  lemma BodyKeepsRefs(s: State<PipeVars, PipePc>, i: nat)
    requires Refs(s) && CanStep(Pipe, s, i) && s.st[i].In?
    ensures Refs(Step(Pipe, s, i))
  {
    var s' := Step(Pipe, s, i);
    assert EndsOk(s.v, s.st[i]);
    forall k | 0 <= k < |s'.st| ensures EndsOk(s'.v, s'.st[k]) {
      assert EndsOk(s.v, s.st[k]) && Compatible(s.st[k], s.st[i]);
    }
    forall k, j | 0 <= k < |s'.st| && 0 <= j < |s'.st| ensures Compatible(s'.st[k], s'.st[j]) {
      assert Compatible(s.st[k], s.st[j]);
    }
  }

  lemma PlainKeepsRefs(s: State<PipeVars, PipePc>, i: nat)
    requires Refs(s) && CanStep(Pipe, s, i) && !s.st[i].In?
    ensures Refs(Step(Pipe, s, i))
  {
    var s' := Step(Pipe, s, i);
    forall k | 0 <= k < |s'.st|
      ensures EndsOk(s'.v, s'.st[k]) && (Active(s'.st[k]) ==> Active(s.st[k]) && s'.st[k].b == s.st[k].b)
    {
      assert EndsOk(s.v, s.st[k]);
    }
    forall k, j | 0 <= k < |s'.st| && 0 <= j < |s'.st| ensures Compatible(s'.st[k], s'.st[j]) {
      assert Compatible(s.st[k], s.st[j]);
    }
  }

  lemma KillKeepsRefs(s: State<PipeVars, PipePc>, i: nat, s': State<PipeVars, PipePc>)
    requires Refs(s) && Kills(s, i, s')
    ensures Refs(s')
  {
    forall k | 0 <= k < |s'.st| ensures EndsOk(s'.v, s'.st[k]) {
      assert EndsOk(s.v, s.st[k]);
    }
    forall k, j | 0 <= k < |s'.st| && 0 <= j < |s'.st| ensures Compatible(s'.st[k], s'.st[j]) {
      assert Compatible(s.st[k], s.st[j]);
    }
  }

  lemma PipeStepKeeps(s: State<PipeVars, PipePc>, s': State<PipeVars, PipePc>)
    requires PipeNext(s, s') && Refs(s)
    ensures Refs(s')
  {
    if i: nat :| CanStep(Pipe, s, i) && s' == Step(Pipe, s, i) {
      if s.st[i].In? { BodyKeepsRefs(s, i); } else { PlainKeepsRefs(s, i); }
    } else if i: nat :| Kills(s, i, s') {
      KillKeepsRefs(s, i, s');
    }
  }

  // ------------------------------------------------------------------
  // Wakeups
  // ------------------------------------------------------------------

  ghost predicate ReaderSleeps(s: State<PipeVars, PipePc>) { exists k :: 0 <= k < |s.st| && Sleeping(s.st[k], NREAD) }

  /** The step from s to s' is a killed writer's exit from a full pipe, on which a
      reader sleeps. */
  ghost predicate Forgets(s: State<PipeVars, PipePc>, s': State<PipeVars, PipePc>)
  {
    ReaderSleeps(s) && exists i: nat :: CanStep(Pipe, s, i) && s.st[i].In? && KilledExit(s.v, s.st[i].b) && s' == Step(Pipe, s, i)
  }

  lemma KilledExitKeepsInv(s: State<PipeVars, PipePc>, i: nat)
    requires Inv(Pipe, s) && CanStep(Pipe, s, i) && s.st[i].In? && KilledExit(s.v, s.st[i].b) && !ReaderSleeps(s)
    ensures Inv(Pipe, Step(Pipe, s, i))
  {
    var s' := Step(Pipe, s, i);
    forall k | 0 <= k < |s'.st| ensures StageOk(Pipe, s'.v, s'.st[k]) {
      assert StageOk(Pipe, s.v, s.st[k]);
    }
    forall k, c | 0 <= k < |s'.st| && Sleeping(s'.st[k], c) ensures Pipe.cond(c, s'.v) {
      assert k != i && Sleeping(s.st[k], c);
    }
  }

  lemma InStepKeepsInv(s: State<PipeVars, PipePc>, i: nat)
    requires Inv(Pipe, s) && CanStep(Pipe, s, i) && s.st[i].In? && !Forgets(s, Step(Pipe, s, i))
    ensures Inv(Pipe, Step(Pipe, s, i))
  {
    assert StageOk(Pipe, s.v, s.st[i]);
    if KilledExit(s.v, s.st[i].b) {
      KilledExitKeepsInv(s, i);
    } else {
      PipeDisciplined(s.v, s.st[i].b);
      BodyStepKeepsInv(Pipe, s, i);
    }
  }

  /** Every step but that exit keeps all sleepers right, or their wakeup under way. */
  lemma PipeStepKeepsInv(s: State<PipeVars, PipePc>, s': State<PipeVars, PipePc>)
    requires PipeNext(s, s') && Inv(Pipe, s) && !Forgets(s, s')
    ensures Inv(Pipe, s')
  {
    if i: nat :| CanStep(Pipe, s, i) && s' == Step(Pipe, s, i) {
      PipeDisciplined(s.v, CloseReader);
      if s.st[i].In? {
        InStepKeepsInv(s, i);
      } else if s.st[i].WakeMark? {
        WakeStepKeepsInv(Pipe, s, i);
      } else {
        PlainStepKeepsInv(Pipe, s, i);
      }
    } else if i: nat, b :| CanEnter(Pipe, s, i, b) && s' == Enter(s, i, b) {
      EnterKeepsInv(Pipe, s, i, b);
    } else if i: nat :| Kills(s, i, s') {
      KillKeepsInv(s, i, s');
    }
  }

  /** No step up to k forgets a reader. */
  ghost predicate NoneForgotten(run: seq<State<PipeVars, PipePc>>, k: nat)
    requires k < |run|
  {
    forall j :: 0 <= j < k ==> !Forgets(run[j], run[j + 1])
  }

  lemma {:induction false} PipeRunKeeps(run: seq<State<PipeVars, PipePc>>, k: nat)
    requires IsPipeRun(run) && Inv(Pipe, run[0]) && Refs(run[0]) && k < |run| && NoneForgotten(run, k)
    ensures Inv(Pipe, run[k]) && Refs(run[k])
  {
    if k > 0 {
      PipeRunKeeps(run, k - 1);
      assert PipeNext(run[k - 1], run[k - 1 + 1]) && !Forgets(run[k - 1], run[k - 1 + 1]);
      PipeStepKeeps(run[k - 1], run[k]);
      PipeStepKeepsInv(run[k - 1], run[k]);
    }
  }

  /** With p->lock free, a reader sleeps only on an empty pipe that can still be
      written, a writer only on a full one that can still be read. */
  ghost predicate SleepersRight(s: State<PipeVars, PipePc>)
  {
    s.lk == FREE ==>
      && (forall i :: 0 <= i < |s.st| && Sleeping(s.st[i], NREAD) ==> s.v.count == 0 && s.v.writeopen)
      && (forall i :: 0 <= i < |s.st| && Sleeping(s.st[i], NWRITE) ==> s.v.count == PIPESIZE && s.v.readopen)
  }

  lemma InvIsRight(s: State<PipeVars, PipePc>)
    requires Inv(Pipe, s) && Refs(s)
    ensures SleepersRight(s)
  {
    if s.lk == FREE {
      forall i | 0 <= i < |s.st| && Sleeping(s.st[i], NREAD) ensures s.v.count == 0 && s.v.writeopen {
        assert PipeCond(NREAD, s.v) && EndsOk(s.v, s.st[i]);
      }
      forall i | 0 <= i < |s.st| && Sleeping(s.st[i], NWRITE) ensures s.v.count == PIPESIZE && s.v.readopen {
        assert PipeCond(NWRITE, s.v) && EndsOk(s.v, s.st[i]);
      }
    }
  }

  /** No lost wakeup, in every run in which no killed writer forgets a reader; so never
      are a reader and a writer asleep at once. */
  lemma PipeNoLostWakeup(run: seq<State<PipeVars, PipePc>>, k: nat)
    requires IsPipeRun(run) && Inv(Pipe, run[0]) && Refs(run[0]) && k < |run| && NoneForgotten(run, k)
    ensures SleepersRight(run[k])
    ensures run[k].lk == FREE ==>
              forall i, j :: 0 <= i < |run[k].st| && 0 <= j < |run[k].st| ==> !(Sleeping(run[k].st[i], NREAD) && Sleeping(run[k].st[j], NWRITE))
  {
    PipeRunKeeps(run, k);
    InvIsRight(run[k]);
  }

  // ------------------------------------------------------------------
  // Exactly when a wakeup is lost
  // ------------------------------------------------------------------

  ghost predicate RunFrom(run: seq<State<PipeVars, PipePc>>, s: State<PipeVars, PipePc>) { IsPipeRun(run) && run[0] == s }

  lemma RunOn(run: seq<State<PipeVars, PipePc>>, s': State<PipeVars, PipePc>)
    requires IsPipeRun(run) && PipeNext(run[|run| - 1], s')
    ensures IsPipeRun(run + [s'])
  {
  }

  /** After such an exit the lock is released, and the reader sleeps on a full pipe. */
  lemma ForgottenSleeps(s: State<PipeVars, PipePc>, s': State<PipeVars, PipePc>) returns (s'': State<PipeVars, PipePc>)
    requires Forgets(s, s')
    ensures PipeNext(s', s'') && !SleepersRight(s'') && ReaderSleeps(s'') && s''.v.count == PIPESIZE && s''.lk == FREE
  {
    var i: nat :| CanStep(Pipe, s, i) && s.st[i].In? && KilledExit(s.v, s.st[i].b) && s' == Step(Pipe, s, i);
    var k :| 0 <= k < |s.st| && Sleeping(s.st[k], NREAD);
    assert s'.st[i] == Out && CanStep(Pipe, s', i);
    s'' := Step(Pipe, s', i);
    assert Sleeping(s''.st[k], NREAD);
  }

  /** All sleepers are right in every state of the run, and in every state that one more
      step leads to from there. */
  ghost predicate AllRight(run: seq<State<PipeVars, PipePc>>)
  {
    forall k :: 0 <= k < |run| ==> RightAround(run[k])
  }

  ghost predicate RightAround(s: State<PipeVars, PipePc>)
  {
    SleepersRight(s) && forall s' :: PipeNext(s, s') ==> SleepersRight(s')
  }

  /** Right after such an exit the writer still holds the lock. */
  lemma ForgetterHolds(s: State<PipeVars, PipePc>, s': State<PipeVars, PipePc>)
    requires Inv(Pipe, s) && Forgets(s, s')
    ensures s'.lk != FREE
  {
    var i: nat :| CanStep(Pipe, s, i) && s.st[i].In? && KilledExit(s.v, s.st[i].b) && s' == Step(Pipe, s, i);
    assert HasLk(s.st[i]);
  }

  lemma InvIsRightAround(s: State<PipeVars, PipePc>)
    requires Inv(Pipe, s) && Refs(s)
    ensures RightAround(s)
  {
    InvIsRight(s);
    forall s' | PipeNext(s, s') ensures SleepersRight(s') {
      if Forgets(s, s') {
        ForgetterHolds(s, s');
      } else {
        PipeStepKeeps(s, s');
        PipeStepKeepsInv(s, s');
        InvIsRight(s');
      }
    }
  }

  /** For every run from a state in order: all sleepers are right in it, and one step
      further, if and only if in no step of it a killed writer leaves a full pipe on which
      a reader sleeps. */
  lemma NoLostWakeupIff(run: seq<State<PipeVars, PipePc>>)
    requires IsPipeRun(run) && Inv(Pipe, run[0]) && Refs(run[0])
    ensures AllRight(run) <==> NoneForgotten(run, |run| - 1)
  {
    if NoneForgotten(run, |run| - 1) {
      forall k | 0 <= k < |run| ensures RightAround(run[k]) {
        PipeRunKeeps(run, k);
        InvIsRightAround(run[k]);
      }
    }
    if AllRight(run) {
      forall j | 0 <= j < |run| - 1 ensures !Forgets(run[j], run[j + 1]) {
        assert RightAround(run[j + 1]);
        if Forgets(run[j], run[j + 1]) { var s'' := ForgottenSleeps(run[j], run[j + 1]); }
      }
    }
  }

  // ------------------------------------------------------------------
  // A run that forgets
  // ------------------------------------------------------------------

  function Two(v: PipeVars, lk: int, pt: int, a: Stage<PipePc>, b: Stage<PipePc>): State<PipeVars, PipePc> { State(v, lk, pt, [a, b]) }

  /** A new pipe and two processes. */
  const START: State<PipeVars, PipePc> := State(PipeVars(0, true, true), FREE, FREE, [Idle, Idle])

  lemma StartInv()
    ensures Inv(Pipe, START) && Refs(START)
  {
  }

  lemma StepOn(run: seq<State<PipeVars, PipePc>>, i: nat) returns (run': seq<State<PipeVars, PipePc>>)
    requires IsPipeRun(run) && CanStep(Pipe, run[|run| - 1], i)
    ensures IsPipeRun(run') && run'[0] == run[0] && run'[|run'| - 1] == Step(Pipe, run[|run| - 1], i)
  {
    RunOn(run, Step(Pipe, run[|run| - 1], i));
    run' := run + [Step(Pipe, run[|run| - 1], i)];
  }

  /** A reader finds the pipe empty, ... */
  lemma ReaderTests(R: PipePc, v: PipeVars) returns (run: seq<State<PipeVars, PipePc>>)
    requires R == ReadTest(1, false) && v == PipeVars(0, true, true)
    ensures RunFrom(run, START) && run[|run| - 1] == Two(v, 0, FREE, SleepTake(NREAD, R), Idle)
  {
    var s := Enter(START, 0, R);
    assert MayCall(START, R) && CanEnter(Pipe, START, 0, R);
    RunOn([START], s);
    run := [START] + [s];
    assert run[|run| - 1] == Two(v, FREE, FREE, Lock(R), Idle);
    run := StepOn(run, 0);
    assert run[|run| - 1] == Two(v, 0, FREE, In(R), Idle);
    run := StepOn(run, 0);
  }

  /** ... and goes to sleep. */
  lemma ReaderAsleep(R: PipePc, v: PipeVars) returns (run: seq<State<PipeVars, PipePc>>)
    requires R == ReadTest(1, false) && v == PipeVars(0, true, true)
    ensures RunFrom(run, START) && run[|run| - 1] == Two(v, FREE, FREE, Asleep(NREAD, R), Idle)
  {
    run := ReaderTests(R, v);
    run := StepOn(run, 0);
    assert run[|run| - 1] == Two(v, 0, 0, SleepDrop(NREAD, R), Idle);
    run := StepOn(run, 0);
    assert run[|run| - 1] == Two(v, FREE, 0, SleepMark(NREAD, R), Idle);
    run := StepOn(run, 0);
    assert run[|run| - 1] == Two(v, FREE, 0, SleepYield(NREAD, R), Idle);
    run := StepOn(run, 0);
  }

  /** A writer begins, and is killed. */
  lemma WriterKilled(R: PipePc, v: PipeVars) returns (run: seq<State<PipeVars, PipePc>>)
    requires R == ReadTest(1, false) && v == PipeVars(0, true, true)
    ensures RunFrom(run, START) && run[|run| - 1] == Two(v, 1, FREE, Asleep(NREAD, R), In(WriteLoop(PIPESIZE + 1, true)))
  {
    var W := WriteLoop(PIPESIZE + 1, false);
    run := ReaderAsleep(R, v);
    var s := run[|run| - 1];
    assert MayCall(s, W) && CanEnter(Pipe, s, 1, W);
    RunOn(run, Enter(s, 1, W));
    run := run + [Enter(s, 1, W)];
    assert run[|run| - 1] == Two(v, FREE, FREE, Asleep(NREAD, R), Lock(W));
    run := StepOn(run, 1);
    s := run[|run| - 1];
    assert s == Two(v, 1, FREE, Asleep(NREAD, R), In(W));
    var s' := s.(st := s.st[1 := KilledStage(s.st[1])]);
    assert Kills(s, 1, s');
    RunOn(run, s');
    run := run + [s'];
  }

  lemma {:induction false} WriterFills(R: PipePc, k: Fill) returns (run: seq<State<PipeVars, PipePc>>)
    requires R == ReadTest(1, false)
    ensures RunFrom(run, START)
    ensures run[|run| - 1] == Two(PipeVars(k, true, true), 1, FREE, Asleep(NREAD, R), In(WriteLoop(PIPESIZE + 1 - k, true)))
    decreases k
  {
    if k == 0 {
      run := WriterKilled(R, PipeVars(0, true, true));
    } else {
      run := WriterFills(R, k - 1);
      run := StepOn(run, 1);
    }
  }

  /** A killed writer fills the pipe, gives up, and leaves the reader asleep on it. */
  lemma KilledWriterForgets() returns (run: seq<State<PipeVars, PipePc>>)
    ensures Inv(Pipe, START) && Refs(START) && RunFrom(run, START)
    ensures run[|run| - 1].lk == FREE && ReaderSleeps(run[|run| - 1]) && run[|run| - 1].v.count == PIPESIZE
  {
    StartInv();
    run := WriterFills(ReadTest(1, false), PIPESIZE);
    var s := run[|run| - 1];
    run := StepOn(run, 1);
    assert Sleeping(s.st[0], NREAD) && ReaderSleeps(s);
    assert Forgets(s, run[|run| - 1]);
    var s'' := ForgottenSleeps(s, run[|run| - 1]);
    RunOn(run, s'');
    run := run + [s''];
  }
}

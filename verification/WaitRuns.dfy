/** What the monitors of module Waiting guarantee over whole runs, counted from the steps
    themselves: a sleep lock has one holder, the log counts the operations under way and
    commits alone, and no byte of a pipe is lost or made up. */
module WaitRuns {
  import opened Monitor
  import opened Waiting

  // ------------------------------------------------------------------
  // Moves
  // ------------------------------------------------------------------

  /** Process i takes a step, process i calls in at point b, or other code of the kernel
      takes or drops ptable.lock. */
  datatype Move<+B> = StepOf(i: nat) | Call(i: nat, b: B) | Elsewhere

  ghost predicate MoveTo<V(!new), B(!new)>(m: Code<V, B>, s: State<V, B>, mv: Move<B>, s': State<V, B>)
  {
    match mv
    case StepOf(i) => CanStep(m, s, i) && s' == Step(m, s, i)
    case Call(i, b) => CanEnter(m, s, i, b) && s' == Enter(s, i, b)
    case Elsewhere => Outside(s, s')
  }

  /** These are the steps of the monitor. */
  lemma MovesAreSteps<V(!new), B(!new)>(m: Code<V, B>, s: State<V, B>, s': State<V, B>)
    ensures Next1(m, s, s') <==> exists mv :: MoveTo(m, s, mv, s')
  {
    if i: nat :| CanStep(m, s, i) && s' == Step(m, s, i) {
      assert MoveTo(m, s, StepOf(i), s');
    }
    if i: nat, b :| CanEnter(m, s, i, b) && s' == Enter(s, i, b) {
      assert MoveTo(m, s, Call(i, b), s');
    }
    if Outside(s, s') {
      assert MoveTo(m, s, Elsewhere, s');
    }
  }

  /** The stage has a program point to go on from. */
  predicate HasPoint<B>(t: Stage<B>) { !t.Idle? && !t.Out? }

  /** Process i does action b, under the lock. */
  predicate Does<V, B(==)>(s: State<V, B>, mv: Move<B>, i: nat, b: B)
  {
    mv == StepOf(i) && i < |s.st| && s.st[i] == In(b)
  }

  /** A step that is not an action changes no variable, and no process's program point. */
  lemma OtherMoves<V(!new), B(!new)>(m: Code<V, B>, s: State<V, B>, mv: Move<B>, s': State<V, B>, j: nat)
    requires MoveTo(m, s, mv, s') && j < |s.st| && !(mv.StepOf? && s.st[mv.i].In?)
    ensures s'.v == s.v && |s'.st| == |s.st|
    ensures HasPoint(s'.st[j]) ==> (HasPoint(s.st[j]) && s'.st[j].b == s.st[j].b) || (mv.Call? && mv.i == j && s'.st[j].b == mv.b)
  {
  }

  /** An action moves only the process that does it. */
  lemma ActionMoves<V(!new), B(!new)>(m: Code<V, B>, s: State<V, B>, mv: Move<B>, s': State<V, B>, j: nat)
    requires MoveTo(m, s, mv, s') && j < |s.st| && mv.StepOf? && s.st[mv.i].In?
    ensures var (v', next) := m.body(s.v, s.st[mv.i].b);
            s'.v == v' && |s'.st| == |s.st| && s'.st[j] == if j == mv.i then StageOf(next) else s.st[j]
  {
  }

  // ------------------------------------------------------------------
  // Sleep locks
  // ------------------------------------------------------------------

  /** Who holds the sleep lock after k moves: whoever has left acquiresleep, until its
      releasesleep gives the lock up. */
  function Holders(run: seq<State<bool, SleepLockPc>>, ms: seq<Move<SleepLockPc>>, k: nat): set<nat>
    requires k <= |ms| < |run|
  {
    if k == 0 then {}
    else
      var s, mv, s' := run[k - 1], ms[k - 1], run[k];
      if !mv.StepOf? || mv.i >= |s.st| || mv.i >= |s'.st| then Holders(run, ms, k - 1)
      else if s.st[mv.i] == In(Acquire) && s'.st[mv.i] == Out then Holders(run, ms, k - 1) + {mv.i}
      else if s.st[mv.i] == In(Release) then Holders(run, ms, k - 1) - {mv.i}
      else Holders(run, ms, k - 1)
  }

  ghost predicate LockMoveAt(run: seq<State<bool, SleepLockPc>>, ms: seq<Move<SleepLockPc>>, k: nat)
    requires k < |ms| < |run|
  {
    && MoveTo(SleepLock, run[k], ms[k], run[k + 1])
    && (ms[k].Call? && ms[k].b == Release ==> ms[k].i in Holders(run, ms, k))
  }

  /** Processes use a sleep lock that is free at first; only a holder releases it. */
  ghost predicate IsLockRun(run: seq<State<bool, SleepLockPc>>, ms: seq<Move<SleepLockPc>>)
  {
    && |run| == |ms| + 1 && !run[0].v && (forall i :: 0 <= i < |run[0].st| ==> run[0].st[i] == Idle)
    && (forall k: nat :: k < |ms| ==> LockMoveAt(run, ms, k))
  }

  /** H are the holders: at most one, and the lock says so; who is releasing is one. */
  ghost predicate HeldBy(s: State<bool, SleepLockPc>, H: set<nat>)
  {
    && (forall i, j :: i in H && j in H ==> i == j) && (s.v <==> H != {})
    && (forall i: nat :: i < |s.st| && HasPoint(s.st[i]) && s.st[i].b == Release ==> i in H)
  }

  lemma HeldOn(s: State<bool, SleepLockPc>, mv: Move<SleepLockPc>, s': State<bool, SleepLockPc>, H: set<nat>, H': set<nat>)
    requires MoveTo(SleepLock, s, mv, s') && HeldBy(s, H) && (mv.Call? && mv.b == Release ==> mv.i in H)
    requires H' == if !mv.StepOf? || mv.i >= |s.st| || mv.i >= |s'.st| then H
                   else if s.st[mv.i] == In(Acquire) && s'.st[mv.i] == Out then H + {mv.i}
                   else if s.st[mv.i] == In(Release) then H - {mv.i} else H
    ensures HeldBy(s', H')
  {
    forall i: nat | i < |s'.st| && HasPoint(s'.st[i]) && s'.st[i].b == Release ensures i in H' {
      if mv.StepOf? && s.st[mv.i].In? { ActionMoves(SleepLock, s, mv, s', i); } else { OtherMoves(SleepLock, s, mv, s', i); }
    }
  }

  /** Mutual exclusion: in every state of every run at most one process holds the sleep
      lock, and it is marked locked exactly when there is one. */
  lemma {:induction false} OneHolder(run: seq<State<bool, SleepLockPc>>, ms: seq<Move<SleepLockPc>>, k: nat)
    requires IsLockRun(run, ms) && k < |run|
    ensures forall i, j :: i in Holders(run, ms, k) && j in Holders(run, ms, k) ==> i == j
    ensures run[k].v <==> Holders(run, ms, k) != {}
    ensures HeldBy(run[k], Holders(run, ms, k))
  {
    if k > 0 {
      var j: nat := k - 1;
      OneHolder(run, ms, j);
      assert LockMoveAt(run, ms, j) && run[j + 1] == run[k];
      HeldOn(run[j], ms[j], run[k], Holders(run, ms, j), Holders(run, ms, k));
    }
  }

  // ------------------------------------------------------------------
  // begin_op and end_op
  // ------------------------------------------------------------------

  /** The operations under way after k moves: begun in begin_op, not yet ended in end_op. */
  function Ops(run: seq<State<LogVars, LogPc>>, ms: seq<Move<LogPc>>, k: nat): set<nat>
    requires k <= |ms| < |run|
  {
    if k == 0 then {} else OpsOn(run[k - 1], ms[k - 1], run[k], Ops(run, ms, k - 1))
  }

  function OpsOn(s: State<LogVars, LogPc>, mv: Move<LogPc>, s': State<LogVars, LogPc>, O: set<nat>): set<nat>
  {
    if !mv.StepOf? || mv.i >= |s.st| || mv.i >= |s'.st| then O
    else if s.st[mv.i] == In(Begin) && s'.st[mv.i] == Out then O + {mv.i}
    else if s.st[mv.i] == In(End) then O - {mv.i} else O
  }

  /** Who commits: an end_op that goes on without a wakeup, until it comes back from commit. */
  function Committers(run: seq<State<LogVars, LogPc>>, ms: seq<Move<LogPc>>, k: nat): set<nat>
    requires k <= |ms| < |run|
  {
    if k == 0 then {} else CommittersOn(run[k - 1], ms[k - 1], run[k], Committers(run, ms, k - 1))
  }

  function CommittersOn(s: State<LogVars, LogPc>, mv: Move<LogPc>, s': State<LogVars, LogPc>, C: set<nat>): set<nat>
  {
    if !mv.StepOf? || mv.i >= |s.st| || mv.i >= |s'.st| then C
    else if s.st[mv.i] == In(End) && s'.st[mv.i] == Out then C + {mv.i}
    else if s.st[mv.i] == In(Committed) then C - {mv.i} else C
  }

  /** Which calls a process may make: it begins outside an operation, and writes and ends
      inside one. */
  predicate MayBegin(i: nat, b: LogPc, O: set<nat>, C: set<nat>)
  {
    match b
    case Begin => i !in O && i !in C
    case Append => i in O
    case End => i in O
    case Committed => i in C
    case LogDone => true
  }

  ghost predicate LogMoveAt(run: seq<State<LogVars, LogPc>>, ms: seq<Move<LogPc>>, k: nat)
    requires k < |ms| < |run|
  {
    && MoveTo(LogAdmission, run[k], ms[k], run[k + 1])
    && (ms[k].Call? ==> MayBegin(ms[k].i, ms[k].b, Ops(run, ms, k), Committers(run, ms, k)))
  }

  ghost predicate IsLogRun(run: seq<State<LogVars, LogPc>>, ms: seq<Move<LogPc>>)
  {
    && |run| == |ms| + 1 && run[0].v == LogVars(0, 0, false) && (forall i :: 0 <= i < |run[0].st| ==> run[0].st[i] == Idle)
    && (forall k: nat :: k < |ms| ==> LogMoveAt(run, ms, k))
  }

  predicate Counted(v: LogVars, O: set<nat>, C: set<nat>)
  {
    && v.outstanding == |O| && (v.committing <==> C != {}) && (forall i, j :: i in C && j in C ==> i == j)
    && (C != {} ==> O == {})
  }

  ghost predicate Books(s: State<LogVars, LogPc>, O: set<nat>, C: set<nat>)
  {
    Counted(s.v, O, C) && forall i: nat :: i < |s.st| && HasPoint(s.st[i]) ==> MayBegin(i, s.st[i].b, O, C)
  }

  lemma LastOp(O: set<nat>, i: nat)
    requires i in O
    ensures |O - {i}| == |O| - 1 && (|O| == 1 ==> O == {i})
  {
    if |O| == 1 { assert O - {i} == {}; }
  }

  /** begin_op, end_op and the end of a commit keep the counts right. */
  lemma BeginCounted(v: LogVars, i: nat, O: set<nat>, C: set<nat>)
    requires Counted(v, O, C) && i !in O && !v.committing
    ensures Counted(v.(outstanding := v.outstanding + 1), O + {i}, C)
  {
  }

  lemma EndCounted(v: LogVars, i: nat, O: set<nat>, C: set<nat>)
    requires Counted(v, O, C) && i in O
    ensures v.outstanding - 1 == 0 ==> Counted(v.(outstanding := 0, committing := true), O - {i}, C + {i})
    ensures v.outstanding - 1 != 0 ==> Counted(v.(outstanding := v.outstanding - 1), O - {i}, C)
  {
    LastOp(O, i);
  }

  lemma CommitCounted(v: LogVars, i: nat, O: set<nat>, C: set<nat>)
    requires Counted(v, O, C) && i in C
    ensures Counted(v.(n := 0, committing := false), O, C - {i})
  {
  }

  ghost predicate Turned(s: State<LogVars, LogPc>, i: nat, s': State<LogVars, LogPc>, O: set<nat>, C: set<nat>, v: LogVars, O': set<nat>, C': set<nat>)
  {
    s'.v == v && OpsOn(s, StepOf(i), s', O) == O' && CommittersOn(s, StepOf(i), s', C) == C'
  }

  lemma ActionTurned(s: State<LogVars, LogPc>, i: nat, s': State<LogVars, LogPc>, O: set<nat>, C: set<nat>)
    requires MoveTo(LogAdmission, s, StepOf(i), s') && s.st[i].In?
    ensures HasPoint(s'.st[i]) ==> s'.st[i].b == s.st[i].b == Begin || s'.st[i].b == LogDone
    ensures s.st[i].b == Begin && MustWait(s.v) ==> Turned(s, i, s', O, C, s.v, O, C)
    ensures s.st[i].b == Begin && !MustWait(s.v) ==> s'.st[i] == Out && Turned(s, i, s', O, C, s.v.(outstanding := s.v.outstanding + 1), O + {i}, C)
    ensures s.st[i].b == Append ==> Turned(s, i, s', O, C, s.v.(n := s.v.n + 1), O, C)
    ensures s.st[i].b == End && s.v.outstanding - 1 == 0 ==>
              Turned(s, i, s', O, C, s.v.(outstanding := 0, committing := true), O - {i}, C + {i})
    ensures s.st[i].b == End && s.v.outstanding - 1 != 0 ==>
              Turned(s, i, s', O, C, s.v.(outstanding := s.v.outstanding - 1), O - {i}, C)
    ensures s.st[i].b == Committed ==> Turned(s, i, s', O, C, s.v.(n := 0, committing := false), O, C - {i})
    ensures s.st[i].b == LogDone ==> Turned(s, i, s', O, C, s.v, O, C)
  {
  }

  lemma ActionCounted(s: State<LogVars, LogPc>, i: nat, s': State<LogVars, LogPc>, O: set<nat>, C: set<nat>)
    requires MoveTo(LogAdmission, s, StepOf(i), s') && s.st[i].In? && Counted(s.v, O, C) && MayBegin(i, s.st[i].b, O, C)
    ensures Counted(s'.v, OpsOn(s, StepOf(i), s', O), CommittersOn(s, StepOf(i), s', C))
    ensures HasPoint(s'.st[i]) ==> MayBegin(i, s'.st[i].b, OpsOn(s, StepOf(i), s', O), CommittersOn(s, StepOf(i), s', C))
  {
    ActionTurned(s, i, s', O, C);
    match s.st[i].b
    case Begin => if !MustWait(s.v) { BeginCounted(s.v, i, O, C); }
    case End => EndCounted(s.v, i, O, C);
    case Committed => CommitCounted(s.v, i, O, C);
    case _ =>
  }

  lemma ActionOthers(s: State<LogVars, LogPc>, i: nat, s': State<LogVars, LogPc>, O: set<nat>, C: set<nat>, j: nat, c: LogPc)
    requires MoveTo(LogAdmission, s, StepOf(i), s') && j != i && MayBegin(j, c, O, C)
    ensures MayBegin(j, c, OpsOn(s, StepOf(i), s', O), CommittersOn(s, StepOf(i), s', C))
  {
  }

  lemma BooksOn(s: State<LogVars, LogPc>, mv: Move<LogPc>, s': State<LogVars, LogPc>, O: set<nat>, C: set<nat>)
    requires MoveTo(LogAdmission, s, mv, s') && Books(s, O, C) && (mv.Call? ==> MayBegin(mv.i, mv.b, O, C))
    ensures Books(s', OpsOn(s, mv, s', O), CommittersOn(s, mv, s', C))
  {
    if mv.StepOf? && s.st[mv.i].In? {
      ActionCounted(s, mv.i, s', O, C);
      forall j: nat | j < |s'.st| && HasPoint(s'.st[j]) ensures MayBegin(j, s'.st[j].b, OpsOn(s, mv, s', O), CommittersOn(s, mv, s', C)) {
        ActionMoves(LogAdmission, s, mv, s', j);
        if j != mv.i { ActionOthers(s, mv.i, s', O, C, j, s.st[j].b); }
      }
    } else {
      OtherBooks(s, mv, s', O, C);
    }
  }

  lemma OtherBooks(s: State<LogVars, LogPc>, mv: Move<LogPc>, s': State<LogVars, LogPc>, O: set<nat>, C: set<nat>)
    requires MoveTo(LogAdmission, s, mv, s') && Books(s, O, C) && (mv.Call? ==> MayBegin(mv.i, mv.b, O, C))
    requires !(mv.StepOf? && s.st[mv.i].In?)
    ensures OpsOn(s, mv, s', O) == O && CommittersOn(s, mv, s', C) == C && Books(s', O, C)
  {
    if |s.st| > 0 { OtherMoves(LogAdmission, s, mv, s', 0); }
    forall i: nat | i < |s'.st| && HasPoint(s'.st[i]) ensures MayBegin(i, s'.st[i].b, O, C) {
      OtherMoves(LogAdmission, s, mv, s', i);
    }
  }

  /** In every state of every run outstanding is the number of operations under way, at
      most one process commits, and none is under way while it does. */
  lemma {:induction false} LogCounts(run: seq<State<LogVars, LogPc>>, ms: seq<Move<LogPc>>, k: nat)
    requires IsLogRun(run, ms) && k < |run|
    ensures run[k].v.outstanding == |Ops(run, ms, k)| && (run[k].v.committing <==> Committers(run, ms, k) != {})
    ensures forall i, j :: i in Committers(run, ms, k) && j in Committers(run, ms, k) ==> i == j
    ensures Committers(run, ms, k) != {} ==> Ops(run, ms, k) == {}
    ensures Books(run[k], Ops(run, ms, k), Committers(run, ms, k))
  {
    if k > 0 {
      var j: nat := k - 1;
      LogCounts(run, ms, j);
      assert LogMoveAt(run, ms, j) && run[j + 1] == run[k];
      BooksOn(run[j], ms[j], run[k], Ops(run, ms, j), Committers(run, ms, j));
    }
  }

  /** begin_op lets an operation in if and only if no one commits and the log has room for
      10 blocks of it and of every other under way. */
  lemma AdmittedIff(run: seq<State<LogVars, LogPc>>, ms: seq<Move<LogPc>>, k: nat, i: nat)
    requires IsLogRun(run, ms) && k < |ms| && Does(run[k], ms[k], i, Begin)
    ensures i in Ops(run, ms, k + 1) <==>
            Committers(run, ms, k) == {} && run[k].v.n + 10 * (|Ops(run, ms, k)| + 1) <= 30
  {
    LogCounts(run, ms, k);
    assert LogMoveAt(run, ms, k);
    assert MayBegin(i, run[k].st[i].b, Ops(run, ms, k), Committers(run, ms, k));
  }

  // ------------------------------------------------------------------
  // Pipes
  // ------------------------------------------------------------------

  /** A writer of s has one byte less to write in s'. */
  ghost predicate Puts(s: State<PipeVars, PipePc>, s': State<PipeVars, PipePc>)
  {
    exists i :: 0 <= i < |s.st| == |s'.st| && Wrote(s.st[i], s'.st[i])
  }

  predicate Wrote(t: Stage<PipePc>, t': Stage<PipePc>)
  {
    t.In? && t'.In? && t.b.WriteLoop? && t'.b.WriteLoop? && t'.b.n == t.b.n - 1
  }

  /** A reader of s has one byte less to read in s'. */
  ghost predicate Gets(s: State<PipeVars, PipePc>, s': State<PipeVars, PipePc>)
  {
    exists i :: 0 <= i < |s.st| == |s'.st| && Took(s.st[i], s'.st[i])
  }

  predicate Took(t: Stage<PipePc>, t': Stage<PipePc>)
  {
    t.In? && t'.In? && t.b.ReadCopy? && t'.b.ReadCopy? && t'.b.n == t.b.n - 1
  }

  /** Bytes put less bytes taken in the first k steps. */
  ghost function Flow(run: seq<State<PipeVars, PipePc>>, k: nat): int
    requires k < |run|
  {
    if k == 0 then 0
    else Flow(run, k - 1) + (if Puts(run[k - 1], run[k]) then 1 else 0) - (if Gets(run[k - 1], run[k]) then 1 else 0)
  }

  lemma ActionFlow(s: State<PipeVars, PipePc>, i: nat, s': State<PipeVars, PipePc>)
    requires CanStep(Pipe, s, i) && s.st[i].In? && s' == Step(Pipe, s, i)
    ensures Puts(s, s') <==> Wrote(s.st[i], s'.st[i])
    ensures Gets(s, s') <==> Took(s.st[i], s'.st[i])
    ensures s'.v.count == s.v.count + (if Puts(s, s') then 1 else 0) - (if Gets(s, s') then 1 else 0)
  {
    assert forall j :: 0 <= j < |s.st| && j != i ==> !Wrote(s.st[j], s'.st[j]) && !Took(s.st[j], s'.st[j]);
  }

  ghost predicate Quiet(s: State<PipeVars, PipePc>, s': State<PipeVars, PipePc>)
  {
    s'.v == s.v && |s'.st| == |s.st| && forall j :: 0 <= j < |s.st| ==> !Wrote(s.st[j], s'.st[j]) && !Took(s.st[j], s'.st[j])
  }

  lemma PlainQuiet(s: State<PipeVars, PipePc>, i: nat, s': State<PipeVars, PipePc>)
    requires CanStep(Pipe, s, i) && !s.st[i].In? && s' == Step(Pipe, s, i)
    ensures Quiet(s, s')
  {
  }

  lemma KillQuiet(s: State<PipeVars, PipePc>, i: nat, s': State<PipeVars, PipePc>)
    requires Kills(s, i, s')
    ensures Quiet(s, s')
  {
  }

  lemma StepFlow(s: State<PipeVars, PipePc>, s': State<PipeVars, PipePc>)
    requires PipeNext(s, s')
    ensures s'.v.count == s.v.count + (if Puts(s, s') then 1 else 0) - (if Gets(s, s') then 1 else 0)
  {
    if i: nat :| CanStep(Pipe, s, i) && s' == Step(Pipe, s, i) {
      if s.st[i].In? { ActionFlow(s, i, s'); } else { PlainQuiet(s, i, s'); }
    } else if i: nat :| Kills(s, i, s') {
      KillQuiet(s, i, s');
    } else {
      assert Quiet(s, s');
    }
  }

  /** No byte is lost or made up: in every run, kills included, the pipe holds what it held
      at first, what writers put in, less what readers took. */
  lemma {:induction false} BytesConserved(run: seq<State<PipeVars, PipePc>>, k: nat)
    requires IsPipeRun(run) && k < |run|
    ensures run[k].v.count == run[0].v.count + Flow(run, k)
  {
    if k > 0 {
      var j: nat := k - 1;
      BytesConserved(run, j);
      assert PipeNext(run[j], run[j + 1]) && run[j + 1] == run[k];
      StepFlow(run[j], run[k]);
    }
  }

  /** A writer stops short only when it is killed or nobody can read, and the pipe is full;
      a reader goes without waiting for a byte only when there is one, nobody can write,
      or it is killed. */
  lemma StopsShort(s: State<PipeVars, PipePc>, i: nat)
    requires CanStep(Pipe, s, i) && s.st[i].In?
    ensures var t, t' := s.st[i], Step(Pipe, s, i).st[i];
            && (t.b.WriteLoop? && (t' == Out || (t'.WakeTake? && t'.b == WriteExit)) ==>
                  t.b.n == 0 || (s.v.count == 512 && (t.b.killed || !s.v.readopen)))
            && (t.b.ReadTest? ==>
                  (t'.SleepTake? <==> s.v.count == 0 && s.v.writeopen && !t.b.killed)
                  && (t' == Out <==> s.v.count == 0 && s.v.writeopen && t.b.killed))
            && (t.b.ReadCopy? && t'.WakeTake? ==> t.b.n == 0 || s.v.count == 0)
  {
  }
}

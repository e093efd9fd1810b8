/** No step of any process loses a wakeup. */
module MonitorProofs {
  import opened Monitor

  lemma BodyStepKeepsInv<V(!new), B(!new)>(m: Code<V, B>, s: State<V, B>, i: nat)
    requires Inv(m, s) && CanStep(m, s, i) && s.st[i].In? && DisciplinedAt(m, s.v, s.st[i].b)
    ensures Inv(m, Step(m, s, i))
  {
    var s' := Step(m, s, i);
    forall k | 0 <= k < |s'.st| ensures StageOk(m, s'.v, s'.st[k]) {
      assert StageOk(m, s.v, s.st[k]);
      assert k != i ==> !HasLk(s.st[k]);
    }
    forall k, c | 0 <= k < |s'.st| && Sleeping(s'.st[k], c)
      ensures m.cond(c, s'.v) || WillWake(m, s'.st[i], c)
    {
      assert k != i && Sleeping(s.st[k], c);
    }
  }

  /** wakeup leaves no sleeper on its channel: one on its way to sleep would hold
      ptable.lock. */
  lemma WakeStepKeepsInv<V(!new), B(!new)>(m: Code<V, B>, s: State<V, B>, i: nat)
    requires Inv(m, s) && CanStep(m, s, i) && s.st[i].WakeMark?
    ensures Inv(m, Step(m, s, i))
  {
    var s' := Step(m, s, i);
    forall k | 0 <= k < |s'.st|
      ensures StageOk(m, s'.v, s'.st[k]) && (HasLk(s'.st[k]) <==> s'.lk == k) && (HasPt(s'.st[k]) <==> s'.pt == k)
    {
      assert StageOk(m, s.v, s.st[k]);
    }
    forall k, c | 0 <= k < |s'.st| && Sleeping(s'.st[k], c)
      ensures m.cond(c, s'.v) || WillWake(m, s'.st[i], c)
    {
      assert k != i && s'.st[k] == s.st[k] && Sleeping(s.st[k], c);
      assert !HasPt(s.st[k]);
    }
  }

  /** The other steps change locks and one stage. */
  lemma PlainStepKeepsInv<V(!new), B(!new)>(m: Code<V, B>, s: State<V, B>, i: nat)
    requires EntriesOk(m) && Inv(m, s) && CanStep(m, s, i) && !s.st[i].In? && !s.st[i].WakeMark?
    ensures Inv(m, Step(m, s, i))
  {
    var s' := Step(m, s, i);
    PlainStepLocks(m, s, i);
    forall k | 0 <= k < |s'.st| ensures StageOk(m, s'.v, s'.st[k]) {
      assert StageOk(m, s.v, s.st[k]);
    }
    forall k, c | 0 <= k < |s'.st| && Sleeping(s'.st[k], c)
      ensures m.cond(c, s'.v) || (s'.lk != FREE && WillWake(m, s'.st[s'.lk], c))
    {
      PlainStepSleeper(m, s, i, k, c);
    }
  }

  lemma PlainStepLocks<V(!new), B(!new)>(m: Code<V, B>, s: State<V, B>, i: nat)
    requires Locks(s) && CanStep(m, s, i) && !s.st[i].In? && !s.st[i].WakeMark?
    ensures var s' := Step(m, s, i); Locks(s') && s'.v == s.v && |s'.st| == |s.st|
    ensures forall k :: 0 <= k < |s.st| && k != i ==> Step(m, s, i).st[k] == s.st[k]
  {
  }

  lemma PlainStepSleeper<V(!new), B(!new)>(m: Code<V, B>, s: State<V, B>, i: nat, k: nat, c: int)
    requires Inv(m, s) && CanStep(m, s, i) && !s.st[i].In? && !s.st[i].WakeMark? && Locks(Step(m, s, i))
    requires k < |s.st| && |Step(m, s, i).st| == |s.st| && Sleeping(Step(m, s, i).st[k], c)
    ensures var s' := Step(m, s, i); m.cond(c, s'.v) || (s'.lk != FREE && WillWake(m, s'.st[s'.lk], c))
  {
    assert k != i ==> Sleeping(s.st[k], c);
    assert StageOk(m, s.v, s.st[i]);
    if k == i && !s.st[i].SleepDrop? { assert Sleeping(s.st[i], c); }
  }

  /** Every step of every process, and of the rest of the kernel, keeps the
      invariant of a disciplined monitor. */
  lemma StepKeepsInv<V(!new), B(!new)>(m: Code<V, B>, s: State<V, B>, s': State<V, B>)
    requires Disciplined(m) && Inv(m, s) && Next1(m, s, s')
    ensures Inv(m, s')
  {
    if i: nat :| CanStep(m, s, i) && s' == Step(m, s, i) {
      if s.st[i].In? {
        assert StageOk(m, s.v, s.st[i]);
        BodyStepKeepsInv(m, s, i);
      } else if s.st[i].WakeMark? {
        WakeStepKeepsInv(m, s, i);
      } else {
        PlainStepKeepsInv(m, s, i);
      }
    } else if i: nat, b :| CanEnter(m, s, i, b) && s' == Enter(s, i, b) {
      EnterKeepsInv(m, s, i, b);
    }
  }

  lemma EnterKeepsInv<V(!new), B(!new)>(m: Code<V, B>, s: State<V, B>, i: nat, b: B)
    requires Inv(m, s) && CanEnter(m, s, i, b)
    ensures Inv(m, Enter(s, i, b))
  {
    var s' := Enter(s, i, b);
    forall k, c | 0 <= k < |s'.st| && Sleeping(s'.st[k], c)
      ensures m.cond(c, s'.v) || (s'.lk != FREE && WillWake(m, s'.st[s'.lk], c))
    {
      assert k != i && Sleeping(s.st[k], c);
    }
  }

  /** The states that interleaved runs reach from s. */
  ghost predicate IsRun<V(!new), B(!new)>(m: Code<V, B>, run: seq<State<V, B>>)
  {
    run != [] && forall k :: 0 <= k < |run| - 1 ==> Next1(m, run[k], run[k + 1])
  }

  lemma {:induction false} RunKeepsInv<V(!new), B(!new)>(m: Code<V, B>, run: seq<State<V, B>>, k: nat)
    requires Disciplined(m) && IsRun(m, run) && Inv(m, run[0]) && k < |run|
    ensures Inv(m, run[k])
  {
    if k > 0 {
      var j: nat := k - 1;
      RunKeepsInv(m, run, j);
      assert Next1(m, run[j], run[j + 1]);
      StepKeepsInv(m, run[j], run[k]);
    }
  }

  /** Whenever the lock is free, whoever sleeps on c may go on sleeping. */
  lemma SleeperIsRight<V(!new), B(!new)>(m: Code<V, B>, s: State<V, B>, i: nat)
    requires Inv(m, s) && s.lk == FREE && i < |s.st| && s.st[i].Asleep?
    ensures m.cond(s.st[i].c, s.v)
  {
    assert Sleeping(s.st[i], s.st[i].c);
  }
}

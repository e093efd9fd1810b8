/** Every step of the scheduler machine keeps its invariant, and what follows for
    whole runs. */
module SchedProofs {
  import opened SchedMachine

  ghost predicate Inv(s: State) { TableOk(s.table) && CpusOk(s) && ClockOk(s) }

  /** A change of one slot by the rest of the kernel, allowed while no CPU scans,
      or harmless to a scan because the slot is not made runnable. */
  lemma PutKeepsInv(s: State, i: nat, p: Proc)
    requires Inv(s) && Slot(s, i) && ProcOk(p)
    requires s.lock == FREE || p.state != Runnable
    requires p.state == Running <==> s.table[i].state == Running
    ensures Inv(Put(s, i, p))
  {
    var s' := Put(s, i, p);
    forall c | 0 <= c < |s'.cpus| ensures PassOk(s'.table, s'.cpus[c]) {
      assert PassOk(s.table, s.cpus[c]) && (s.cpus[c].mode.Scanning? <==> s.lock == c);
      assert forall q: nat :: Ready(s'.table, q, s.cpus[c].level) ==> q == i || Ready(s.table, q, s.cpus[c].level);
    }
  }

  lemma VisitKeepsInv(s: State, c: nat)
    requires Inv(s) && Enabled(s, Visit(c))
    ensures Inv(Apply(s, Visit(c)))
  {
    var s' := Apply(s, Visit(c));
    forall d | 0 <= d < |s'.cpus| ensures PassOk(s'.table, s'.cpus[d]) {
      assert PassOk(s.table, s.cpus[d]);
    }
  }

  lemma EndScanKeepsInv(s: State, c: nat)
    requires Inv(s) && Enabled(s, EndScan(c))
    ensures Inv(Apply(s, EndScan(c)))
  {
    var s' := Apply(s, EndScan(c));
    forall d | 0 <= d < |s'.cpus| ensures PassOk(s'.table, s'.cpus[d]) {
      assert PassOk(s.table, s.cpus[d]);
    }
  }

  /** The table and the CPUs after the process is charged, before any promotion. */
  lemma ChargeKeepsInv(s: State, c: nat, to: PState, gap: nat, later: nat)
    requires Inv(s) && Enabled(s, Return(c, to, gap, later)) && s.now + gap < s.promoteAt
    ensures Inv(Apply(s, Return(c, to, gap, later)))
  {
    var s' := Apply(s, Return(c, to, gap, later));
    assert ProcOk(s.table[s.cpus[c].i]);
    forall d | 0 <= d < |s'.cpus| ensures PassOk(s'.table, s'.cpus[d]) {
      assert PassOk(s.table, s.cpus[d]);
    }
  }

  lemma PromotionKeepsInv(s: State, c: nat, to: PState, gap: nat, later: nat)
    requires Inv(s) && Enabled(s, Return(c, to, gap, later)) && s.promoteAt <= s.now + gap
    ensures Inv(Apply(s, Return(c, to, gap, later)))
  {
    var s' := Apply(s, Return(c, to, gap, later));
    assert ProcOk(s.table[s.cpus[c].i]);
    forall d | 0 <= d < |s'.cpus| ensures PassOk(s'.table, s'.cpus[d]) {
      assert PassOk(s.table, s.cpus[d]);
    }
    forall i | 0 <= i < |s'.table| ensures ProcOk(s'.table[i]) {
      assert ProcOk(s.table[i]);
    }
  }

  lemma StepKeepsInv(s: State, l: Label)
    requires Inv(s) && Enabled(s, l)
    ensures Inv(Apply(s, l))
  {
    match l
    case StartPass(c) => StartKeepsInv(s, c);
    case Visit(c) => VisitKeepsInv(s, c);
    case EndScan(c) => EndScanKeepsInv(s, c);
    case Return(c, to, gap, later) =>
      if s.promoteAt <= s.now + gap { PromotionKeepsInv(s, c, to, gap, later); } else { ChargeKeepsInv(s, c, to, gap, later); }
    case Tick =>
    case Alloc(i, pid) => PutKeepsInv(s, i, Fresh(s.table[i], pid));
    case ForkFails(i) => PutKeepsInv(s, i, s.table[i].(state := Unused));
    case ForkTickets(i, parent) =>
      assert ProcOk(s.table[parent]);
      PutKeepsInv(s, i, s.table[i].(tickets := s.table[parent].tickets, scheduled := 0));
    case MakeReady(i) => PutKeepsInv(s, i, s.table[i].(state := Runnable));
    case WakeUp(i) => PutKeepsInv(s, i, s.table[i].(state := Runnable));
    case Reap(i) => PutKeepsInv(s, i, s.table[i].(state := Unused, pid := 0));
    case SetPriority(i, priority) => PutKeepsInv(s, i, Reset(s.table[i]).(priority := priority));
    case SetTickets(i, n) => PutKeepsInv(s, i, s.table[i].(tickets := n));
  }

  lemma StartKeepsInv(s: State, c: nat)
    requires Inv(s) && Enabled(s, StartPass(c))
    ensures Inv(Apply(s, StartPass(c)))
  {
    var s' := Apply(s, StartPass(c));
    forall d | 0 <= d < |s'.cpus| ensures PassOk(s'.table, s'.cpus[d]) {
      assert PassOk(s.table, s.cpus[d]);
    }
  }

  // ------------------------------------------------------------------
  // Runs
  // ------------------------------------------------------------------

  /** run[k + 1] follows run[k] by ls[k]. */
  ghost predicate StepAt(run: seq<State>, ls: seq<Label>, k: int)
    requires 0 <= k < |ls| < |run|
  {
    Follows(run[k], ls[k], run[k + 1])
  }

  ghost predicate IsRun(run: seq<State>, ls: seq<Label>)
  {
    |run| == |ls| + 1 && forall k :: 0 <= k < |ls| ==> StepAt(run, ls, k)
  }

  lemma {:induction false} RunInv(run: seq<State>, ls: seq<Label>, k: nat)
    requires IsRun(run, ls) && Inv(run[0]) && k < |run|
    ensures Inv(run[k])
  {
    if k > 0 {
      RunInv(run, ls, k - 1);
      assert StepAt(run, ls, k - 1);
      StepKeepsInv(run[k - 1], ls[k - 1]);
    }
  }

  /** In every state of every run, priorities are levels and the budgets of live
      processes lie in 1..DEFAULT_BUDGET. */
  lemma BudgetsInRange(run: seq<State>, ls: seq<Label>, k: nat, i: nat)
    requires IsRun(run, ls) && Inv(run[0]) && k < |run| && i < |run[k].table|
    ensures 0 <= run[k].table[i].priority <= MAXPRIORITY
    ensures Live(run[k].table[i]) ==> 1 <= run[k].table[i].budget <= DEFAULT_BUDGET && run[k].table[i].tickets >= 1
  {
    RunInv(run, ls, k);
    assert ProcOk(run[k].table[i]);
  }

  /** Promotions are at least TICKS_TO_PROMOTE ticks apart. */
  lemma PromotionsApart(s: State, l: Label)
    requires Inv(s) && Enabled(s, l) && Apply(s, l).lastPromotion != s.lastPromotion
    ensures Apply(s, l).lastPromotion >= s.lastPromotion + TICKS_TO_PROMOTE
  {
  }

  /** Any two promotions of a run, in the order they happen. */
  lemma {:induction false} PromotionTimes(run: seq<State>, ls: seq<Label>, j: nat, k: nat)
    requires IsRun(run, ls) && Inv(run[0]) && j <= k < |run|
    ensures run[k].lastPromotion == run[j].lastPromotion
            || run[k].lastPromotion >= run[j].lastPromotion + TICKS_TO_PROMOTE
    decreases k - j
  {
    if j < k {
      PromotionTimes(run, ls, j, k - 1);
      RunInv(run, ls, k - 1);
      assert StepAt(run, ls, k - 1);
      if run[k].lastPromotion != run[k - 1].lastPromotion {
        PromotionsApart(run[k - 1], ls[k - 1]);
      }
    }
  }

  /** A level is given up only at an instant when nobody at it can run. */
  lemma GivenUpIsEmpty(s: State, c: nat, q: nat)
    requires Inv(s) && Enabled(s, EndScan(c)) && s.cpus[c].count == 0
    ensures !Ready(s.table, q, s.cpus[c].level)
  {
    assert PassOk(s.table, s.cpus[c]);
  }

  lemma BootInv(slots: nat, cpus: nat, now: int)
    ensures Inv(Boot(slots, cpus, now))
  {
  }
}

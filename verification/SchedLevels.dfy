/** How a process moves between the levels of lab2/proc.c, in numbers and over whole runs:
    a used up budget takes it down one level, a promotion lifts it by one. */
module SchedLevels {
  import opened SchedMachine
  import opened SchedProofs
  import opened SchedRuns

  /** The step ends a turn of slot i with its budget used up, above the lowest level. */
  predicate Drops(s: State, l: Label, i: nat)
  {
    i < |s.table| && Returns(s, l, i) && s.table[i].budget <= Ran(s, l, i) && s.table[i].priority > 0
  }

  /** The step promotes, and slot i is then no zombie and below the top level. */
  predicate Rises(s: State, l: Label, i: nat)
  {
    i < |s.table| && Promotes(s, l)
    && (if Returns(s, l, i) then l.to else s.table[i].state) != Zombie
    && s.table[i].priority - (if Drops(s, l, i) then 1 else 0) < 2
  }

  /** The level of slot i is set outright: it is allocated, or setpriority is called. */
  predicate Sets(l: Label, i: nat) { (l.Alloc? || l.SetPriority?) && l.i == i }

  /** One step: exactly one level down, exactly one up, both, or none. */
  lemma LevelStep(s: State, l: Label, i: nat)
    requires Inv(s) && Enabled(s, l) && i < |s.table|
    ensures |Apply(s, l).table| == |s.table|
    ensures !Sets(l, i) ==>
              Apply(s, l).table[i].priority == s.table[i].priority - (if Drops(s, l, i) then 1 else 0) + (if Rises(s, l, i) then 1 else 0)
    ensures Sets(l, i) ==> Apply(s, l).table[i].priority == (if l.Alloc? then 2 else l.priority) && Apply(s, l).table[i].budget == 5
    ensures Rises(s, l, i) || Drops(s, l, i) ==> Apply(s, l).table[i].budget == 5
  {
  }

  /** What else a step counts: the ticks that slot i has run, its dispatches since it was
      allocated, and its tickets. */
  lemma CountStep(s: State, l: Label, i: nat)
    requires Inv(s) && Enabled(s, l) && i < |s.table|
    ensures |Apply(s, l).table| == |s.table|
    ensures var p, p' := s.table[i], Apply(s, l).table[i];
            && p'.ticks == p.ticks + Ran(s, l, i)
            && p'.scheduled == (if (l.Alloc? || l.ForkTickets?) && l.i == i then 0 else p.scheduled + if Starts(s, l, i) then 1 else 0)
            && p'.tickets == (match l
                              case Alloc(q, _) => if q == i then 1 else p.tickets
                              case ForkTickets(q, parent) => if q == i then s.table[parent].tickets else p.tickets
                              case SetTickets(q, n) => if q == i then n else p.tickets
                              case _ => p.tickets)
            && p'.state == (if Returns(s, l, i) then l.to else if Starts(s, l, i) then Running else StateAfter(p.state, l, i))
            && p'.pid == (match l
                          case Alloc(q, pid) => if q == i then pid else p.pid
                          case Reap(q) => if q == i then 0 else p.pid
                          case _ => p.pid)
  {
  }

  /** The states that fork, wakeup and wait give a slot. */
  function StateAfter(state: PState, l: Label, i: nat): PState
  {
    match l
    case Alloc(q, _) => if q == i then Embryo else state
    case ForkFails(q) => if q == i then Unused else state
    case MakeReady(q) => if q == i then Runnable else state
    case WakeUp(q) => if q == i then Runnable else state
    case Reap(q) => if q == i then Unused else state
    case _ => state
  }

  /** A CPU dispatches the process in slot i. */
  predicate Starts(s: State, l: Label, i: nat)
  {
    l.Visit? && l.c < |s.cpus| && s.cpus[l.c].i == i && Ready(s.table, i, s.cpus[l.c].level)
  }

  function DropsIn(run: seq<State>, ls: seq<Label>, i: nat, j: nat, k: nat): nat
    requires j <= k <= |ls| <= |run|
  {
    if j == k then 0 else DropsIn(run, ls, i, j, k - 1) + if Drops(run[k - 1], ls[k - 1], i) then 1 else 0
  }

  function RisesIn(run: seq<State>, ls: seq<Label>, i: nat, j: nat, k: nat): nat
    requires j <= k <= |ls| <= |run|
  {
    if j == k then 0 else RisesIn(run, ls, i, j, k - 1) + if Rises(run[k - 1], ls[k - 1], i) then 1 else 0
  }

  function PromotionsIn(run: seq<State>, ls: seq<Label>, j: nat, k: nat): (n: nat)
    requires j <= k <= |ls| <= |run|
  {
    if j == k then 0 else PromotionsIn(run, ls, j, k - 1) + if Promotes(run[k - 1], ls[k - 1]) then 1 else 0
  }

  lemma LevelNext(run: seq<State>, ls: seq<Label>, i: nat, k: nat)
    requires IsRun(run, ls) && Inv(run[0]) && k < |ls| && i < |run[0].table| && !Sets(ls[k], i)
    ensures |run[k].table| == |run[k + 1].table| == |run[0].table|
    ensures run[k + 1].table[i].priority
            == run[k].table[i].priority - (if Drops(run[k], ls[k], i) then 1 else 0) + (if Rises(run[k], ls[k], i) then 1 else 0)
  {
    SameSize(run, ls, k);
    RunInv(run, ls, k);
    assert StepAt(run, ls, k);
    LevelStep(run[k], ls[k], i);
  }

  /** Over any part of a run in which its level is not set outright, the level of a slot
      goes down by the budgets it used up and up by the promotions that lifted it. */
  lemma {:induction false} LevelIs(run: seq<State>, ls: seq<Label>, i: nat, j: nat, k: nat)
    requires IsRun(run, ls) && Inv(run[0]) && j <= k < |run| && i < |run[0].table|
    requires forall m: nat :: j <= m < k ==> !Sets(ls[m], i)
    ensures i < |run[k].table| == |run[j].table|
    ensures run[k].table[i].priority == run[j].table[i].priority - DropsIn(run, ls, i, j, k) + RisesIn(run, ls, i, j, k)
    ensures RisesIn(run, ls, i, j, k) <= PromotionsIn(run, ls, j, k)
    decreases k
  {
    SameSize(run, ls, k);
    SameSize(run, ls, j);
    if j < k {
      LevelIs(run, ls, i, j, k - 1);
      LevelNext(run, ls, i, k - 1);
    }
  }

  /** So n promotions lift a slot by at most n levels. */
  lemma PromotionsLift(run: seq<State>, ls: seq<Label>, i: nat, j: nat, k: nat)
    requires IsRun(run, ls) && Inv(run[0]) && j <= k < |run| && i < |run[0].table|
    requires forall m: nat :: j <= m < k ==> !Sets(ls[m], i)
    ensures i < |run[k].table| == |run[j].table|
    ensures run[k].table[i].priority <= run[j].table[i].priority + PromotionsIn(run, ls, j, k)
  {
    LevelIs(run, ls, i, j, k);
  }

  lemma ClockStep(s: State, l: Label)
    requires Inv(s) && Enabled(s, l)
    ensures Apply(s, l).now >= s.now
    ensures Promotes(s, l) ==> Apply(s, l).lastPromotion == Apply(s, l).now && Apply(s, l).now >= s.lastPromotion + 50
    ensures !Promotes(s, l) ==> Apply(s, l).lastPromotion == s.lastPromotion
  {
  }

  /** n promotions take at least 50 (n - 1) ticks. */
  lemma {:induction false} PromotionsTake(run: seq<State>, ls: seq<Label>, j: nat, k: nat)
    requires IsRun(run, ls) && Inv(run[0]) && j <= k < |run|
    ensures run[k].now >= run[j].now
    ensures var n := PromotionsIn(run, ls, j, k);
            n > 0 ==> run[k].now >= run[k].lastPromotion >= run[j].now + 50 * (n - 1)
    decreases k
  {
    if j < k {
      PromotionsTake(run, ls, j, k - 1);
      RunInv(run, ls, k - 1);
      assert StepAt(run, ls, k - 1);
      ClockStep(run[k - 1], ls[k - 1]);
    }
  }

  /** A slot that no one lifts by hand climbs from the lowest level to the highest in no
      less than 50 ticks. */
  lemma ClimbTakes(run: seq<State>, ls: seq<Label>, i: nat, j: nat, k: nat)
    requires IsRun(run, ls) && Inv(run[0]) && j <= k < |run| && i < |run[0].table| && i < |run[j].table| && i < |run[k].table|
    requires forall m: nat :: j <= m < k ==> !Sets(ls[m], i)
    requires run[j].table[i].priority == 0 && run[k].table[i].priority == 2
    ensures run[k].now >= run[j].now + 50
  {
    PromotionsLift(run, ls, i, j, k);
    PromotionsTake(run, ls, j, k);
  }

  /** The ticks of a slot are those of its turns: no turn is charged twice, and none is lost. */
  lemma {:induction false} TicksAre(run: seq<State>, ls: seq<Label>, i: nat, j: nat, k: nat)
    requires IsRun(run, ls) && Inv(run[0]) && j <= k < |run| && i < |run[0].table|
    ensures i < |run[k].table| == |run[j].table|
    ensures run[k].table[i].ticks == run[j].table[i].ticks + RanIn(run, ls, i, j, k)
    decreases k
  {
    SameSize(run, ls, k);
    SameSize(run, ls, j);
    if j < k {
      TicksAre(run, ls, i, j, k - 1);
      RunInv(run, ls, k - 1);
      assert StepAt(run, ls, k - 1);
      SameSize(run, ls, k - 1);
      CountStep(run[k - 1], ls[k - 1], i);
    }
  }

  /** The last dispatch by CPU c before step k, or -1. */
  function LastStart(run: seq<State>, ls: seq<Label>, c: nat, k: nat): (a: int)
    requires k <= |ls| <= |run|
    ensures -1 <= a < k && (a >= 0 ==> Launches(run[a], ls[a], c))
    ensures forall m: nat :: a < m < k ==> !Launches(run[m], ls[m], c)
  {
    if k == 0 then -1 else if Launches(run[k - 1], ls[k - 1], c) then k - 1 else LastStart(run, ls, c, k - 1)
  }

  predicate Launches(s: State, l: Label, c: nat) { l == Visit(c) && c < |s.cpus| && Starts(s, l, s.cpus[c].i) }

  lemma WaitStep(s: State, l: Label, c: nat)
    requires Inv(s) && Enabled(s, l) && c < |s.cpus|
    ensures |Apply(s, l).cpus| == |s.cpus|
    ensures Launches(s, l, c) ==> Apply(s, l).cpus[c].mode.Waiting? && Apply(s, l).cpus[c].since == s.now && Apply(s, l).cpus[c].i == s.cpus[c].i
    ensures !Launches(s, l, c) && Apply(s, l).cpus[c].mode.Waiting? ==> Apply(s, l).cpus[c] == s.cpus[c]
  {
  }

  /** A turn lasts from its dispatch to its return: the ticks charged are the ticks that
      passed in between, to the same slot. */
  lemma {:induction false} TurnLasts(run: seq<State>, ls: seq<Label>, c: nat, k: nat)
    requires IsRun(run, ls) && Inv(run[0]) && k < |run| && c < |run[0].cpus| && !run[0].cpus[c].mode.Waiting?
    ensures |run[k].cpus| == |run[0].cpus|
    ensures run[k].cpus[c].mode.Waiting? ==>
              var a := LastStart(run, ls, c, k);
              a >= 0 && c < |run[a].cpus| && run[k].cpus[c].i == run[a].cpus[c].i && run[k].cpus[c].since == run[a].now
  {
    if k > 0 {
      var j: nat := k - 1;
      TurnLasts(run, ls, c, j);
      RunInv(run, ls, j);
      assert StepAt(run, ls, j) && run[j + 1] == run[k];
      WaitStep(run[j], ls[j], c);
    }
  }
}

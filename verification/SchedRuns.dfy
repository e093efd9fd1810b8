/** What the scheduler of lab2/proc.c does over whole runs: which level a CPU serves,
    and how much a process runs before it is demoted.  Everything is said about the
    steps of the run. */
module SchedRuns {
  import opened SchedMachine
  import opened SchedProofs

  lemma {:induction false} SameSize(run: seq<State>, ls: seq<Label>, k: nat)
    requires IsRun(run, ls) && k < |run|
    ensures |run[k].cpus| == |run[0].cpus| && |run[k].table| == |run[0].table|
  {
    if k > 0 {
      SameSize(run, ls, k - 1);
      assert StepAt(run, ls, k - 1);
    }
  }

  // ------------------------------------------------------------------
  // Levels given up
  // ------------------------------------------------------------------

  /** CPU c reaches the end of the table without a process for level j. */
  predicate GivesUp(s: State, l: Label, c: nat, j: int)
  {
    l == EndScan(c) && c < |s.cpus| && s.cpus[c].level == j && s.cpus[c].count == 0
  }

  /** The last step before k at which CPU c gave up level j, or -1. */
  function GaveUpAt(run: seq<State>, ls: seq<Label>, c: nat, j: int, k: nat): (g: int)
    requires k <= |ls| <= |run|
    ensures -1 <= g < k
    ensures g >= 0 ==> GivesUp(run[g], ls[g], c, j)
    ensures forall m: nat :: g < m < k ==> !GivesUp(run[m], ls[m], c, j)
  {
    if k == 0 then -1
    else if GivesUp(run[k - 1], ls[k - 1], c, j) then k - 1
    else GaveUpAt(run, ls, c, j, k - 1)
  }

  /** The level of a CPU in a pass starts at the top, and goes down only when the
      level is given up. */
  lemma LevelSteps(s: State, l: Label, c: nat, j: int)
    requires Inv(s) && Enabled(s, l) && c < |s.cpus| && j <= MAXPRIORITY
    requires !Apply(s, l).cpus[c].mode.Parked? && Apply(s, l).cpus[c].level < j
    ensures !s.cpus[c].mode.Parked? && l != StartPass(c)
    ensures s.cpus[c].level < j || GivesUp(s, l, c, j)
  {
  }

  /** In every run, a CPU that is at a level has given up every higher level in this
      same pass. */
  lemma {:induction false} HigherGivenUp(run: seq<State>, ls: seq<Label>, c: nat, j: int, k: nat)
    requires IsRun(run, ls) && Inv(run[0]) && c < |run[0].cpus| && run[0].cpus[c].mode.Parked?
    requires k < |run| && c < |run[k].cpus| && !run[k].cpus[c].mode.Parked? && run[k].cpus[c].level < j <= MAXPRIORITY
    ensures GaveUpAt(run, ls, c, j, k) >= 0
    ensures forall m: nat :: GaveUpAt(run, ls, c, j, k) <= m < k ==> ls[m] != StartPass(c)
  {
    var s, l := run[k - 1], ls[k - 1];
    SameSize(run, ls, k - 1);
    RunInv(run, ls, k - 1);
    assert StepAt(run, ls, k - 1);
    LevelSteps(s, l, c, j);
    if !GivesUp(s, l, c, j) {
      HigherGivenUp(run, ls, c, j, k - 1);
    }
  }

  /** A level is empty when it has just been given up. */
  lemma EmptyOnceGivenUp(run: seq<State>, ls: seq<Label>, c: nat, j: int, g: nat, q: nat)
    requires IsRun(run, ls) && Inv(run[0]) && g < |ls| && GivesUp(run[g], ls[g], c, j)
    ensures !Ready(run[g + 1].table, q, j)
  {
    RunInv(run, ls, g);
    assert StepAt(run, ls, g);
    GivenUpIsEmpty(run[g], c, q);
  }

  // ------------------------------------------------------------------
  // Who can run, from what happened
  // ------------------------------------------------------------------

  /** The process of CPU d comes back, and everyone is promoted after it. */
  predicate Promotes(s: State, l: Label) { l.Return? && s.promoteAt <= s.now + l.gap }

  /** Slot q of a process that CPU d gives back is charged, and perhaps promoted. */
  function LevelBack(s: State, d: nat, to: PState, gap: nat): int
    requires d < |s.cpus| && s.cpus[d].i < |s.table|
  {
    var p := Charge(s.table[s.cpus[d].i].(state := to), s.now - s.cpus[d].since);
    if s.promoteAt <= s.now + gap then Promote(p).priority else p.priority
  }

  /** The step brings slot q to level j: it is woken or forked there, setpriority
      moves it there, it comes back from a CPU there, or a promotion lifts it there. */
  predicate Arrives(s: State, l: Label, q: nat, j: int)
  {
    q < |s.table| &&
    match l
    case WakeUp(i) => i == q && s.table[q].priority == j
    case MakeReady(i) => i == q && s.table[q].priority == j
    case SetPriority(i, priority) => i == q && s.table[q].state == Runnable && priority == j
    case Return(d, to, gap, _) =>
      d < |s.cpus| && (if s.cpus[d].i == q then to == Runnable && LevelBack(s, d, to, gap) == j
                       else Promotes(s, l) && s.table[q].state == Runnable && Promote(s.table[q]).priority == j)
    case _ => false
  }

  /** The step takes slot q away from level j: a CPU dispatches it, setpriority moves
      it, or a promotion lifts it. */
  predicate Leaves(s: State, l: Label, q: nat, j: int)
  {
    match l
    case Visit(d) => d < |s.cpus| && s.cpus[d].i == q && s.cpus[d].level == j
    case SetPriority(i, priority) => i == q && priority != j
    case Return(_, _, _, _) => Promotes(s, l) && j < MAXPRIORITY
    case _ => false
  }

  /** One step: whoever can run at a level arrived there, or was there and did not leave. */
  lemma ReadyStep(s: State, l: Label, q: nat, j: int)
    requires Inv(s) && Enabled(s, l) && j <= MAXPRIORITY
    ensures Ready(Apply(s, l).table, q, j) <==> Arrives(s, l, q, j) || (Ready(s.table, q, j) && !Leaves(s, l, q, j))
  {
  }

  /** No step after m and before k takes slot q away from level j. */
  ghost predicate Stays(run: seq<State>, ls: seq<Label>, m: nat, k: nat, q: nat, j: int)
    requires k <= |ls| <= |run|
  {
    forall n: nat :: m < n < k ==> !Leaves(run[n], ls[n], q, j)
  }

  /** Slot q arrived at level j from step a on, and has not left since. */
  ghost predicate Came(run: seq<State>, ls: seq<Label>, a: nat, k: nat, q: nat, j: int)
    requires k <= |ls| <= |run|
  {
    exists m: nat :: a <= m < k && Arrives(run[m], ls[m], q, j) && Stays(run, ls, m, k, q, j)
  }

  lemma CameStep(run: seq<State>, ls: seq<Label>, a: nat, k: nat, q: nat, j: int)
    requires k < |ls| <= |run| && a <= k
    ensures Came(run, ls, a, k + 1, q, j) <==>
            Arrives(run[k], ls[k], q, j) || (Came(run, ls, a, k, q, j) && !Leaves(run[k], ls[k], q, j))
  {
    if Arrives(run[k], ls[k], q, j) {
      assert Stays(run, ls, k, k + 1, q, j);
    } else if Came(run, ls, a, k, q, j) && !Leaves(run[k], ls[k], q, j) {
      var m: nat :| a <= m < k && Arrives(run[m], ls[m], q, j) && Stays(run, ls, m, k, q, j);
      assert Stays(run, ls, m, k + 1, q, j);
    }
    if Came(run, ls, a, k + 1, q, j) && !Arrives(run[k], ls[k], q, j) {
      var m: nat :| a <= m < k + 1 && Arrives(run[m], ls[m], q, j) && Stays(run, ls, m, k + 1, q, j);
      assert m < k && Stays(run, ls, m, k, q, j) && !Leaves(run[k], ls[k], q, j);
    }
  }

  lemma ReadyNext(run: seq<State>, ls: seq<Label>, k: nat, q: nat, j: int)
    requires IsRun(run, ls) && Inv(run[0]) && k < |ls| && j <= MAXPRIORITY
    ensures Ready(run[k + 1].table, q, j) <==>
            Arrives(run[k], ls[k], q, j) || (Ready(run[k].table, q, j) && !Leaves(run[k], ls[k], q, j))
  {
    RunInv(run, ls, k);
    assert StepAt(run, ls, k);
    ReadyStep(run[k], ls[k], q, j);
  }

  /** Of a level that was empty, exactly those can run that have come since. */
  lemma {:induction false} ReadyIffCame(run: seq<State>, ls: seq<Label>, a: nat, k: nat, q: nat, j: int)
    requires IsRun(run, ls) && Inv(run[0]) && a <= k < |run| && j <= MAXPRIORITY
    requires !Ready(run[a].table, q, j)
    ensures Ready(run[k].table, q, j) <==> Came(run, ls, a, k, q, j)
    decreases k
  {
    if a < k {
      ReadyIffCame(run, ls, a, k - 1, q, j);
      ReadyNext(run, ls, k - 1, q, j);
      CameStep(run, ls, a, k - 1, q, j);
    }
  }

  // ------------------------------------------------------------------
  // When a dispatch takes the highest runnable priority
  // ------------------------------------------------------------------

  ghost predicate Dispatches(s: State, c: nat)
  {
    Enabled(s, Visit(c)) && Ready(s.table, s.cpus[c].i, s.cpus[c].level)
  }

  ghost predicate HighestRuns(s: State, c: nat)
    requires c < |s.cpus|
  {
    forall q: nat, j :: j > s.cpus[c].level ==> !Ready(s.table, q, j)
  }

  /** Slot q has come to level j since CPU c last gave it up, and is still there. */
  ghost predicate LateComer(run: seq<State>, ls: seq<Label>, c: nat, k: nat, q: nat, j: int)
    requires k <= |ls| <= |run|
  {
    Came(run, ls, GaveUpAt(run, ls, c, j, k) + 1, k, q, j)
  }

  lemma ReadyIsLate(run: seq<State>, ls: seq<Label>, c: nat, k: nat, q: nat, j: int)
    requires IsRun(run, ls) && Inv(run[0]) && c < |run[0].cpus| && run[0].cpus[c].mode.Parked?
    requires k < |run| && Dispatches(run[k], c) && run[k].cpus[c].level < j <= MAXPRIORITY
    ensures Ready(run[k].table, q, j) <==> LateComer(run, ls, c, k, q, j)
  {
    HigherGivenUp(run, ls, c, j, k);
    var g := GaveUpAt(run, ls, c, j, k);
    EmptyOnceGivenUp(run, ls, c, j, g, q);
    ReadyIffCame(run, ls, g + 1, k, q, j);
  }

  lemma ReadyInRange(t: Table, q: nat, j: int)
    requires TableOk(t) && Ready(t, q, j)
    ensures 0 <= j <= MAXPRIORITY
  {
  }

  /** In every run, from a state in which CPU c is between passes: its dispatch takes
      a process of the highest runnable priority if and only if, for every higher
      level, whoever came to it after c gave it up has left it again. */
  lemma HighestRunsIff(run: seq<State>, ls: seq<Label>, c: nat, k: nat)
    requires IsRun(run, ls) && Inv(run[0]) && c < |run[0].cpus| && run[0].cpus[c].mode.Parked?
    requires k < |run| && Dispatches(run[k], c)
    ensures HighestRuns(run[k], c) <==>
            forall q: nat, j :: run[k].cpus[c].level < j <= MAXPRIORITY ==> !LateComer(run, ls, c, k, q, j)
  {
    RunInv(run, ls, k);
    forall q: nat, j | run[k].cpus[c].level < j <= MAXPRIORITY
      ensures Ready(run[k].table, q, j) <==> LateComer(run, ls, c, k, q, j)
    {
      ReadyIsLate(run, ls, c, k, q, j);
    }
    forall q: nat, j | Ready(run[k].table, q, j) ensures j <= MAXPRIORITY { ReadyInRange(run[k].table, q, j); }
  }

  /** From the start of the pass, CPU c has the lock and has dispatched nobody. */
  ghost predicate Undisturbed(s: State, c: nat)
  {
    && c < |s.cpus| && s.cpus[c].mode.Scanning? && s.cpus[c].count == 0
    && forall q: nat, j :: j > s.cpus[c].level ==> !Ready(s.table, q, j)
  }

  /** While a CPU scans, nobody else can make a process runnable. */
  lemma UndisturbedStep(s: State, l: Label, c: nat)
    requires Inv(s) && Enabled(s, l) && Undisturbed(s, c) && !(l == Visit(c) && Dispatches(s, c))
    requires l != EndScan(c) || s.cpus[c].level > 0
    ensures Undisturbed(Apply(s, l), c)
  {
    var s' := Apply(s, l);
    assert PassOk(s.table, s.cpus[c]) && s.lock == c;
    forall q: nat, j | j > s'.cpus[c].level ensures !Ready(s'.table, q, j) {
      if j <= MAXPRIORITY {
        ReadyStep(s, l, q, j);
      } else {
        StepKeepsInv(s, l);
        assert q < |s'.table| ==> ProcOk(s'.table[q]);
      }
    }
  }

  lemma StartUndisturbed(s: State, c: nat)
    requires Inv(s) && Enabled(s, StartPass(c))
    ensures Undisturbed(Apply(s, StartPass(c)), c)
  {
    assert TableOk(s.table);
  }

  /** Steps a + 1 to k - 1 of the run neither dispatch on CPU c nor end its pass. */
  ghost predicate FirstSince(run: seq<State>, ls: seq<Label>, c: nat, a: nat, k: nat)
    requires k <= |ls| <= |run|
  {
    forall m: nat :: a < m < k ==>
      !(ls[m] == Visit(c) && Dispatches(run[m], c))
      && (ls[m] == EndScan(c) && c < |run[m].cpus| ==> run[m].cpus[c].level > 0)
  }

  lemma UndisturbedNext(run: seq<State>, ls: seq<Label>, c: nat, k: nat)
    requires IsRun(run, ls) && Inv(run[0]) && k < |ls| && Undisturbed(run[k], c)
    requires !(ls[k] == Visit(c) && Dispatches(run[k], c)) && (ls[k] == EndScan(c) ==> run[k].cpus[c].level > 0)
    ensures Undisturbed(run[k + 1], c)
  {
    RunInv(run, ls, k);
    assert StepAt(run, ls, k);
    UndisturbedStep(run[k], ls[k], c);
  }

  lemma {:induction false} UndisturbedRun(run: seq<State>, ls: seq<Label>, c: nat, a: nat, k: nat)
    requires IsRun(run, ls) && Inv(run[0]) && a < k < |run| && ls[a] == StartPass(c) && FirstSince(run, ls, c, a, k)
    ensures Undisturbed(run[k], c)
    decreases k
  {
    if k == a + 1 {
      assert StepAt(run, ls, a);
      RunInv(run, ls, a);
      StartUndisturbed(run[a], c);
    } else {
      UndisturbedRun(run, ls, c, a, k - 1);
      UndisturbedNext(run, ls, c, k - 1);
    }
  }

  /** The first dispatch of a pass always takes the highest runnable priority. */
  lemma FirstDispatchHighest(run: seq<State>, ls: seq<Label>, c: nat, a: nat, k: nat)
    requires IsRun(run, ls) && Inv(run[0]) && a < k < |run| && ls[a] == StartPass(c) && FirstSince(run, ls, c, a, k)
    requires Dispatches(run[k], c)
    ensures HighestRuns(run[k], c)
  {
    UndisturbedRun(run, ls, c, a, k);
  }

  // ------------------------------------------------------------------
  // A run in which it is not the highest
  // ------------------------------------------------------------------

  /** Three slots and one CPU, before the first promotion. */
  function At(a: Proc, b: Proc, c: Proc, cpu: Cpu, lock: int): State
  {
    State([a, b, c], 0, TICKS_TO_PROMOTE, 0, [cpu], lock)
  }

  /** A process that has run `n` times. */
  function Of(state: PState, pid: int, priority: int, n: int): Proc { Proc(state, pid, priority, DEFAULT_BUDGET, 1, n, 0) }

  ghost predicate Leads(run: seq<State>, ls: seq<Label>, s: State, t: State)
  {
    IsRun(run, ls) && run[0] == s && run[|ls|] == t
  }

  lemma LeadsOn(run: seq<State>, ls: seq<Label>, s: State, t: State, l: Label, u: State)
    returns (run': seq<State>, ls': seq<Label>)
    requires Leads(run, ls, s, t) && Follows(t, l, u)
    ensures Leads(run', ls', s, u)
  {
    run', ls' := run + [u], ls + [l];
    forall k | 0 <= k < |ls'| ensures StepAt(run', ls', k) {
      if k < |ls| { assert StepAt(run, ls, k); }
    }
  }

  /** Slot i gets a process with this pid, which is runnable at level j. */
  lemma Born(run: seq<State>, ls: seq<Label>, s: State, t: State, i: nat, pid: int, j: int)
    returns (run': seq<State>, ls': seq<Label>)
    requires Leads(run, ls, s, t) && i < |t.table| && t.lock == FREE && 0 <= j <= MAXPRIORITY
    requires t.table[i] == Proc(Unused, 0, 0, 0, 0, 0, 0)
    ensures Leads(run', ls', s, t.(table := t.table[i := Of(Runnable, pid, j, 0)]))
  {
    var a := Put(t, i, Of(Embryo, pid, MAXPRIORITY, 0));
    run', ls' := LeadsOn(run, ls, s, t, Alloc(i, pid), a);
    var b := Put(t, i, Of(Runnable, pid, MAXPRIORITY, 0));
    assert b == Put(a, i, Of(Runnable, pid, MAXPRIORITY, 0));
    run', ls' := LeadsOn(run', ls', s, a, MakeReady(i), b);
    var c := Put(t, i, Of(Runnable, pid, j, 0));
    assert c == Put(b, i, Of(Runnable, pid, j, 0));
    run', ls' := LeadsOn(run', ls', s, b, SetPriority(i, j), c);
  }

  /** Two processes that setpriority has put at level 1, and one at level 2. */
  lemma ThreeBorn() returns (run: seq<State>, ls: seq<Label>)
    ensures Leads(run, ls, Boot(3, 1, 0), At(Of(Runnable, 1, 1, 0), Of(Runnable, 2, 1, 0), Of(Runnable, 3, 2, 0), PARKED, FREE))
  {
    var none, a, b, c := Proc(Unused, 0, 0, 0, 0, 0, 0), Of(Runnable, 1, 1, 0), Of(Runnable, 2, 1, 0), Of(Runnable, 3, 2, 0);
    var s := Boot(3, 1, 0);
    assert s == At(none, none, none, PARKED, FREE);
    run, ls := [s], [];
    run, ls := Born(run, ls, s, s, 0, 1, 1);
    assert [none, none, none][0 := a] == [a, none, none];
    run, ls := Born(run, ls, s, At(a, none, none, PARKED, FREE), 1, 2, 1);
    assert [a, none, none][1 := b] == [a, b, none];
    run, ls := Born(run, ls, s, At(a, b, none, PARKED, FREE), 2, 3, 2);
    assert [a, b, none][2 := c] == [a, b, c];
  }

  /** The CPU at slot i of a level, with or without a dispatch in this scan. */
  function Scans(level: int, i: nat, count: nat): Cpu { Cpu(Scanning, level, i, count, 0) }

  /** A slot that cannot run at the level is passed. */
  lemma Passes(a: Proc, b: Proc, c: Proc, level: int, i: nat, count: nat)
    requires i < 3 && !Ready([a, b, c], i, level)
    ensures Follows(At(a, b, c, Scans(level, i, count), 0), Visit(0), At(a, b, c, Scans(level, i + 1, count), 0))
  {
    var s := At(a, b, c, Scans(level, i, count), 0);
    assert s.cpus[0 := Scans(level, i + 1, count)] == [Scans(level, i + 1, count)];
  }

  /** Slot i is dispatched and goes to sleep at once; meanwhile slot 2 may wake. */
  lemma Turns(a: Proc, b: Proc, c: Proc, level: int, i: nat, t: seq<Proc>)
    requires i < 3 && Ready([a, b, c], i, level) && [a, b, c][i].budget == DEFAULT_BUDGET
    requires t == [a, b, c][i := [a, b, c][i].(state := Running, scheduled := [a, b, c][i].scheduled + 1)]
    ensures Follows(At(a, b, c, Scans(level, i, 0), 0), Visit(0), At(t[0], t[1], t[2], Cpu(Waiting, level, i, 1, 0), FREE))
    ensures Follows(At(t[0], t[1], t[2], Cpu(Waiting, level, i, 1, 0), FREE), Return(0, Sleeping, 0, 0),
                    State(t[i := t[i].(state := Sleeping)], 0, TICKS_TO_PROMOTE, 0, [Scans(level, i + 1, 1)], 0))
  {
    assert t == [t[0], t[1], t[2]];
    var s := At(a, b, c, Scans(level, i, 0), 0);
    assert s.cpus[0 := Cpu(Waiting, level, i, 1, 0)] == [Cpu(Waiting, level, i, 1, 0)];
    var u := At(t[0], t[1], t[2], Cpu(Waiting, level, i, 1, 0), FREE);
    assert u.cpus[0 := Scans(level, i + 1, 1)] == [Scans(level, i + 1, 1)];
  }

  /** The process of level 2 is dispatched and sleeps; the level is given up; the first of
      level 1 is dispatched. */
  lemma FirstRuns() returns (run: seq<State>, ls: seq<Label>)
    ensures Leads(run, ls, Boot(3, 1, 0),
                  At(Of(Running, 1, 1, 1), Of(Runnable, 2, 1, 0), Of(Sleeping, 3, 2, 1), Cpu(Waiting, 1, 0, 1, 0), FREE))
  {
    var s := Boot(3, 1, 0);
    var a, b, c, d := Of(Runnable, 1, 1, 0), Of(Runnable, 2, 1, 0), Of(Runnable, 3, 2, 0), Of(Sleeping, 3, 2, 1);
    run, ls := ThreeBorn();
    var t := At(a, b, c, PARKED, FREE);
    assert t.cpus[0 := Scans(2, 0, 0)] == [Scans(2, 0, 0)];
    run, ls := LeadsOn(run, ls, s, t, StartPass(0), At(a, b, c, Scans(2, 0, 0), 0));
    Passes(a, b, c, 2, 0, 0);
    run, ls := LeadsOn(run, ls, s, At(a, b, c, Scans(2, 0, 0), 0), Visit(0), At(a, b, c, Scans(2, 1, 0), 0));
    Passes(a, b, c, 2, 1, 0);
    run, ls := LeadsOn(run, ls, s, At(a, b, c, Scans(2, 1, 0), 0), Visit(0), At(a, b, c, Scans(2, 2, 0), 0));
    var r := Of(Running, 3, 2, 1);
    Turns(a, b, c, 2, 2, [a, b, r]);
    run, ls := LeadsOn(run, ls, s, At(a, b, c, Scans(2, 2, 0), 0), Visit(0), At(a, b, r, Cpu(Waiting, 2, 2, 1, 0), FREE));
    assert [a, b, r][2 := d] == [a, b, d];
    run, ls := LeadsOn(run, ls, s, At(a, b, r, Cpu(Waiting, 2, 2, 1, 0), FREE), Return(0, Sleeping, 0, 0), At(a, b, d, Scans(2, 3, 1), 0));
    run, ls := EmptyScan(run, ls, s, a, b, d);
    var f := Of(Running, 1, 1, 1);
    Turns(a, b, d, 1, 0, [f, b, d]);
    run, ls := LeadsOn(run, ls, s, At(a, b, d, Scans(1, 0, 0), 0), Visit(0), At(f, b, d, Cpu(Waiting, 1, 0, 1, 0), FREE));
  }

  /** Level 2 is scanned again, in vain. */
  lemma EmptyScan(run: seq<State>, ls: seq<Label>, s: State, a: Proc, b: Proc, d: Proc)
    returns (run': seq<State>, ls': seq<Label>)
    requires Leads(run, ls, s, At(a, b, d, Scans(2, 3, 1), 0)) && a.priority == 1 && b.priority == 1 && d.state == Sleeping
    ensures Leads(run', ls', s, At(a, b, d, Scans(1, 0, 0), 0))
  {
    var t := At(a, b, d, Scans(2, 3, 1), 0);
    assert t.cpus[0 := Scans(2, 0, 0)] == [Scans(2, 0, 0)];
    run', ls' := LeadsOn(run, ls, s, t, EndScan(0), At(a, b, d, Scans(2, 0, 0), 0));
    Passes(a, b, d, 2, 0, 0);
    run', ls' := LeadsOn(run', ls', s, At(a, b, d, Scans(2, 0, 0), 0), Visit(0), At(a, b, d, Scans(2, 1, 0), 0));
    Passes(a, b, d, 2, 1, 0);
    run', ls' := LeadsOn(run', ls', s, At(a, b, d, Scans(2, 1, 0), 0), Visit(0), At(a, b, d, Scans(2, 2, 0), 0));
    Passes(a, b, d, 2, 2, 0);
    run', ls' := LeadsOn(run', ls', s, At(a, b, d, Scans(2, 2, 0), 0), Visit(0), At(a, b, d, Scans(2, 3, 0), 0));
    var u := At(a, b, d, Scans(2, 3, 0), 0);
    assert u.cpus[0 := Scans(1, 0, 0)] == [Scans(1, 0, 0)];
    run', ls' := LeadsOn(run', ls', s, u, EndScan(0), At(a, b, d, Scans(1, 0, 0), 0));
  }

  /** A run from boot: the sleeper wakes while the first process of level 1 runs; the
      second is dispatched all the same. */
  lemma HighestNotAlwaysRun() returns (run: seq<State>, ls: seq<Label>)
    ensures IsRun(run, ls) && run[0] == Boot(3, 1, 0)
    ensures Dispatches(run[|ls|], 0) && !HighestRuns(run[|ls|], 0)
  {
    var s := Boot(3, 1, 0);
    var f, b, d, w := Of(Running, 1, 1, 1), Of(Runnable, 2, 1, 0), Of(Sleeping, 3, 2, 1), Of(Runnable, 3, 2, 1);
    run, ls := FirstRuns();
    var cpu := Cpu(Waiting, 1, 0, 1, 0);
    assert [f, b, d][2 := w] == [f, b, w];
    run, ls := LeadsOn(run, ls, s, At(f, b, d, cpu, FREE), WakeUp(2), At(f, b, w, cpu, FREE));
    Turns(Of(Runnable, 1, 1, 0), b, w, 1, 0, [f, b, w]);
    var g := Of(Sleeping, 1, 1, 1);
    assert [f, b, w][0 := g] == [g, b, w];
    run, ls := LeadsOn(run, ls, s, At(f, b, w, cpu, FREE), Return(0, Sleeping, 0, 0), At(g, b, w, Scans(1, 1, 1), 0));
    assert Ready([g, b, w], 2, 2);
  }

  // ------------------------------------------------------------------
  // Demotion
  // ------------------------------------------------------------------

  /** The step gives back the process in slot i. */
  predicate Returns(s: State, l: Label, i: nat) { l.Return? && l.c < |s.cpus| && s.cpus[l.c].i == i }

  /** The ticks that the process in slot i ran, as the step ends its turn. */
  function Ran(s: State, l: Label, i: nat): int
  {
    if Returns(s, l, i) then s.now - s.cpus[l.c].since else 0
  }

  /** The ticks that slot i ran in the turns that steps j to k - 1 end. */
  function RanIn(run: seq<State>, ls: seq<Label>, i: nat, j: nat, k: nat): int
    requires j <= k <= |ls| <= |run|
  {
    if j == k then 0 else RanIn(run, ls, i, j, k - 1) + Ran(run[k - 1], ls[k - 1], i)
  }

  /** The step gives slot i a new budget: it is allocated, its priority is set, it is
      promoted, or it comes back with nothing left. */
  predicate Refills(s: State, l: Label, i: nat)
  {
    i < |s.table| &&
    match l
    case Alloc(q, _) => q == i
    case SetPriority(q, _) => q == i
    case Return(d, to, _, _) =>
      d < |s.cpus| && s.cpus[d].i < |s.table| &&
      var p := if s.cpus[d].i == i then Charge(s.table[i].(state := to), s.now - s.cpus[d].since) else s.table[i];
      (s.cpus[d].i == i && s.table[i].budget <= Ran(s, l, i)) || (Promotes(s, l) && Promote(p) != p)
    case _ => false
  }

  /** The step after the last refill of slot i before step k, or 0. */
  function LastRefill(run: seq<State>, ls: seq<Label>, i: nat, k: nat): (j: nat)
    requires k <= |ls| <= |run|
    ensures j <= k && (j > 0 ==> Refills(run[j - 1], ls[j - 1], i))
    ensures forall m: nat :: j <= m < k ==> !Refills(run[m], ls[m], i)
  {
    if k == 0 then 0 else if Refills(run[k - 1], ls[k - 1], i) then k else LastRefill(run, ls, i, k - 1)
  }

  lemma BudgetStep(s: State, l: Label, i: nat)
    requires Inv(s) && Enabled(s, l) && i < |s.table|
    ensures Apply(s, l).table[i].budget ==
            if Refills(s, l, i) then DEFAULT_BUDGET else s.table[i].budget - Ran(s, l, i)
  {
  }

  lemma BudgetNext(run: seq<State>, ls: seq<Label>, i: nat, k: nat)
    requires IsRun(run, ls) && Inv(run[0]) && k < |ls| && i < |run[0].table|
    ensures i < |run[k].table| == |run[k + 1].table|
    ensures run[k + 1].table[i].budget ==
            if Refills(run[k], ls[k], i) then DEFAULT_BUDGET else run[k].table[i].budget - Ran(run[k], ls[k], i)
  {
    SameSize(run, ls, k);
    RunInv(run, ls, k);
    assert StepAt(run, ls, k);
    BudgetStep(run[k], ls[k], i);
  }

  /** Between refills the budget falls by the ticks run, over any number of turns. */
  lemma {:induction false} BudgetIs(run: seq<State>, ls: seq<Label>, i: nat, j: nat, k: nat)
    requires IsRun(run, ls) && Inv(run[0]) && j <= k < |run| && i < |run[0].table|
    requires forall m: nat :: j <= m < k ==> !Refills(run[m], ls[m], i)
    ensures i < |run[k].table| == |run[j].table|
    ensures run[k].table[i].budget == run[j].table[i].budget - RanIn(run, ls, i, j, k)
    decreases k
  {
    SameSize(run, ls, k);
    SameSize(run, ls, j);
    if j < k {
      BudgetIs(run, ls, i, j, k - 1);
      BudgetNext(run, ls, i, k - 1);
    }
  }

  /** The step lowers the priority of slot i, and not by setpriority. */
  predicate Demotes(s: State, l: Label, i: nat)
    requires Enabled(s, l) && i < |s.table|
  {
    !l.SetPriority? && Apply(s, l).table[i].priority < s.table[i].priority
  }

  lemma DemotesIff(s: State, l: Label, i: nat)
    requires Inv(s) && Enabled(s, l) && i < |s.table|
    ensures Demotes(s, l, i) <==>
            Returns(s, l, i) && s.table[i].budget <= Ran(s, l, i) && s.table[i].priority > 0
            && (s.promoteAt <= s.now + l.gap ==> l.to == Zombie)
  {
  }

  /** In every run, a step demotes slot i if and only if it ends a turn of its process,
      the turns since the last refill come to the whole budget, there is a lower level,
      and no promotion makes up for it in the same step. */
  lemma DemotionIff(run: seq<State>, ls: seq<Label>, i: nat, k: nat)
    requires IsRun(run, ls) && Inv(run[0]) && k < |ls| && i < |run[0].table|
    ensures Enabled(run[k], ls[k]) && i < |run[k].table|
    ensures var j := LastRefill(run, ls, i, k);
            && i < |run[j].table| && (j > 0 ==> run[j].table[i].budget == DEFAULT_BUDGET)
            && (Demotes(run[k], ls[k], i) <==>
                  Returns(run[k], ls[k], i) && RanIn(run, ls, i, j, k + 1) >= run[j].table[i].budget
                  && run[k].table[i].priority > 0 && (run[k].promoteAt <= run[k].now + ls[k].gap ==> ls[k].to == Zombie))
  {
    var j := LastRefill(run, ls, i, k);
    BudgetIs(run, ls, i, j, k);
    RunInv(run, ls, k);
    assert StepAt(run, ls, k);
    DemotesIff(run[k], ls[k], i);
    if j > 0 {
      BudgetNext(run, ls, i, j - 1);
    }
  }

  /** So a process is demoted only after it has run for DEFAULT_BUDGET ticks since its
      budget was last refilled, or for what it had left when the run began. */
  lemma DemotionNeedsBudget(run: seq<State>, ls: seq<Label>, i: nat, k: nat)
    requires IsRun(run, ls) && Inv(run[0]) && k < |ls| && i < |run[0].table|
    requires Enabled(run[k], ls[k]) && i < |run[k].table| && Demotes(run[k], ls[k], i)
    ensures var j := LastRefill(run, ls, i, k);
            RanIn(run, ls, i, j, k + 1) >= if j > 0 then DEFAULT_BUDGET else run[0].table[i].budget
  {
    DemotionIff(run, ls, i, k);
  }
}

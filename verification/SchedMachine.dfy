/** The multi-level feedback queue scheduler of lab2/proc.c on several CPUs, with
    the rest of the kernel around it, as a step machine.

    A step happens under ptable.lock, or is one of the few table writes that the
    kernel makes without it.  While a process runs, the lock is free and other
    steps interleave. */
module SchedMachine {

  const MAXPRIORITY: int := 2
  const DEFAULT_BUDGET: int := 5
  const TICKS_TO_PROMOTE: int := 50

  datatype PState = Unused | Embryo | Sleeping | Runnable | Running | Zombie

  /** struct proc, as far as scheduling goes. */
  datatype Proc = Proc(state: PState, pid: int, priority: int, budget: int, tickets: int,
                       scheduled: int, ticks: int)

  type Table = seq<Proc>

  function Live(p: Proc): bool { !p.state.Unused? }

  // ------------------------------------------------------------------
  // What the code does to the table
  // ------------------------------------------------------------------

  function Reset(p: Proc): Proc { p.(budget := DEFAULT_BUDGET) }

  /** adjustPriority, for one slot. */
  function Promote(p: Proc): Proc
  {
    if p.state != Zombie && p.priority < MAXPRIORITY then Reset(p).(priority := p.priority + 1) else p
  }

  function PromoteAll(t: Table): (r: Table)
    ensures |r| == |t|
  {
    seq(|t|, i requires 0 <= i < |t| => Promote(t[i]))
  }

  /** The code after swtch: charge the ticks, and demote or refill at the end of
      the budget. */
  function Charge(p: Proc, elapsed: int): Proc
  {
    var q := p.(ticks := p.ticks + elapsed, budget := p.budget - elapsed);
    if q.budget > 0 then q
    else if q.priority > 0 then Reset(q).(priority := q.priority - 1)
    else Reset(q)
  }

  /** allocproc. */
  function Fresh(p: Proc, pid: int): Proc
  {
    Reset(p).(state := Embryo, pid := pid, priority := MAXPRIORITY, tickets := 1, scheduled := 0)
  }

  // ------------------------------------------------------------------
  // The machine
  // ------------------------------------------------------------------

  datatype Mode = Parked | Scanning | Waiting

  /** One CPU in mlfqsched: between passes, scanning slot i at a level, or waiting
      for the process in slot i to give the CPU back, dispatched at time `since`. */
  datatype Cpu = Cpu(mode: Mode, level: int, i: nat, count: nat, since: int)

  const PARKED: Cpu := Cpu(Parked, 0, 0, 0, 0)

  const FREE: int := -1

  datatype State = State(table: Table, now: int, promoteAt: int, lastPromotion: int, cpus: seq<Cpu>, lock: int)

  datatype Label =
    | StartPass(c: nat)
    | Visit(c: nat)
    | EndScan(c: nat)
    | Return(c: nat, to: PState, gap: nat, later: nat)
    | Tick
    | Alloc(i: nat, pid: int)
    | ForkFails(i: nat)
    | ForkTickets(i: nat, parent: nat)
    | MakeReady(i: nat)
    | WakeUp(i: nat)
    | Reap(i: nat)
    | SetPriority(i: nat, priority: int)
    | SetTickets(i: nat, n: int)

  predicate Slot(s: State, i: nat) { i < |s.table| }

  predicate Enabled(s: State, l: Label)
  {
    match l
    case StartPass(c) => c < |s.cpus| && s.cpus[c].mode.Parked? && s.lock == FREE
    case Visit(c) => c < |s.cpus| && s.cpus[c].mode.Scanning? && s.cpus[c].i < |s.table|
    case EndScan(c) => c < |s.cpus| && s.cpus[c].mode.Scanning? && s.cpus[c].i == |s.table|
    case Return(c, to, _, _) =>
      c < |s.cpus| && s.cpus[c].mode.Waiting? && s.lock == FREE && s.cpus[c].i < |s.table|
      && (to == Runnable || to == Sleeping || to == Zombie)
    case Tick => true
    case Alloc(i, _) => Slot(s, i) && s.lock == FREE && s.table[i].state == Unused
    case ForkFails(i) => Slot(s, i) && s.table[i].state == Embryo
    case ForkTickets(i, parent) =>
      Slot(s, i) && Slot(s, parent) && s.table[i].state == Embryo && s.table[parent].state == Running
    case MakeReady(i) => Slot(s, i) && s.lock == FREE && s.table[i].state == Embryo
    case WakeUp(i) => Slot(s, i) && s.lock == FREE && s.table[i].state == Sleeping
    case Reap(i) => Slot(s, i) && s.lock == FREE && s.table[i].state == Zombie
    case SetPriority(i, priority) => Slot(s, i) && s.lock == FREE && 0 <= priority <= MAXPRIORITY
    case SetTickets(i, n) => Slot(s, i) && s.table[i].state == Running && n >= 1
  }

  function Put(s: State, i: nat, p: Proc): State
    requires Slot(s, i)
  {
    s.(table := s.table[i := p])
  }

  /** Slot q can run at level j. */
  predicate Ready(t: Table, q: nat, j: int) { q < |t| && t[q].state == Runnable && t[q].priority == j }

  /** Slot i has the level's priority and can run: dispatch it, else go on. */
  function DoVisit(s: State, c: nat): State
    requires Enabled(s, Visit(c))
  {
    var cpu := s.cpus[c];
    var p := s.table[cpu.i];
    if Ready(s.table, cpu.i, cpu.level) then
      var s' := Put(s, cpu.i, p.(state := Running, scheduled := p.scheduled + 1));
      s'.(lock := FREE,
          cpus := s'.cpus[c := s'.cpus[c].(mode := Waiting, count := cpu.count + 1, since := s.now)])
    else s.(cpus := s.cpus[c := cpu.(i := cpu.i + 1)])
  }

  /** The end of the table: an empty level is given up, another scanned again. */
  function DoEndScan(s: State, c: nat): State
    requires Enabled(s, EndScan(c))
  {
    var cpu := s.cpus[c];
    if cpu.count > 0 then s.(cpus := s.cpus[c := cpu.(i := 0, count := 0)])
    else if cpu.level == 0 then s.(lock := FREE, cpus := s.cpus[c := PARKED])
    else s.(cpus := s.cpus[c := cpu.(level := cpu.level - 1, i := 0)])
  }

  /** The process is back: charge it, and promote everyone when it is time.  The clock is
      read for the charge, `gap` ticks later for the test, and `later` ticks after that for
      the time of the next promotion. */
  function DoReturn(s: State, c: nat, to: PState, gap: nat, later: nat): State
    requires Enabled(s, Return(c, to, gap, later))
  {
    var cpu := s.cpus[c];
    var p := Charge(s.table[cpu.i].(state := to), s.now - cpu.since);
    var s1 := Put(s, cpu.i, p);
    var s2 := s1.(lock := c, cpus := s1.cpus[c := s1.cpus[c].(mode := Scanning, i := cpu.i + 1)]);
    if s.promoteAt <= s.now + gap then
      s2.(table := PromoteAll(s2.table), now := s.now + gap + later, lastPromotion := s.now + gap + later,
          promoteAt := s.now + gap + later + TICKS_TO_PROMOTE)
    else s2.(now := s.now + gap)
  }

  function Apply(s: State, l: Label): State
    requires Enabled(s, l)
  {
    match l
    case StartPass(c) => s.(lock := c, cpus := s.cpus[c := Cpu(Scanning, MAXPRIORITY, 0, 0, 0)])
    case Visit(c) => DoVisit(s, c)
    case EndScan(c) => DoEndScan(s, c)
    case Return(c, to, gap, later) => DoReturn(s, c, to, gap, later)
    case Tick => s.(now := s.now + 1)
    case Alloc(i, pid) => Put(s, i, Fresh(s.table[i], pid))
    case ForkFails(i) => Put(s, i, s.table[i].(state := Unused))
    case ForkTickets(i, parent) =>
      Put(s, i, s.table[i].(tickets := s.table[parent].tickets, scheduled := 0))
    case MakeReady(i) => Put(s, i, s.table[i].(state := Runnable))
    case WakeUp(i) => Put(s, i, s.table[i].(state := Runnable))
    case Reap(i) => Put(s, i, s.table[i].(state := Unused, pid := 0))
    case SetPriority(i, priority) => Put(s, i, Reset(s.table[i]).(priority := priority))
    case SetTickets(i, n) => Put(s, i, s.table[i].(tickets := n))
  }

  ghost predicate Follows(s: State, l: Label, s': State) { Enabled(s, l) && s' == Apply(s, l) }

  // ------------------------------------------------------------------
  // Invariant
  // ------------------------------------------------------------------

  /** Priorities are levels; a live process has budget left and at least one ticket. */
  predicate ProcOk(p: Proc)
  {
    && 0 <= p.priority <= MAXPRIORITY
    && (Live(p) ==> 1 <= p.budget <= DEFAULT_BUDGET && p.tickets >= 1)
  }

  predicate TableOk(t: Table) { forall i :: 0 <= i < |t| ==> ProcOk(t[i]) }

  /** With nobody dispatched in this scan, the slots seen hold no one for this level. */
  ghost predicate PassOk(t: Table, c: Cpu)
  {
    c.mode.Parked? || (
      && 0 <= c.level <= MAXPRIORITY && c.i <= |t| && (c.mode.Waiting? ==> c.count > 0)
      && (c.mode.Scanning? && c.count == 0 ==> forall q: nat :: q < c.i ==> !Ready(t, q, c.level)))
  }

  ghost predicate CpusOk(s: State)
  {
    && -1 <= s.lock < |s.cpus|
    && (forall c :: 0 <= c < |s.cpus| ==> PassOk(s.table, s.cpus[c]))
    && (forall c :: 0 <= c < |s.cpus| ==> (s.cpus[c].mode.Scanning? <==> s.lock == c))
    && (forall c :: 0 <= c < |s.cpus| && s.cpus[c].mode.Waiting? ==>
          s.cpus[c].i < |s.table| && s.table[s.cpus[c].i].state == Running && s.cpus[c].since <= s.now)
    && (forall c, d :: 0 <= c < d < |s.cpus| && s.cpus[c].mode.Waiting? && s.cpus[d].mode.Waiting? ==> s.cpus[c].i != s.cpus[d].i)
  }

  predicate ClockOk(s: State) { s.promoteAt == s.lastPromotion + TICKS_TO_PROMOTE }

  /** After userinit has set the first time of promotion: zeroed slots, idle CPUs. */
  function Boot(slots: nat, cpus: nat, now: int): State
  {
    State(seq(slots, _ => Proc(Unused, 0, 0, 0, 0, 0, 0)), now, now + TICKS_TO_PROMOTE, now,
          seq(cpus, _ => PARKED), FREE)
  }
}

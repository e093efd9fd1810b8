/** sleep and wakeup of lab2/proc.c, as steps of interleaved processes.

    A monitor is code that runs under one spinlock (`lk`) and calls sleep and
    wakeup there.  sleep takes ptable.lock, drops lk, marks the process SLEEPING
    and switches away; wakeup takes ptable.lock and makes the sleepers of a
    channel RUNNABLE.  Each of these is a step of its own, and any process may
    step next.  `StepKeepsInv` shows, for every monitor that keeps its books
    (`Disciplined`), that no wakeup is lost in any interleaving. */
module Monitor {

  /** What the code under the lock does next. */
  datatype Next<+B> = Go(b: B) | Sleep(c: int, b: B) | Wake(c: int, b: B) | Leave

  /** The code of a monitor over variables V with program points B.
      `body` is one action under the lock.  `cond(c, v)` is the condition under
      which a process may stay asleep on channel c; `owes(c, b)` says that a
      process at b will still call wakeup on c before it lets go of the lock;
      `local(v, b)` holds at b while the lock is held; at an `entry` point it holds
      whatever the variables are. */
  datatype Code<!V, !B> = Code(
    body: (V, B) -> (V, Next<B>),
    cond: (int, V) -> bool,
    owes: (int, B) -> bool,
    local: (V, B) -> bool,
    entry: B -> bool)

  datatype Stage<+B> =
    | Idle
    | Lock(b: B)             // spinning for lk
    | In(b: B)               // holds lk
    | Out                    // holds lk, about to release it
    | SleepTake(c: int, b: B)  // in sleep: holds lk, spinning for ptable.lock
    | SleepDrop(c: int, b: B)  // holds both, about to release lk
    | SleepMark(c: int, b: B)  // holds ptable.lock, about to become SLEEPING
    | SleepYield(c: int, b: B) // SLEEPING, holds ptable.lock until switched away
    | Asleep(c: int, b: B)     // SLEEPING
    | Ready(b: B)            // RUNNABLE again
    | Resumed(b: B)          // back in sleep, holds ptable.lock
    | WakeTake(c: int, b: B)   // in wakeup: holds lk, spinning for ptable.lock
    | WakeMark(c: int, b: B)   // holds both, about to scan the table
    | WakeDrop(b: B)         // holds both, about to release ptable.lock

  const FREE: int := -1
  const OUTSIDER: int := -2

  /** `lk` and `pt` name the holder of the monitor's lock and of ptable.lock. */
  datatype State<V, B> = State(v: V, lk: int, pt: int, st: seq<Stage<B>>)

  predicate HasLk<B>(t: Stage<B>)
  {
    t.In? || t.Out? || t.SleepTake? || t.SleepDrop? || t.WakeTake? || t.WakeMark? || t.WakeDrop?
  }

  predicate HasPt<B>(t: Stage<B>)
  {
    t.SleepDrop? || t.SleepMark? || t.SleepYield? || t.Resumed? || t.WakeMark? || t.WakeDrop?
  }

  /** Gone to sleep on c, or past the point of no return. */
  predicate Sleeping<B>(t: Stage<B>, c: int)
  {
    (t.SleepMark? || t.SleepYield? || t.Asleep?) && t.c == c
  }

  // ------------------------------------------------------------------
  // Steps
  // ------------------------------------------------------------------

  /** wakeup1. */
  function WakeAll<B>(st: seq<Stage<B>>, c: int): (r: seq<Stage<B>>)
    ensures |r| == |st|
  {
    seq(|st|, i requires 0 <= i < |st| => if st[i].Asleep? && st[i].c == c then Ready(st[i].b) else st[i])
  }

  ghost predicate CanStep<V, B>(m: Code<V, B>, s: State<V, B>, i: nat)
  {
    i < |s.st| &&
    match s.st[i]
    case Idle => false
    case Asleep(_, _) => false
    case Lock(_) => s.lk == FREE
    case SleepTake(_, _) => s.pt == FREE
    case WakeTake(_, _) => s.pt == FREE
    case Ready(_) => s.pt == FREE
    case _ => true
  }

  function StageOf<B>(next: Next<B>): Stage<B>
  {
    match next
    case Go(b) => In(b)
    case Sleep(c, b) => SleepTake(c, b)
    case Wake(c, b) => WakeTake(c, b)
    case Leave => Out
  }

  ghost function Step<V, B>(m: Code<V, B>, s: State<V, B>, i: nat): State<V, B>
    requires CanStep(m, s, i)
  {
    match s.st[i]
    case Lock(b) => s.(lk := i, st := s.st[i := In(b)])
    case In(b) =>
      var (v', next) := m.body(s.v, b);
      s.(v := v', st := s.st[i := StageOf(next)])
    case Out => s.(lk := FREE, st := s.st[i := Idle])
    case SleepTake(c, b) => s.(pt := i, st := s.st[i := SleepDrop(c, b)])
    case SleepDrop(c, b) => s.(lk := FREE, st := s.st[i := SleepMark(c, b)])
    case SleepMark(c, b) => s.(st := s.st[i := SleepYield(c, b)])
    case SleepYield(c, b) => s.(pt := FREE, st := s.st[i := Asleep(c, b)])
    case Ready(b) => s.(pt := i, st := s.st[i := Resumed(b)])
    case Resumed(b) => s.(pt := FREE, st := s.st[i := Lock(b)])
    case WakeTake(c, b) => s.(pt := i, st := s.st[i := WakeMark(c, b)])
    case WakeMark(c, b) => s.(st := WakeAll(s.st, c)[i := WakeDrop(b)])
    case WakeDrop(b) => s.(pt := FREE, st := s.st[i := In(b)])
  }

  /** A process calls into the monitor. */
  ghost predicate CanEnter<V, B>(m: Code<V, B>, s: State<V, B>, i: nat, b: B)
  {
    i < |s.st| && s.st[i].Idle? && m.entry(b)
  }

  ghost function Enter<V, B>(s: State<V, B>, i: nat, b: B): State<V, B>
    requires i < |s.st|
  {
    s.(st := s.st[i := Lock(b)])
  }

  /** Other code of the kernel takes or drops ptable.lock. */
  ghost predicate Outside<V(!new), B(!new)>(s: State<V, B>, s': State<V, B>)
  {
    (s.pt == FREE && s' == s.(pt := OUTSIDER)) || (s.pt == OUTSIDER && s' == s.(pt := FREE))
  }

  ghost predicate Next1<V(!new), B(!new)>(m: Code<V, B>, s: State<V, B>, s': State<V, B>)
  {
    || (exists i: nat :: CanStep(m, s, i) && s' == Step(m, s, i))
    || (exists i: nat, b :: CanEnter(m, s, i, b) && s' == Enter(s, i, b))
    || Outside(s, s')
  }

  // ------------------------------------------------------------------
  // Discipline and invariant
  // ------------------------------------------------------------------

  /** The holder of the lock will still call wakeup on c. */
  ghost predicate WillWake<V, B>(m: Code<V, B>, t: Stage<B>, c: int)
  {
    match t
    case In(b) => m.owes(c, b)
    case WakeTake(c', b) => c == c' || m.owes(c, b)
    case WakeMark(c', b) => c == c' || m.owes(c, b)
    case WakeDrop(b) => m.owes(c, b)
    case _ => false
  }

  ghost predicate StageOk<V, B>(m: Code<V, B>, v: V, t: Stage<B>)
  {
    match t
    case Lock(b) => m.entry(b)
    case In(b) => m.local(v, b)
    case SleepTake(c, b) => m.cond(c, v) && m.entry(b)
    case SleepDrop(c, b) => m.cond(c, v) && m.entry(b)
    case SleepMark(_, b) => m.entry(b)
    case SleepYield(_, b) => m.entry(b)
    case Asleep(_, b) => m.entry(b)
    case Ready(b) => m.entry(b)
    case Resumed(b) => m.entry(b)
    case WakeTake(_, b) => m.local(v, b)
    case WakeMark(_, b) => m.local(v, b)
    case WakeDrop(b) => m.local(v, b)
    case _ => true
  }

  /** An action that may leave channel c without its condition makes the process
      owe a wakeup on c; debts are paid before the lock is let go. */
  ghost predicate DisciplinedAt<V(!new), B(!new)>(m: Code<V, B>, v: V, b: B)
  {
    var (v', next) := m.body(v, b);
    && (forall c :: (m.owes(c, b) || m.cond(c, v)) && !m.cond(c, v') ==> WillWake(m, StageOf(next), c))
    && StageOk(m, v', StageOf(next))
  }

  ghost predicate Disciplined<V(!new), B(!new)>(m: Code<V, B>)
  {
    (forall v, b :: m.local(v, b) ==> DisciplinedAt(m, v, b)) && EntriesOk(m)
  }

  ghost predicate EntriesOk<V(!new), B(!new)>(m: Code<V, B>) { forall v, b :: m.entry(b) ==> m.local(v, b) }

  /** Each lock has the holder it names, and no other. */
  ghost predicate Locks<V, B>(s: State<V, B>)
  {
    && -1 <= s.lk < |s.st| && -2 <= s.pt < |s.st|
    && (forall i :: 0 <= i < |s.st| ==> (HasLk(s.st[i]) <==> s.lk == i))
    && (forall i :: 0 <= i < |s.st| ==> (HasPt(s.st[i]) <==> s.pt == i))
  }

  /** A sleeper's condition holds, or its wakeup is under way. */
  ghost predicate NoneLost<V, B>(m: Code<V, B>, s: State<V, B>)
    requires -1 <= s.lk < |s.st|
  {
    forall i, c :: 0 <= i < |s.st| && Sleeping(s.st[i], c) ==>
      m.cond(c, s.v) || (s.lk != FREE && WillWake(m, s.st[s.lk], c))
  }

  ghost predicate Inv<V, B>(m: Code<V, B>, s: State<V, B>)
  {
    && Locks(s)
    && (forall i :: 0 <= i < |s.st| ==> StageOk(m, s.v, s.st[i]))
    && NoneLost(m, s)
  }
}

/** The table loops of lab2/proc.c that the scheduler machine abstracts: setpriority,
    adjustPriority, the scan of mlfqsched up to its next dispatch, and the code
    after swtch. */
module Sched {
  import opened SchedMachine

  /** p is the first slot of t that has the pid. */
  ghost predicate FirstWithPid(t: Table, pid: int, p: nat)
  {
    p < |t| && t[p].pid == pid && forall q :: 0 <= q < p ==> t[q].pid != pid
  }

  class PTable {
    const proc: array<Proc>
    var promoteAt: int
    ghost var lastPromotion: int

    /** setpriority.  An unknown pid or a priority that is no level changes nothing. */
    method SetPriority(pid: int, priority: int) returns (r: int, ghost p: nat)
      modifies proc
      ensures r == 0 <==> 0 <= priority <= MAXPRIORITY && exists q :: 0 <= q < proc.Length && old(proc[q].pid) == pid
      ensures r == 0 || (r == -1 && proc[..] == old(proc[..]))
      ensures r == 0 ==> FirstWithPid(old(proc[..]), pid, p)
                         && proc[..] == old(proc[..])[p := old(proc[..])[p].(budget := 5, priority := priority)]
    {
      p := 0;
      if priority < 0 || priority > MAXPRIORITY {
        return -1, 0;
      }
      var i := 0;
      while i < proc.Length
        invariant 0 <= i <= proc.Length && proc[..] == old(proc[..])
        invariant forall q :: 0 <= q < i ==> proc[q].pid != pid
      {
        if proc[i].pid == pid {
          proc[i] := Reset(proc[i]).(priority := priority);
          return 0, i;
        }
        i := i + 1;
      }
      r := -1;
    }

    /** adjustPriority: its parameter is overwritten, so every slot is visited.  One that is
        no zombie and below the top goes up one level with a new budget. */
    method AdjustPriority()
      modifies proc
      ensures proc[..] == PromoteAll(old(proc[..]))
      ensures forall k :: 0 <= k < proc.Length ==>
                proc[k] == if old(proc[k].state) != Zombie && old(proc[k].priority) < 2
                           then old(proc[k]).(priority := old(proc[k].priority) + 1, budget := 5) else old(proc[k])
    {
      for i := 0 to proc.Length
        invariant forall k :: 0 <= k < i ==> proc[k] == Promote(old(proc[k]))
        invariant forall k :: i <= k < proc.Length ==> proc[k] == old(proc[k])
      {
        if proc[i].state != Zombie {
          if proc[i].priority < MAXPRIORITY {
            proc[i] := Reset(proc[i]).(priority := proc[i].priority + 1);
          }
        }
      }
    }

    /** The inner loop of mlfqsched from slot `from` to its next dispatch, or to the
        end of the table. */
    method NextAtLevel(level: int, from: nat) returns (i: nat)
      requires from <= proc.Length
      ensures from <= i <= proc.Length
      ensures i < proc.Length ==> proc[i].state == Runnable && proc[i].priority == level
      ensures forall q :: from <= q < i ==> !(proc[q].state == Runnable && proc[q].priority == level)
    {
      i := from;
      while i < proc.Length
        invariant from <= i <= proc.Length
        invariant forall q :: from <= q < i ==> !(proc[q].state == Runnable && proc[q].priority == level)
      {
        if proc[i].state == Runnable {
          if proc[i].priority == level {
            return;
          }
        }
        i := i + 1;
      }
    }

    /** The code of mlfqsched after swtch: charge slot i for the time it ran, demote
        it or refill its budget at the end, and promote everyone when it is time.
        `now` and `later` are the two readings of the clock at the promotion. */
    method AfterSwitch(i: nat, timeIn: int, timeOut: int, now: int, later: int)
      requires i < proc.Length
      modifies proc, this
      ensures var charged := old(proc[..])[i := Charge(old(proc[i]), timeOut - timeIn)];
              proc[..] == if old(promoteAt) <= now then PromoteAll(charged) else charged
      ensures promoteAt == if old(promoteAt) <= now then later + TICKS_TO_PROMOTE else old(promoteAt)
      ensures lastPromotion == if old(promoteAt) <= now then later else old(lastPromotion)
      ensures proc[i].ticks == old(proc[i].ticks) + (timeOut - timeIn)
      ensures var level := old(proc[i].priority) - (if old(proc[i].budget) <= timeOut - timeIn && old(proc[i].priority) > 0 then 1 else 0);
              proc[i].priority == level + if old(promoteAt) <= now && old(proc[i].state) != Zombie && level < 2 then 1 else 0
      ensures forall k :: 0 <= k < proc.Length && k != i ==>
                proc[k].priority == old(proc[k].priority)
                  + if old(promoteAt) <= now && old(proc[k].state) != Zombie && old(proc[k].priority) < 2 then 1 else 0
    {
      var elapsed := timeOut - timeIn;
      var p := proc[i];
      p := p.(ticks := p.ticks + elapsed, budget := p.budget - elapsed);
      if p.budget <= 0 {
        if p.priority > 0 {
          p := Reset(p).(priority := p.priority - 1);
        } else {
          p := Reset(p);
        }
      }
      proc[i] := p;
      if promoteAt <= now {
        AdjustPriority();
        promoteAt := later + TICKS_TO_PROMOTE;
        lastPromotion := later;
      }
    }

    /** allocproc, up to the release of the lock: the first unused slot, or none. */
    method AllocProc(pid: int) returns (found: bool, i: nat)
      modifies proc
      ensures found <==> exists q :: 0 <= q < proc.Length && old(proc[q].state) == Unused
      ensures found ==> i < proc.Length && old(proc[i].state) == Unused
                        && (forall q :: 0 <= q < i ==> old(proc[q].state) != Unused)
                        && proc[..] == old(proc[..])[i := Fresh(old(proc[i]), pid)]
                        && proc[i] == Proc(Embryo, pid, 2, 5, 1, 0, old(proc[i].ticks))
      ensures !found ==> proc[..] == old(proc[..])
    {
      i := 0;
      while i < proc.Length
        invariant 0 <= i <= proc.Length && proc[..] == old(proc[..])
        invariant forall q :: 0 <= q < i ==> proc[q].state != Unused
      {
        if proc[i].state == Unused {
          proc[i] := Fresh(proc[i], pid);
          return true, i;
        }
        i := i + 1;
      }
      found := false;
    }
  }

  /** The scan, slot by slot in the machine: without a dispatch the machine's Visit
      steps lead to the slot that NextAtLevel returns. */
  lemma {:induction false} VisitsReach(s: State, c: nat, to: int) returns (s': State)
    requires c < |s.cpus| && s.cpus[c].mode.Scanning? && s.cpus[c].i <= to <= |s.table|
    requires forall q :: s.cpus[c].i <= q < to ==>
               !(s.table[q].state == Runnable && s.table[q].priority == s.cpus[c].level)
    ensures s' == s.(cpus := s.cpus[c := s.cpus[c].(i := to)]) && Visits(s, c, s')
    decreases |s.table| - s.cpus[c].i
  {
    if s.cpus[c].i == to {
      s' := s;
    } else {
      var t := Apply(s, Visit(c));
      assert t == s.(cpus := s.cpus[c := s.cpus[c].(i := s.cpus[c].i + 1)]);
      s' := VisitsReach(t, c, to);
    }
  }

  /** s' is reached from s by Visit steps of CPU c alone. */
  ghost predicate Visits(s: State, c: nat, s': State)
    requires c < |s.cpus|
    decreases |s.table| - s.cpus[c].i
  {
    s' == s || (Enabled(s, Visit(c)) && s.cpus[c].i < |s.table|
                && Apply(s, Visit(c)) == s.(cpus := s.cpus[c := s.cpus[c].(i := s.cpus[c].i + 1)])
                && Visits(Apply(s, Visit(c)), c, s'))
  }
}

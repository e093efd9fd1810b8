/** The lottery scheduler of lab2/proc.c: a ticket drawn from 1..total picks one
    runnable process, in proportion to the tickets held. */
module Lottery {
  import opened Words
  import opened SchedMachine

  const INT_MAX: int := 0x7fff_ffff

  /** Signed 32-bit arithmetic. */
  function Wrap(x: int): (r: int)
    ensures -0x8000_0000 <= r <= INT_MAX && (r == x <==> -0x8000_0000 <= x <= INT_MAX)
  {
    (x + 0x8000_0000) % WRAP - 0x8000_0000
  }

  function Share(p: Proc): int { if p.state == Runnable then p.tickets else 0 }

  /** The tickets of the runnable processes in the first n slots. */
  function Sum(t: Table, n: nat): int
    requires n <= |t|
  {
    if n == 0 then 0 else Sum(t, n - 1) + Share(t[n - 1])
  }

  predicate TicketsOk(t: Table) { forall i :: 0 <= i < |t| && t[i].state == Runnable ==> 1 <= t[i].tickets <= INT_MAX }

  /** The ticket lies in the interval of tickets that slot i holds. */
  predicate Picks(t: Table, ticket: int, i: nat)
    requires i < |t|
  {
    t[i].state == Runnable && Sum(t, i) < ticket <= Sum(t, i + 1)
  }

  lemma {:induction false} SumMonotone(t: Table, i: nat, j: nat)
    requires TicketsOk(t) && i <= j <= |t|
    ensures 0 <= Sum(t, i) <= Sum(t, j)
    decreases j
  {
    if i < j {
      SumMonotone(t, i, j - 1);
    } else if i > 0 {
      SumMonotone(t, i - 1, j - 1);
    }
  }

  /** The counting scan; it is exact when the sum fits an int. */
  method CountTickets(t: Table) returns (total: int)
    requires TicketsOk(t)
    ensures total == Wrap(Sum(t, |t|))
    ensures total == Sum(t, |t|) <==> Sum(t, |t|) <= INT_MAX
  {
    total := 0;
    var i := 0;
    while i < |t|
      invariant 0 <= i <= |t| && total == Wrap(Sum(t, i))
    {
      if t[i].state == Runnable {
        total := Wrap(total + t[i].tickets);
      }
      i := i + 1;
    }
    SumMonotone(t, 0, |t|);
  }

  /** The selecting scan: the slot whose running total first reaches the ticket. */
  method PickSlot(t: Table, ticket: int) returns (i: nat)
    requires TicketsOk(t) && Sum(t, |t|) <= INT_MAX && 1 <= ticket
    ensures i < |t| <==> ticket <= Sum(t, |t|)
    ensures i < |t| ==> Picks(t, ticket, i)
  {
    var counter := 0;
    i := 0;
    while i < |t|
      invariant 0 <= i <= |t| && counter == Sum(t, i) < ticket
    {
      SumMonotone(t, i + 1, |t|);
      if t[i].state == Runnable {
        counter := Wrap(counter + t[i].tickets);
        if counter >= ticket {
          return;
        }
      }
      i := i + 1;
    }
  }

  /** Every ticket of 1..total picks a slot, and no other slot. */
  lemma ExactlyOnePick(t: Table, ticket: int) returns (i: nat)
    requires TicketsOk(t) && 1 <= ticket <= Sum(t, |t|)
    ensures i < |t| && Picks(t, ticket, i)
    ensures forall j: nat :: j < |t| && Picks(t, ticket, j) ==> j == i
  {
    i := FirstReaching(t, ticket, |t|);
    forall j: nat | j < |t| && Picks(t, ticket, j) ensures j == i {
      if j < i { SumMonotone(t, j + 1, i); }
      if i < j { SumMonotone(t, i + 1, j); }
    }
  }

  lemma {:induction false} FirstReaching(t: Table, ticket: int, n: nat) returns (i: nat)
    requires TicketsOk(t) && n <= |t| && 1 <= ticket <= Sum(t, n)
    ensures i < n && Picks(t, ticket, i)
    decreases n
  {
    if ticket <= Sum(t, n - 1) {
      i := FirstReaching(t, ticket, n - 1);
    } else {
      i := n - 1;
    }
  }

  /** The tickets in lo+1..hi. */
  function Interval(lo: int, hi: int): (r: set<int>)
    requires lo <= hi
    ensures forall x :: x in r <==> lo < x <= hi
    ensures |r| == hi - lo
    decreases hi - lo
  {
    if lo == hi then {} else Interval(lo, hi - 1) + {hi}
  }

  /** The tickets of 1..total that pick slot i. */
  ghost function Winning(t: Table, i: nat): set<int>
    requires i < |t| && Sum(t, |t|) >= 0
  {
    set x | x in Interval(0, Sum(t, |t|)) && Picks(t, x, i)
  }

  /** Proportionality: as many tickets pick a process as it holds. */
  lemma Proportional(t: Table, i: nat)
    requires TicketsOk(t) && i < |t|
    ensures Sum(t, |t|) >= 0 && |Winning(t, i)| == Share(t[i])
  {
    SumMonotone(t, 0, i);
    SumMonotone(t, i, i + 1);
    SumMonotone(t, i + 1, |t|);
    if t[i].state == Runnable {
      assert Winning(t, i) == Interval(Sum(t, i), Sum(t, i + 1));
    } else {
      assert Winning(t, i) == {};
    }
  }
}

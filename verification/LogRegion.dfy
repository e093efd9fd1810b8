/** When the log can outgrow its region on the disk.

    log_write tests log.size before it takes log.lock.  mkfs gives the region
    LOGSIZE blocks, one of them the header, so a log of LOGSIZE blocks does not
    fit.  `RegionSafeIff` says for which sizes the region always suffices. */
module LogRegion {
  import opened LogMachine
  import opened LogProofs

  /** A freshly recovered file system with n process slots. */
  ghost function Fresh(d: Disk, n: nat): State { State(d, [], map[], Running, AllIdle(n)) }

  ghost predicate Clean(L: Layout, d: Disk) { DiskOk(L, d) && HeadCount(d[L.start]) == 0 }

  lemma FreshInv(L: Layout, d: Disk, n: nat)
    requires Clean(L, d)
    ensures Inv(L, Fresh(d, n))
  {
    var s := Fresh(d, n);
    NoneOutstanding(s.ops);
    ReservedBounds(s.ops);
  }

  ghost predicate RegionSafe(L: Layout, d: Disk, n: nat)
  {
    forall ls :: Legal(L, Fresh(d, n), ls) ==> Fits(L, After(L, Fresh(d, n), ls))
  }

  lemma {:induction false} LegalConcat(L: Layout, s: State, a: seq<Label>, b: seq<Label>)
    requires Legal(L, s, a) && Legal(L, After(L, s, a), b)
    ensures Legal(L, s, a + b)
    ensures After(L, s, a + b) == After(L, After(L, s, a), b)
    decreases |a|
  {
    if a == [] {
      assert a + b == b;
    } else {
      assert (a + b)[1..] == a[1..] + b;
      LegalConcat(L, Apply(L, s, a[0]), a[1..], b);
    }
  }

  lemma OneMore(L: Layout, s: State, a: seq<Label>, l: Label)
    requires Legal(L, s, a) && Enabled(L, After(L, s, a), l)
    ensures Legal(L, s, a + [l])
    ensures After(L, s, a + [l]) == Apply(L, After(L, s, a), l)
  {
    var t := After(L, s, a);
    var u := Apply(L, t, l);
    assert [l][0] == l && [l][1..] == [];
    assert Legal(L, u, []) && After(L, u, []) == u;
    assert Legal(L, t, [l]) && After(L, t, [l]) == u;
    LegalConcat(L, s, a, [l]);
  }

  lemma {:induction false} FitsAtEnd(L: Layout, s: State, ls: seq<Label>)
    requires Legal(L, s, ls) && AllFit(L, s, ls)
    ensures Fits(L, After(L, s, ls))
    decreases |ls|
  {
    if ls != [] {
      FitsAtEnd(L, Apply(L, s, ls[0]), ls[1..]);
    }
  }

  // ------------------------------------------------------------------
  // Three operations that share out the whole log
  // ------------------------------------------------------------------

  /** The i-th home block. */
  function Nth(L: Layout, i: nat): int { if i < L.start then i else i + L.size }

  function FirstHomes(L: Layout, k: nat): seq<int> { seq(k, i requires 0 <= i => Nth(L, i)) }

  /** How many of k blocks, dealt out in turn, operation j has logged. */
  function Share(j: nat, k: nat): nat
    requires j < 3
  {
    (k + 2 - j) / 3
  }

  ghost predicate Filled(L: Layout, s: State, k: nat)
  {
    && s.phase == Running && s.lh == FirstHomes(L, k) && 3 <= |s.ops|
    && (forall j :: 0 <= j < |s.ops| ==> (s.ops[j].Active? <==> j < 3))
    && (forall j :: 0 <= j < 3 ==> s.ops[j].blocks <= set b | b in s.lh)
    && (forall j :: 0 <= j < 3 ==> |s.ops[j].blocks| <= Share(j, k))
  }

  /** The run in which three operations log k different blocks in turn. */
  lemma {:induction false} Fill(L: Layout, d: Disk, n: nat, k: nat, zero: Block) returns (ls: seq<Label>)
    requires Clean(L, d) && 3 <= n && k <= LOGSIZE && k <= L.size - 1 && L.size + LOGSIZE <= L.total
    ensures Legal(L, Fresh(d, n), ls) && Filled(L, After(L, Fresh(d, n), ls), k)
  {
    var s := Fresh(d, n);
    if k == 0 {
      ls := ThreeBegin(L, d, n);
    } else {
      var a := Fill(L, d, n, k - 1, zero);
      var t := After(L, s, a);
      ls := LogNext(L, t, k - 1, (k - 1) % 3, zero);
      LegalConcat(L, s, a, ls);
      ls := a + ls;
    }
  }

  lemma ThreeBegin(L: Layout, d: Disk, n: nat) returns (ls: seq<Label>)
    requires Clean(L, d) && 3 <= n
    ensures Legal(L, Fresh(d, n), ls) && Filled(L, After(L, Fresh(d, n), ls), 0)
  {
    var s := Fresh(d, n);
    var e := Active({}, false);
    NoneOutstanding(s.ops);
    ReservedUpdate(s.ops, 0, e);
    ReservedUpdate(s.ops[0 := e], 1, e);
    OneMore(L, s, [], Begin(0));
    OneMore(L, s, [] + [Begin(0)], Begin(1));
    OneMore(L, s, [] + [Begin(0)] + [Begin(1)], Begin(2));
    ls := [] + [Begin(0)] + [Begin(1)] + [Begin(2)];
  }

  /** Operation q tests for room and appends the next block. */
  lemma LogNext(L: Layout, t: State, k: nat, q: nat, zero: Block) returns (ls: seq<Label>)
    requires Filled(L, t, k) && q == k % 3
    requires k < LOGSIZE && k < L.size - 1 && L.size + LOGSIZE <= L.total
    ensures Legal(L, t, ls) && Filled(L, After(L, t, ls), k + 1)
  {
    var b := Nth(L, k);
    var l := Write(q, b, zero);
    NextHome(L, k);
    assert |t.ops[q].blocks + {b}| <= Share(q, k) + 1 == Share(q, k + 1) <= MAXOPBLOCKS;
    TwoSteps(L, t, Check(q), l);
    ls := [Check(q), l];
    FilledNext(L, t, k, q, b, After(L, t, ls));
  }

  lemma NextHome(L: Layout, k: nat)
    ensures Nth(L, k) !in FirstHomes(L, k) && FirstHomes(L, k) + [Nth(L, k)] == FirstHomes(L, k + 1)
  {
  }

  lemma FilledNext(L: Layout, t: State, k: nat, q: nat, b: int, u: State)
    requires Filled(L, t, k) && q == k % 3 && u.phase == Running && u.lh == t.lh + [b] == FirstHomes(L, k + 1)
    requires u.ops == t.ops[q := Active(t.ops[q].blocks + {b}, false)]
    ensures Filled(L, u, k + 1)
  {
    assert |t.ops[q].blocks + {b}| <= |t.ops[q].blocks| + 1;
    forall j | 0 <= j < 3 ensures u.ops[j].blocks <= (set c | c in u.lh) && |u.ops[j].blocks| <= Share(j, k + 1) {
    }
  }

  lemma TwoSteps(L: Layout, s: State, l: Label, m: Label)
    requires Enabled(L, s, l) && Enabled(L, Apply(L, s, l), m)
    ensures Legal(L, s, [l, m]) && After(L, s, [l, m]) == Apply(L, Apply(L, s, l), m)
  {
    OneMore(L, s, [], l);
    OneMore(L, s, [] + [l], m);
    assert [] + [l] + [m] == [l, m];
  }

  /** Two operations have passed the test of log_write and each may still add a block. */
  ghost predicate BothTested(L: Layout, s: State, k: nat)
  {
    && s.phase == Running && s.lh == FirstHomes(L, k) && 3 <= |s.ops|
    && forall j :: 1 <= j < 3 ==> s.ops[j].Active? && s.ops[j].mayLog && |s.ops[j].blocks| < MAXOPBLOCKS
  }

  lemma BothTest(L: Layout, t: State, k: nat)
    requires Filled(L, t, k) && k == L.size - 2 && L.size <= LOGSIZE
    ensures Legal(L, t, [Check(1), Check(2)]) && BothTested(L, After(L, t, [Check(1), Check(2)]), k)
  {
    assert RoomToLog(L, t);
    TwoSteps(L, t, Check(1), Check(2));
  }

  lemma BothAppend(L: Layout, t: State, k: nat, zero: Block) returns (ls: seq<Label>)
    requires BothTested(L, t, k) && k == L.size - 2
    requires L.size <= LOGSIZE && L.size + LOGSIZE <= L.total
    ensures Legal(L, t, ls) && !Fits(L, After(L, t, ls))
  {
    var w1, w2 := Write(1, Nth(L, k), zero), Write(2, Nth(L, k + 1), zero);
    assert |t.ops[1].blocks + {w1.b}| <= |t.ops[1].blocks| + 1;
    assert |t.ops[2].blocks + {w2.b}| <= |t.ops[2].blocks| + 1;
    assert w1.b !in t.lh && w2.b !in t.lh;
    TwoSteps(L, t, w1, w2);
    ls := [w1, w2];
  }

  /** The race: with size - 2 blocks logged, two operations both pass the test,
      then both append. */
  lemma Overflows(L: Layout, d: Disk, n: nat) returns (ls: seq<Label>)
    requires Clean(L, d) && 3 <= n && L.size <= LOGSIZE && L.size + LOGSIZE <= L.total
    ensures Legal(L, Fresh(d, n), ls) && !Fits(L, After(L, Fresh(d, n), ls))
  {
    var s := Fresh(d, n);
    var a := Fill(L, d, n, L.size - 2, d[L.start]);
    var t := After(L, s, a);
    var both := [Check(1), Check(2)];
    BothTest(L, t, L.size - 2);
    ls := BothAppend(L, After(L, t, both), L.size - 2, d[L.start]);
    LegalConcat(L, t, both, ls);
    LegalConcat(L, s, a, both + ls);
    ls := a + (both + ls);
  }

  /** The region always suffices exactly when it has more than LOGSIZE blocks;
      the LOGSIZE blocks that mkfs gives it are one too few. */
  lemma RegionSafeIff(L: Layout, d: Disk, n: nat)
    requires Clean(L, d) && 3 <= n && L.size + LOGSIZE <= L.total
    ensures RegionSafe(L, d, n) <==> L.size > LOGSIZE
  {
    var s := Fresh(d, n);
    if L.size > LOGSIZE {
      forall ls | Legal(L, s, ls) ensures Fits(L, After(L, s, ls)) {
        FreshInv(L, d, n);
        LargeRegionFits(L, s, ls);
        FitsAtEnd(L, s, ls);
      }
    } else {
      var ls := Overflows(L, d, n);
    }
  }

  // ------------------------------------------------------------------
  // The panics of log_write
  // ------------------------------------------------------------------

  /** An operation with some of its reservation left finds no room. */
  ghost predicate RefusedEarly(L: Layout, s: State, p: nat)
  {
    p < |s.ops| && s.ops[p].Active? && |s.ops[p].blocks| < MAXOPBLOCKS && !RoomToLog(L, s)
  }

  ghost predicate NeverRefused(L: Layout, d: Disk, n: nat)
  {
    forall ls, p: nat :: Legal(L, Fresh(d, n), ls) ==> !RefusedEarly(L, After(L, Fresh(d, n), ls), p)
  }

  /** In a region of at most LOGSIZE blocks, three operations fill it, and one of them
      is refused before it has spent its reservation. */
  lemma RefusedInSmall(L: Layout, d: Disk, n: nat) returns (ls: seq<Label>)
    requires Clean(L, d) && 3 <= n && L.size <= LOGSIZE && L.size + LOGSIZE <= L.total
    ensures Legal(L, Fresh(d, n), ls) && RefusedEarly(L, After(L, Fresh(d, n), ls), 2)
  {
    ls := Fill(L, d, n, L.size - 1, d[L.start]);
    assert Share(2, L.size - 1) < MAXOPBLOCKS;
  }

  /** No operation is refused in any run while it has reservation left, exactly when the
      region has more than LOGSIZE blocks. */
  lemma NeverRefusedIff(L: Layout, d: Disk, n: nat)
    requires Clean(L, d) && 3 <= n && L.size + LOGSIZE <= L.total
    ensures NeverRefused(L, d, n) <==> L.size > LOGSIZE
  {
    var s := Fresh(d, n);
    if L.size > LOGSIZE {
      forall ls, p: nat | Legal(L, s, ls) ensures !RefusedEarly(L, After(L, s, ls), p) {
        FreshInv(L, d, n);
        LargeRegionFits(L, s, ls);
        RunRefines(L, s, ls);
        if RefusedEarly(L, After(L, s, ls), p) { RefusedOnlyWhenSpent(L, After(L, s, ls), p); }
      }
    } else {
      var ls := RefusedInSmall(L, d, n);
    }
  }

  /** With a large enough region, log_write refuses only when every outstanding
      operation has used its whole reservation. */
  lemma RefusedOnlyWhenSpent(L: Layout, s: State, p: nat)
    requires Inv(L, s) && L.size > LOGSIZE && p < |s.ops| && s.ops[p].Active?
    requires !RoomToLog(L, s)
    ensures |s.ops[p].blocks| == MAXOPBLOCKS
  {
    ReservedBounds(s.ops);
  }

  /** It does refuse then, although a rewrite of a logged block needs no room:
      some run reaches such a state in regions of every size. */
  lemma AbsorbedWriteRefused(L: Layout, d: Disk, n: nat) returns (ls: seq<Label>)
    requires Clean(L, d) && 3 <= n && L.size > LOGSIZE && L.size + LOGSIZE <= L.total
    ensures Legal(L, Fresh(d, n), ls)
    ensures var s := After(L, Fresh(d, n), ls);
            && s.ops != [] && s.ops[0].Active? && !RoomToLog(L, s)
            && exists b :: b in s.ops[0].blocks && b in s.lh
  {
    ls := Fill(L, d, n, LOGSIZE, d[L.start]);
    FreshInv(L, d, n);
    LargeRegionFits(L, Fresh(d, n), ls);
    RunRefines(L, Fresh(d, n), ls);
    var s := After(L, Fresh(d, n), ls);
    RefusedOnlyWhenSpent(L, s, 0);
    var b :| b in s.ops[0].blocks;
  }
}

/** The facts of VmSteps in the form in which the methods use them. Each is locked: a
    proof that needs what it says states Key(0), which is always true. */
module VmLocked {
  import opened Sealing
  import opened VmModel
  import opened VmProofs
  import opened VmSteps
  import opened VmFrames

  /** Memory is in order, and the running code holds the frames H. */
  ghost predicate Ok(m: Mem, H: set<int>)
  {
    Shape(m) && forall x {:trigger Key(x)} :: Key(x) ==> MemOk(m) && HeldAre(m, H)
  }

  /** From m to g only pages lo to hi - 1 of directory d may have changed; no other
      address space has, and g is in order. */
  ghost predicate Moved(m: Mem, g: Mem, d: int, H: set<int>, lo: int, hi: int)
    requires Shape(m)
  {
    && Ok(g, H) && IsDir(g, d) && g.lo == m.lo
    && forall x {:trigger Key(x)} :: Key(x) ==> Stepped(m, g, d, H, lo, hi)
  }

  lemma MovedNot(m: Mem, d: int, H: set<int>, lo: int)
    requires Ok(m, H) && IsDir(m, d)
    ensures Moved(m, m, d, H, lo, lo)
  {
    assert Key(0);
  }

  lemma MovedTwice(m: Mem, g: Mem, h: Mem, d: int, H: set<int>, I: set<int>, lo: int, hi: int, a: int, b: int, hi': int)
    requires Shape(m) && Moved(m, g, d, H, lo, hi) && Moved(g, h, d, I, a, b) && hi <= hi' && (a >= b || (lo <= a && b <= hi'))
    ensures Moved(m, h, d, I, lo, hi')
  {
    assert Key(0);
    SteppedTwice(m, g, h, d, H, I, lo, hi', a, b);
  }

  lemma MovedWiden(m: Mem, g: Mem, d: int, H: set<int>, lo: int, hi: int, hi': int)
    requires Shape(m) && Moved(m, g, d, H, lo, hi) && hi <= hi'
    ensures Moved(m, g, d, H, lo, hi')
  {
    assert Key(0);
  }

  // ------------------------------------------------------------------
  // kalloc and kfree
  // ------------------------------------------------------------------

  /** What kmem.freelist says. */
  lemma HeadIs(m: Mem, H: set<int>)
    requires Ok(m, H)
    ensures m.head == 0 <==> m.free == []
    ensures m.free != [] ==> IsFrame(m.free[0]) && m.head == Addr(m.free[0]) && m.role[m.free[0]] == Free
  {
    assert Key(0);
  }

  lemma Took(m: Mem, d: int, H: set<int>)
    requires Ok(m, H) && IsDir(m, d) && m.free != [] && IsFrame(m.free[0])
    ensures Moved(m, Take(m), d, H + {m.free[0]}, 0, 0) && m.lo <= m.free[0] < N && m.free[0] !in H
  {
    assert Key(0);
    TakeStep(m, d, H);
  }

  lemma Gave(m: Mem, d: int, H: set<int>, p: int)
    requires Ok(m, H) && IsDir(m, d) && p in H && IsFrame(p)
    ensures Moved(m, Give(m, p), d, H - {p}, 0, 0)
  {
    assert Key(0);
    GiveStep(m, d, H, p);
  }

  lemma Filled(m: Mem, d: int, H: set<int>, p: int, c: Page)
    requires Ok(m, H) && IsDir(m, d) && p in H && IsFrame(p)
    ensures Moved(m, Fill(m, p, c), d, H, 0, 0)
  {
    assert Key(0);
    FillStep(m, d, H, p, c);
  }

  // ------------------------------------------------------------------
  // Tables and entries
  // ------------------------------------------------------------------

  lemma NewTable(m: Mem, d: int, H: set<int>, i: int, t: int)
    requires Ok(m, H) && IsDir(m, d) && IsIndex(i) && !Present(m.pages[d][i]) && t in H && IsFrame(t) && m.pages[t] == ZeroPage()
    ensures Moved(m, AddTable(m, d, i, t), d, H - {t}, 0, 0)
    ensures HasTable(AddTable(m, d, i, t), d, i) && TableOf(AddTable(m, d, i, t), d, i) == t
  {
    assert Key(0);
    AddTableStep(m, d, H, i, t);
  }

  /** A present directory entry points to a table. */
  lemma TableThere(m: Mem, d: int, H: set<int>, i: int)
    requires Ok(m, H) && IsDir(m, d) && IsIndex(i) && Present(m.pages[d][i])
    ensures HasTable(m, d, i) && m.lo <= TableOf(m, d, i) < N && TableOf(m, d, i) !in H && TableOf(m, d, i) != d
  {
    assert Key(0);
    assert HasTable(m, d, i);
  }

  lemma DirNotHeld(m: Mem, d: int, H: set<int>)
    requires Ok(m, H) && IsDir(m, d)
    ensures d !in H
  {
    assert Key(0);
  }

  /** The contents of held frames. */
  ghost predicate HeldSame(m: Mem, g: Mem, H: set<int>)
  {
    Shape(m) && Shape(g) && forall p :: p in H && IsFrame(p) ==> g.pages[p] == m.pages[p]
  }

  lemma NewUser(m: Mem, d: int, H: set<int>, v: int, t: int, p: int, e: word)
    requires Ok(m, H) && IsDir(m, d) && 0 <= v < UPAGES && HasTable(m, d, v / ENTRIES) && TableOf(m, d, v / ENTRIES) == t
    requires !Present(m.pages[t][v % ENTRIES]) && p in H && IsFrame(p) && Present(e) && Frame(e) == p
    ensures var g := Pass(SetEntry(m, t, v % ENTRIES, e), p, User(d, v / ENTRIES, v % ENTRIES));
      Moved(m, g, d, H - {p}, v, v + 1) && PteAt(g, d, v) == e && g.pages[p] == m.pages[p]
  {
    assert Key(0);
    MapStep(m, d, H, v, p, e);
  }

  lemma NewKernel(m: Mem, d: int, H: set<int>, v: int, t: int, e: word)
    requires Ok(m, H) && IsDir(m, d) && UPAGES <= v < VPAGES && HasTable(m, d, v / ENTRIES) && TableOf(m, d, v / ENTRIES) == t
    ensures var g := SetEntry(m, t, v % ENTRIES, e);
      Moved(m, g, d, H, v, v + 1) && PteAt(g, d, v) == e
  {
    assert Key(0);
    KernelStep(m, d, H, v, e);
  }

  lemma Unmapped(m: Mem, d: int, H: set<int>, v: int, t: int)
    requires Ok(m, H) && IsDir(m, d) && 0 <= v < UPAGES && HasTable(m, d, v / ENTRIES) && TableOf(m, d, v / ENTRIES) == t
    requires Present(m.pages[t][v % ENTRIES])
    ensures m.lo <= Frame(m.pages[t][v % ENTRIES]) < N && Frame(m.pages[t][v % ENTRIES]) !in H
    ensures var p := Frame(m.pages[t][v % ENTRIES]); var g := Pass(SetEntry(m, t, v % ENTRIES, 0), p, Held);
      Moved(m, g, d, H + {p}, v, v + 1) && PteAt(g, d, v) == 0
  {
    assert Key(0);
    assert m.role[t] == Table(d, v / ENTRIES);
    UnmapStep(m, d, H, v);
  }

  // ------------------------------------------------------------------
  // Ranges of pages
  // ------------------------------------------------------------------

  lemma StillAt(g: Mem, h: Mem, d: int, H: set<int>, a: int, b: int, w: int)
    requires Shape(g) && Moved(g, h, d, H, a, b) && IsPage(w) && !(a <= w < b)
    ensures SameAt(g, h, d, w)
  {
    assert Key(0);
  }

  /** Pages lo to hi - 1 are not mapped. */
  ghost predicate Absent(g: Mem, d: int, lo: int, hi: int)
  {
    Shape(g) && IsFrame(d) && forall v {:trigger PteAt(g, d, v)} :: IsPage(v) && lo <= v < hi ==> !Present(PteAt(g, d, v))
  }

  lemma AbsentStill(g: Mem, h: Mem, d: int, H: set<int>, a: int, b: int, lo: int, hi: int)
    requires Absent(g, d, lo, hi) && Moved(g, h, d, H, a, b) && (a >= b || b <= lo || hi <= a)
    ensures Absent(h, d, lo, hi)
  {
    forall v | IsPage(v) && lo <= v < hi ensures !Present(PteAt(h, d, v)) {
      StillAt(g, h, d, H, a, b, v);
    }
  }

  /** Where there is no table, none of its pages is mapped. */
  lemma AbsentTable(g: Mem, d: int, v: int)
    requires Shape(g) && IsFrame(d) && IsPage(v) && !HasTable(g, d, v / ENTRIES)
    ensures Absent(g, d, v, (v / ENTRIES + 1) * ENTRIES)
  {
    forall w | IsPage(w) && v <= w < (v / ENTRIES + 1) * ENTRIES ensures !Present(PteAt(g, d, w)) {
      assert w / ENTRIES == v / ENTRIES;
    }
  }

  lemma AbsentJoin(g: Mem, d: int, lo: int, mid: int, hi: int)
    requires Absent(g, d, lo, mid) && Absent(g, d, mid, hi)
    ensures Absent(g, d, lo, hi)
  {
  }

  /** The entry that mappages writes. */
  function EntryOf(f: int, perm: int): (e: word)
    requires 0 <= f < VPAGES && 0 <= perm < PGSIZE
    ensures Present(e) && Frame(e) == f && Flags(e) == (if perm % 2 == 1 then perm else perm + 1)
  {
    PGSIZE * f + if perm % 2 == 1 then perm else perm + 1
  }

  /** Pages lo to hi - 1 are mapped to frames f, f + 1 and so on. */
  ghost predicate Run(g: Mem, d: int, lo: int, hi: int, f: int, perm: int)
  {
    && Shape(g) && IsFrame(d) && 0 <= lo && hi <= VPAGES && 0 <= f && f + (hi - lo) <= VPAGES && 0 <= perm < PGSIZE
    && forall v {:trigger PteAt(g, d, v)} :: lo <= v < hi ==> PteAt(g, d, v) == EntryOf(f + (v - lo), perm)
  }

  lemma RunStill(g: Mem, h: Mem, d: int, H: set<int>, a: int, b: int, lo: int, hi: int, f: int, perm: int)
    requires Run(g, d, lo, hi, f, perm) && Moved(g, h, d, H, a, b) && (a >= b || b <= lo || hi <= a)
    ensures Run(h, d, lo, hi, f, perm)
  {
    forall v | lo <= v < hi ensures PteAt(h, d, v) == EntryOf(f + (v - lo), perm) {
      StillAt(g, h, d, H, a, b, v);
    }
  }

  // ------------------------------------------------------------------
  // mappages
  // ------------------------------------------------------------------

  /** The frames still held after page v is mapped to frame f: a user page passes on. */
  function Left(H: set<int>, v: int, f: int): set<int> { if v < UPAGES then H - {f} else H }

  lemma RunStart(g: Mem, d: int, lo: int, f: int, perm: int)
    requires Shape(g) && IsFrame(d) && 0 <= lo <= VPAGES && 0 <= f <= VPAGES && 0 <= perm < PGSIZE
    ensures Run(g, d, lo, lo, f, perm)
  {
  }

  lemma RunOn(g: Mem, h: Mem, d: int, H: set<int>, lo: int, v: int, f: int, perm: int)
    requires Run(g, d, lo, v, f, perm) && Moved(g, h, d, H, v, v + 1) && lo <= v < VPAGES && f + (v - lo) < VPAGES
    requires PteAt(h, d, v) == EntryOf(f + (v - lo), perm)
    ensures Run(h, d, lo, v + 1, f, perm)
  {
    RunStill(g, h, d, H, v, v + 1, lo, v, f, perm);
  }

  /** The loop of mappages, before page v. */
  ghost predicate Mapping(m: Mem, g: Mem, d: int, H: set<int>, lo: int, v: int, last: int, f: int, perm: int)
    requires Shape(m)
  {
    && Moved(m, g, d, H, lo, v) && Spent(m, g, d, 0, lo, v)
    && forall x {:trigger Seal(x)} :: Seal(x) ==> Run(g, d, lo, v, f, perm) && Absent(g, d, v, last + 1)
  }

  lemma MappingStart(m: Mem, d: int, H: set<int>, lo: int, last: int, f: int, perm: int)
    requires Ok(m, H) && IsDir(m, d) && 0 <= lo <= last < VPAGES && 0 <= f < VPAGES && 0 <= perm < PGSIZE
    requires Absent(m, d, lo, last + 1)
    ensures Mapping(m, m, d, H, lo, lo, last, f, perm)
  {
    MovedNot(m, d, H, lo);
    RunStart(m, d, lo, f, perm);
    SpentBy(m, m, d, 0, lo);
  }

  lemma MappingIs(m: Mem, g: Mem, d: int, H: set<int>, lo: int, v: int, last: int, f: int, perm: int)
    requires Shape(m) && Mapping(m, g, d, H, lo, v, last, f, perm) && 0 <= lo <= v <= last < VPAGES
    ensures !Present(PteAt(g, d, v)) && Moved(m, g, d, H, lo, last + 1)
  {
    assert Seal(0);
    MovedWiden(m, g, d, H, lo, v, last + 1);
  }

  lemma MappingOn(m: Mem, g: Mem, h: Mem, d: int, H: set<int>, I: set<int>, lo: int, v: int, last: int, f: int, perm: int, q: int, v': int)
    requires Shape(m) && Mapping(m, g, d, H, lo, v, last, f, perm) && 0 <= lo <= v <= last < VPAGES && q == f + (v - lo)
    requires Moved(g, h, d, I, v, v + 1) && 0 <= q < VPAGES && 0 <= perm < PGSIZE && PteAt(h, d, v) == EntryOf(q, perm)
    requires v' == v + 1 && Spent(g, h, d, 0, v, v + 1)
    ensures Mapping(m, h, d, I, lo, v', last, f, perm)
    ensures v == last ==> Moved(m, h, d, I, lo, last + 1) && Run(h, d, lo, last + 1, f, perm) && Spent(m, h, d, 0, lo, last + 1)
  {
    assert Run(g, d, lo, v, f, perm) && Absent(g, d, v, last + 1) by { assert Seal(0); }
    SpentTwice(m, g, h, d, 0, 0, lo, v, v');
    RunOn(g, h, d, I, lo, v, f, perm);
    MovedTwice(m, g, h, d, H, I, lo, v, v, v + 1, v + 1);
    AbsentStill(g, h, d, I, v, v + 1, v + 1, last + 1);
  }

  lemma MappingFails(m: Mem, g: Mem, d: int, H: set<int>, lo: int, v: int, last: int, f: int, perm: int)
    requires Shape(m) && Mapping(m, g, d, H, lo, v, last, f, perm) && 0 <= lo <= v <= last < VPAGES
    requires Short(g, d, 0, v, v + 1)
    ensures Short(m, d, 0, lo, last + 1)
  {
    ShortFor(m, g, d, 0, 0, lo, v, v + 1, last + 1, 0);
  }

  // ------------------------------------------------------------------
  // deallocuvm
  // ------------------------------------------------------------------

  /** The loop of deallocuvm over pages lo to hi - 1, before page v. */
  ghost predicate Clearing(m: Mem, g: Mem, d: int, H: set<int>, lo: int, v: int, hi: int)
    requires Shape(m)
  {
    && Ok(g, H) && IsDir(g, d)
    && forall x {:trigger Key(x)} :: Key(x) ==> Moved(m, g, d, H, lo, hi) && Absent(g, d, lo, v)
  }

  lemma ClearingStart(m: Mem, d: int, H: set<int>, lo: int, hi: int)
    requires Ok(m, H) && IsDir(m, d) && lo <= hi
    ensures Clearing(m, m, d, H, lo, lo, hi)
  {
    MovedNot(m, d, H, lo);
    MovedWiden(m, m, d, H, lo, lo, hi);
  }

  /** One turn takes page v, or jumps to v' over pages that are not there. */
  lemma ClearingOn(m: Mem, g: Mem, h: Mem, d: int, H: set<int>, lo: int, v: int, v': int, hi: int)
    requires Shape(m) && Clearing(m, g, d, H, lo, v, hi) && lo <= v < hi && v < v'
    requires Moved(g, h, d, H, v, v + 1) && Absent(h, d, v, v')
    ensures Clearing(m, h, d, H, lo, v', hi)
  {
    assert Moved(m, g, d, H, lo, hi) && Absent(g, d, lo, v) by { assert Key(0); }
    MovedTwice(m, g, h, d, H, H, lo, hi, v, v + 1, hi);
    AbsentStill(g, h, d, H, v, v + 1, lo, v);
    AbsentJoin(h, d, lo, v, v');
  }

  lemma ClearingEnd(m: Mem, g: Mem, d: int, H: set<int>, lo: int, v: int, hi: int)
    requires Shape(m) && Clearing(m, g, d, H, lo, v, hi) && hi <= v
    ensures Moved(m, g, d, H, lo, hi) && Absent(g, d, lo, hi)
  {
    assert Key(0);
  }

  /** Page v goes out of the space and its frame back to the list. */
  lemma Dropped(m: Mem, g: Mem, h: Mem, d: int, H: set<int>, v: int, p: int)
    requires Ok(m, H) && IsPage(v) && p !in H && Moved(m, g, d, H + {p}, v, v + 1) && PteAt(g, d, v) == 0
    requires Moved(g, h, d, H + {p} - {p}, 0, 0)
    ensures Moved(m, h, d, H, v, v + 1) && Absent(h, d, v, v + 1)
  {
    assert H + {p} - {p} == H;
    MovedTwice(m, g, h, d, H + {p}, H, v, v + 1, 0, 0, v + 1);
    StillAt(g, h, d, H, 0, 0, v);
  }

  // ------------------------------------------------------------------
  // allocuvm
  // ------------------------------------------------------------------

  const PTE_W: int := 2
  const PTE_U: int := 4

  /** Page v is mapped, writable by the user, to a page of zeroes. */
  ghost predicate FreshAt(g: Mem, d: int, v: int)
    requires Shape(g) && IsFrame(d) && IsPage(v)
  {
    var e := PteAt(g, d, v);
    Flags(e) == PTE_W + PTE_U + 1 && IsFrame(Frame(e)) && g.pages[Frame(e)] == ZeroPage()
  }

  ghost predicate Fresh(g: Mem, d: int, lo: int, hi: int)
  {
    Shape(g) && IsFrame(d) && 0 <= lo && hi <= VPAGES && forall v :: lo <= v < hi ==> FreshAt(g, d, v)
  }

  /** The present bit is the lowest flag. */
  lemma FlagsPresent(e: word)
    ensures Present(e) <==> Flags(e) % 2 == 1
  {
  }

  lemma FreshStill(g: Mem, h: Mem, d: int, w: int)
    requires Shape(g) && Shape(h) && IsFrame(d) && 0 <= w < UPAGES && SameAt(g, h, d, w) && FreshAt(g, d, w)
    ensures FreshAt(h, d, w)
  {
    FlagsPresent(PteAt(g, d, w));
  }

  lemma FreshOn(g: Mem, h: Mem, d: int, H: set<int>, lo: int, v: int)
    requires Fresh(g, d, lo, v) && Moved(g, h, d, H, v, v + 1) && 0 <= lo <= v < UPAGES && FreshAt(h, d, v)
    ensures Fresh(h, d, lo, v + 1)
  {
    forall w | lo <= w < v ensures FreshAt(h, d, w) {
      StillAt(g, h, d, H, v, v + 1, w);
      FreshStill(g, h, d, w);
    }
  }

  /** The loop of allocuvm over pages lo to hi - 1, before page v. */
  ghost predicate Growing(m: Mem, g: Mem, d: int, H: set<int>, lo: int, v: int, hi: int)
    requires Shape(m)
  {
    && Moved(m, g, d, H, lo, v) && Spent(m, g, d, v - lo, lo, v)
    && forall x {:trigger Seal(x)} :: Seal(x) ==> Fresh(g, d, lo, v) && Absent(g, d, v, hi)
  }

  lemma GrowingStart(m: Mem, d: int, H: set<int>, lo: int, hi: int)
    requires Ok(m, H) && IsDir(m, d) && 0 <= lo <= VPAGES && Absent(m, d, lo, hi)
    ensures Growing(m, m, d, H, lo, lo, hi)
  {
    MovedNot(m, d, H, lo);
    SpentBy(m, m, d, 0, lo);
  }

  lemma PageSpent(m: Mem, g: Mem, a: Mem, h: Mem, d: int, lo: int, v: int, v': int)
    requires Spent(m, g, d, v - lo, lo, v) && Spent(g, a, d, 1, v, v) && Spent(a, h, d, 0, v, v') && lo <= v && v' == v + 1
    ensures Spent(m, h, d, v' - lo, lo, v')
  {
    SpentTwice(g, a, h, d, 1, 0, v, v, v');
    SpentTwice(m, g, h, d, v - lo, 1, lo, v, v');
  }

  lemma GrowingParts(m: Mem, g: Mem, h: Mem, d: int, H: set<int>, lo: int, v: int, v': int, hi: int)
    requires Shape(m) && Moved(m, g, d, H, lo, v) && Fresh(g, d, lo, v) && Absent(g, d, v, hi) && Moved(g, h, d, H, v, v')
    requires 0 <= lo <= v < hi <= UPAGES && v' == v + 1 && FreshAt(h, d, v)
    ensures Moved(m, h, d, H, lo, v') && Fresh(h, d, lo, v') && Absent(h, d, v', hi)
  {
    FreshOn(g, h, d, H, lo, v);
    MovedTwice(m, g, h, d, H, H, lo, v, v, v', v');
    AbsentStill(g, h, d, H, v, v', v', hi);
  }

  /** A zeroed frame p is taken and mapped at page v. */
  lemma GrowingOn(m: Mem, g: Mem, a: Mem, h: Mem, d: int, H: set<int>, lo: int, v: int, v': int, hi: int, p: int)
    requires Shape(m) && Growing(m, g, d, H, lo, v, hi) && 0 <= lo <= v < hi <= UPAGES && v' == v + 1 && p !in H && IsFrame(p)
    requires Moved(g, a, d, H + {p}, 0, 0) && Moved(a, h, d, H + {p} - {p}, v, v')
    requires PteAt(h, d, v) == EntryOf(p, PTE_W + PTE_U) && h.pages[p] == ZeroPage()
    requires Spent(g, a, d, 1, v, v) && Spent(a, h, d, 0, v, v')
    ensures Growing(m, h, d, H, lo, v', hi)
  {
    PageSpent(m, g, a, h, d, lo, v, v');
    assert Fresh(g, d, lo, v) && Absent(g, d, v, hi) by { assert Seal(0); }
    assert H + {p} - {p} == H;
    MovedAt(g, a, d, H + {p}, v);
    MovedTwice(g, a, h, d, H + {p}, H, v, v, v, v', v');
    GrowingParts(m, g, h, d, H, lo, v, v', hi);
  }

  lemma MovedAt(m: Mem, g: Mem, d: int, H: set<int>, v: int)
    requires Shape(m) && Moved(m, g, d, H, 0, 0)
    ensures Moved(m, g, d, H, v, v)
  {
    assert Key(0);
  }

  lemma GrowingAbsent(m: Mem, g: Mem, a: Mem, d: int, H: set<int>, I: set<int>, lo: int, v: int, hi: int)
    requires Shape(m) && Growing(m, g, d, H, lo, v, hi) && v < hi && IsPage(v) && Moved(g, a, d, I, 0, 0)
    ensures Absent(a, d, v, v + 1)
  {
    assert Absent(g, d, v, hi) by { assert Seal(0); }
    AbsentStill(g, a, d, I, 0, 0, v, hi);
  }

  lemma GrowingEnd(m: Mem, g: Mem, d: int, H: set<int>, lo: int, v: int, hi: int)
    requires Shape(m) && Growing(m, g, d, H, lo, v, hi) && v == hi
    ensures Moved(m, g, d, H, lo, hi) && Fresh(g, d, lo, hi) && Enough(m, d, hi - lo, lo, hi)
  {
    assert Seal(0);
    SpentIs(m, g, d, hi - lo, lo, hi);
  }

  /** No frame for page v, or, once a has one, none for its table. */
  lemma GrowingFails(m: Mem, g: Mem, a: Mem, d: int, H: set<int>, lo: int, v: int, hi: int)
    requires Shape(m) && Growing(m, g, d, H, lo, v, hi) && 0 <= lo <= v < hi <= UPAGES
    requires g.free == [] || (Spent(g, a, d, 1, v, v) && Short(a, d, 0, v, v + 1))
    ensures Short(m, d, hi - lo, lo, hi)
  {
    if g.free != [] { ShortFor(g, a, d, 1, 0, v, v, v + 1, v + 1, 1); } else { ShortAt(g, d, 1, v); }
    ShortFor(m, g, d, v - lo, 1, lo, v, v + 1, hi, hi - lo);
  }

  /** Every page that was mapped is mapped as before, and no other is. */
  ghost predicate Restored(m: Mem, g: Mem, d: int, H: set<int>)
    requires Shape(m) && IsFrame(d)
  {
    && Ok(g, H) && IsDir(g, d)
    && forall x {:trigger Key(x)} :: Key(x) ==>
         && Stepped(m, g, d, H, 0, VPAGES)
         && forall v :: IsPage(v) ==> SameAt(m, g, d, v) || (!Present(PteAt(m, d, v)) && !Present(PteAt(g, d, v)))
  }

  /** Giving back what was mapped restores the mapping. */
  lemma GrowingUndone(m: Mem, g: Mem, a: Mem, h: Mem, d: int, H: set<int>, I: set<int>, lo: int, v: int, hi: int)
    requires Ok(m, H) && IsDir(m, d) && Growing(m, g, d, H, lo, v, hi) && 0 <= lo <= v <= hi && Absent(m, d, lo, hi)
    requires Moved(g, a, d, I, 0, 0) && Moved(a, h, d, I, lo, hi) && Absent(h, d, lo, hi)
    ensures Moved(m, h, d, I, lo, hi)
    ensures Restored(m, h, d, I)
  {
    MovedTwice(m, g, a, d, H, I, lo, v, 0, 0, v);
    MovedTwice(m, a, h, d, I, I, lo, v, lo, hi, hi);
    RestoredBy(m, h, d, I, lo, hi);
  }

  lemma RestoredBy(m: Mem, h: Mem, d: int, H: set<int>, lo: int, hi: int)
    requires Shape(m) && IsDir(m, d) && Moved(m, h, d, H, lo, hi) && Absent(m, d, lo, hi) && Absent(h, d, lo, hi)
    ensures Restored(m, h, d, H)
  {
    assert Key(0);
    forall v | IsPage(v) ensures SameAt(m, h, d, v) || (!Present(PteAt(m, d, v)) && !Present(PteAt(h, d, v))) {
    }
  }

  lemma RestoredThen(m: Mem, g: Mem, h: Mem, d: int, H: set<int>, I: set<int>)
    requires Shape(m) && IsDir(m, d) && Restored(m, g, d, H) && Moved(g, h, d, I, 0, 0)
    ensures Restored(m, h, d, I)
  {
    assert Key(0);
    SteppedTwice(m, g, h, d, H, I, 0, VPAGES, 0, 0);
    forall v | IsPage(v) ensures SameAt(m, h, d, v) || (!Present(PteAt(m, d, v)) && !Present(PteAt(h, d, v))) {
      assert SameAt(g, h, d, v);
    }
  }
}

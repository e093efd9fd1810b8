/** Whole address spaces: freevm, setupkvm and copyuvm of lab2/vm.c, locked as in VmLocked. */
module VmSpaces {
  import opened Sealing
  import opened VmModel
  import opened VmProofs
  import opened VmSteps
  import opened VmFrames
  import opened VmLocked

  // ------------------------------------------------------------------
  // freerange
  // ------------------------------------------------------------------

  function Frames(a: int, b: int): set<int> { set p | a <= p < b && IsFrame(p) }

  /** Frames b - 1 down to a, as the list has them after freerange. */
  function Down(a: int, b: int): seq<int>
    requires a <= b
  {
    seq(b - a, k => b - 1 - k)
  }

  lemma DownOne(a: int, p: int, rest: seq<int>)
    requires a <= p
    ensures [p] + (Down(a, p) + rest) == Down(a, p + 1) + rest
  {
    assert [p] + Down(a, p) == Down(a, p + 1);
    assert [p] + (Down(a, p) + rest) == [p] + Down(a, p) + rest;
  }

  lemma FramesOne(H: set<int>, a: int, p: int)
    requires IsFrame(p) && a <= p
    ensures H - Frames(a, p) - {p} == H - Frames(a, p + 1) && H - Frames(a, a) == H
  {
  }

  /** At boot every frame after the kernel is in the hands of kinit. */
  lemma Boot(m: Mem)
    requires Shape(m) && m.free == [] && m.head == 0
    requires forall p :: IsFrame(p) ==> m.role[p] == if p < m.lo then Other else Held
    ensures Ok(m, Frames(m.lo, N))
  {
    assert forall d :: !IsDir(m, d);
    assert HeldAre(m, Frames(m.lo, N));
    assert ListOk(m) && FreeOk(m);
    assert forall p :: IsFrame(p) ==> !m.role[p].Table? && !m.role[p].User?;
    assert SpacesOk(m);
  }

  lemma GaveAny(m: Mem, H: set<int>, p: int)
    requires Ok(m, H) && p in H && IsFrame(p)
    ensures Ok(Give(m, p), H - {p})
  {
    assert Key(0);
    GiveOk(m, p, p);
  }

  // ------------------------------------------------------------------
  // freevm
  // ------------------------------------------------------------------

  /** No frame belongs to directory d. */
  ghost predicate GoneFrom(g: Mem, d: int)
    requires Shape(g) && IsFrame(d)
  {
    g.role[d] != Dir && forall p :: IsFrame(p) ==> !(g.role[p].Table? && g.role[p].d == d) && !(g.role[p].User? && g.role[p].d == d)
  }

  /** From m to g the directory is gone, and what others have is the same. */
  ghost predicate Loose(m: Mem, g: Mem, d: int, H: set<int>)
    requires Shape(m)
  {
    Ok(g, H) && IsFrame(d) && forall x {:trigger Seal(x)} :: Seal(x) ==> Kept(m, g, d) && GoneFrom(g, d)
  }

  /** The tables from entry i on that a directory page lists. */
  function TablesFrom(c: Page, i: int): set<int>
  {
    set k | 0 <= k < ENTRIES && k >= i && Present(c[k]) :: Frame(c[k])
  }

  /** The tables are frames of their own. */
  ghost predicate Apart(c: Page, d: int, H: set<int>)
  {
    && (forall k :: 0 <= k < ENTRIES && Present(c[k]) ==> IsFrame(Frame(c[k])) && Frame(c[k]) != d && Frame(c[k]) !in H)
    && (forall k, l :: 0 <= k < l < ENTRIES && Present(c[k]) && Present(c[l]) ==> Frame(c[k]) != Frame(c[l]))
  }

  lemma DirApart(g: Mem, d: int, H: set<int>)
    requires MemOk(g) && HeldAre(g, H) && IsDir(g, d)
    ensures Apart(g.pages[d], d, H) && d !in H
    ensures forall p :: IsFrame(p) ==> (p in TablesFrom(g.pages[d], 0) <==> g.role[p].Table? && g.role[p].d == d)
  {
    var c := g.pages[d];
    forall k | 0 <= k < ENTRIES && Present(c[k]) ensures IsFrame(Frame(c[k])) && g.role[Frame(c[k])] == Table(d, k) {
      assert HasTable(g, d, k);
    }
    forall p | IsFrame(p) && g.role[p].Table? && g.role[p].d == d ensures p in TablesFrom(c, 0) {
      assert HasTable(g, d, g.role[p].i);
      assert Frame(c[g.role[p].i]) == p;
    }
  }

  lemma NoUserIs(g: Mem, d: int)
    requires Absent(g, d, 0, UPAGES)
    ensures NoUser(g, d)
  {
    forall i, j | 0 <= i < USER && IsIndex(j) ensures !Present(Pte(g, d, i, j)) {
      var v := i * ENTRIES + j;
      assert v / ENTRIES == i && v % ENTRIES == j;
      assert !Present(PteAt(g, d, v));
    }
  }

  lemma Disbanding(m: Mem, g: Mem, d: int, H: set<int>)
    requires Shape(m) && Moved(m, g, d, H, 0, UPAGES) && Absent(g, d, 0, UPAGES)
    ensures Loose(m, Disband(g, d), d, H + {d} + TablesFrom(g.pages[d], 0))
    ensures Apart(g.pages[d], d, H) && d !in H
  {
    assert Key(0);
    NoUserIs(g, d);
    DisbandOk(g, d);
    DirApart(g, d, H);
    KeptTwice(m, g, Disband(g, d), d);
    var h := Disband(g, d);
    forall p | IsFrame(p) && g.role[p].User? ensures g.role[p].d != d {
      assert MapsUser(g, g.role[p].d, g.role[p].i, g.role[p].j);
    }
    assert HeldAre(h, H + {d} + TablesFrom(g.pages[d], 0));
  }

  lemma LooseGive(m: Mem, g: Mem, d: int, H: set<int>, p: int)
    requires Shape(m) && Loose(m, g, d, H) && p in H && IsFrame(p)
    ensures Loose(m, Give(g, p), d, H - {p})
  {
    var h := Give(g, p);
    GaveAny(g, H, p);
    assert MemOk(g) && HeldAre(g, H) by { assert Key(0); }
    assert Kept(m, g, d) && GoneFrom(g, d) by { assert Seal(0); }
    assert Kept(g, h, d) by { GiveOk(g, p, d); }
    KeptTwice(m, g, h, d);
  }

  lemma TablesOneLess(c: Page, d: int, H: set<int>, i: int)
    requires 0 <= i < ENTRIES && Apart(c, d, H) && d !in H
    ensures !Present(c[i]) ==> TablesFrom(c, i + 1) == TablesFrom(c, i)
    ensures Present(c[i]) ==> IsFrame(Frame(c[i])) && Frame(c[i]) != d && Frame(c[i]) in TablesFrom(c, i) &&
                              H + {d} + TablesFrom(c, i) - {Frame(c[i])} == H + {d} + TablesFrom(c, i + 1)
  {
    if Present(c[i]) {
      assert Frame(c[i]) !in TablesFrom(c, i + 1);
      assert TablesFrom(c, i) == TablesFrom(c, i + 1) + {Frame(c[i])};
    } else {
      assert TablesFrom(c, i + 1) == TablesFrom(c, i);
    }
  }

  lemma TablesNone(c: Page, d: int, H: set<int>)
    requires d !in H
    ensures H + {d} + TablesFrom(c, ENTRIES) - {d} == H
  {
    assert TablesFrom(c, ENTRIES) == {};
  }

  // ------------------------------------------------------------------
  // setupkvm
  // ------------------------------------------------------------------

  const KB: int := UPAGES       // KERNBASE / PGSIZE
  const EXT: int := 256         // EXTMEM / PGSIZE
  const DEV: int := 0xF_E000    // DEVSPACE / PGSIZE

  /** The entries of kmap: I/O space, kernel text, kernel data and memory, devices.
      `data` is the frame where the kernel's data begins. */
  function KMap(data: int, v: int): word
  {
    if KB <= v < KB + EXT then EntryOf(v - KB, PTE_W)
    else if KB + EXT <= v < KB + data && v < KB + N then EntryOf(v - KB, 0)
    else if KB + data <= v < KB + N && KB <= v then EntryOf(v - KB, PTE_W)
    else if DEV <= v < VPAGES then EntryOf(v, PTE_W)
    else 0
  }

  /** The tables of the kernel's pages below b. */
  function KernelTables(b: int): set<int> { Span(KB, if b < KB + N then b else KB + N) + Span(DEV, b) }

  /** 56 for physical memory and 8 for the devices. */
  lemma KernelCount()
    ensures |KernelTables(VPAGES)| == 64
    ensures forall i :: i in KernelTables(VPAGES) ==> i >= USER
  {
    RangeSize(512, 568);
    RangeSize(1016, 1024);
    assert Range(512, 568) !! Range(1016, 1024);
    assert Span(KB, KB + N) == Range(512, 568);
    assert Span(DEV, VPAGES) == Range(1016, 1024);
  }

  /** One line of kmap after the others. */
  lemma KernelTablesOn(b: int, b': int)
    requires KB <= b < b' <= VPAGES && (b' <= KB + N || b >= DEV)
    ensures KernelTables(b) + Span(b, b') == KernelTables(b')
  {
    if b >= DEV {
      SpanJoin(DEV, b, b');
    } else {
      SpanJoin(KB, b, b');
      assert Span(DEV, b) == {} && Span(DEV, b') == {};
    }
  }

  lemma KernelTablesIn(b: int)
    requires KB <= b <= VPAGES
    ensures KernelTables(b) <= KernelTables(VPAGES)
  {
    SpanWider(KB, if b < KB + N then b else KB + N, KB + N);
    SpanWider(DEV, b, VPAGES);
  }

  /** Directory d and its tables are all that was taken. */
  ghost predicate KernelDrawn(m: Mem, g: Mem, d: int, b: int)
    requires Shape(g) && IsFrame(d)
  {
    forall x {:trigger Door(x, KB, b)} :: Door(x, KB, b) ==> Drawn(m, g, d, 0, KernelTables(b))
  }

  /** A directory that was free in m maps what kmap says below page b, and nothing from there on. */
  ghost predicate KernelUpTo(m: Mem, g: Mem, d: int, H: set<int>, data: int, b: int)
    requires Shape(m)
  {
    && Ok(g, H) && IsDir(g, d) && m.role[d] == Free && KernelDrawn(m, g, d, b)
    && forall x {:trigger Key(x)} :: Key(x) ==>
         && Kept(m, g, d)
         && forall v {:trigger PteAt(g, d, v)} :: IsPage(v) ==> PteAt(g, d, v) == if v < b then KMap(data, v) else 0
  }

  lemma KernelFirst(m: Mem, g: Mem, d: int)
    requires Shape(g) && IsFrame(d) && g.pages[d] == ZeroPage() && |g.free| + 1 == |m.free|
    ensures KernelDrawn(m, g, d, KB)
  {
    assert Tables(g, d) == {} == KernelTables(KB);
  }

  lemma KernelMore(m: Mem, g: Mem, h: Mem, d: int, b: int, b': int)
    requires Shape(g) && IsFrame(d) && KernelDrawn(m, g, d, b) && KB <= b < b' <= VPAGES && (b' <= KB + N || b >= DEV)
    requires Spent(g, h, d, 0, b, b')
    ensures KernelDrawn(m, h, d, b')
  {
    assert Door(0, KB, b);
    DrawnOn(m, g, h, d, 0, 0, KernelTables(b), b, b');
    KernelTablesOn(b, b');
  }

  /** kalloc and memset of a directory. */
  lemma Begun(m: Mem, H: set<int>, data: int)
    requires Ok(m, H) && m.free != [] && IsFrame(m.free[0]) && EXT < data < N
    ensures Shape(Take(m)) && KernelUpTo(m, AddDir(Fill(Take(m), m.free[0], ZeroPage()), m.free[0]), m.free[0], H, data, KB)
  {
    assert Key(0);
    var d := m.free[0];
    assert m.role[d] == Free;
    TakeOk(m, d);
    FillOk(Take(m), d, ZeroPage(), d);
    var g := Fill(Take(m), d, ZeroPage());
    AddDirOk(g, d);
    KeptTwice(m, Take(m), g, d);
    KeptTwice(m, g, AddDir(g, d), d);
    assert HeldAre(AddDir(g, d), H);
    KernelFirst(m, AddDir(g, d), d);
  }

  lemma KernelAbsent(m: Mem, g: Mem, d: int, H: set<int>, data: int, b: int, hi: int)
    requires Shape(m) && KernelUpTo(m, g, d, H, data, b)
    ensures Absent(g, d, b, hi)
  {
    forall v | IsPage(v) && b <= v < hi ensures !Present(PteAt(g, d, v)) {
      assert PteAt(g, d, v) == 0 by { assert Key(0); }
    }
  }

  /** One line of kmap: pages b to b' - 1. */
  lemma KernelNext(m: Mem, g: Mem, h: Mem, d: int, H: set<int>, data: int, b: int, b': int, f: int, perm: int)
    requires Shape(m) && KernelUpTo(m, g, d, H, data, b) && Moved(g, h, d, H, b, b') && Run(h, d, b, b', f, perm) && 0 <= b <= b' <= VPAGES
    requires forall v :: b <= v < b' ==> KMap(data, v) == EntryOf(f + (v - b), perm)
    requires KB <= b < b' && (b' <= KB + N || b >= DEV) && Spent(g, h, d, 0, b, b')
    ensures KernelUpTo(m, h, d, H, data, b')
  {
    assert Key(0);
    KeptTwice(m, g, h, d);
    KernelMore(m, g, h, d, b, b');
    forall v | IsPage(v) ensures PteAt(h, d, v) == if v < b' then KMap(data, v) else 0 {
      if !(b <= v < b') { StillAt(g, h, d, H, b, b', v); }
    }
  }

  /** A directory and 64 tables were not there. */
  lemma KernelFails(m: Mem, g: Mem, d: int, H: set<int>, data: int, b: int, b': int)
    requires Shape(m) && KernelUpTo(m, g, d, H, data, b) && KB <= b < b' <= VPAGES && (b' <= KB + N || b >= DEV)
    requires Short(g, d, 0, b, b')
    ensures |m.free| < 65
  {
    assert Drawn(m, g, d, 0, KernelTables(b)) by { assert Door(0, KB, b); }
    KernelTablesOn(b, b');
    KernelTablesIn(b');
    KernelCount();
    DrawnFails(m, g, d, 0, 0, KernelTables(b), b, b', 0, KernelTables(VPAGES));
  }

  lemma KernelTakes(m: Mem, g: Mem, d: int, H: set<int>, data: int)
    requires Shape(m) && KernelUpTo(m, g, d, H, data, VPAGES)
    ensures |g.free| + 65 == |m.free|
  {
    assert Door(0, KB, VPAGES);
    KernelCount();
  }

  lemma KernelWaits(m: Mem, g: Mem, d: int)
    requires Shape(g) && IsFrame(d) && KernelDrawn(m, g, d, KB + N)
    ensures KernelDrawn(m, g, d, DEV)
  {
    assert Door(0, KB, KB + N);
    assert Span(DEV, DEV) == Span(DEV, KB + N) == {};
    assert KernelTables(KB + N) == KernelTables(DEV);
  }

  /** Nothing is mapped between physical memory and the devices. */
  lemma KernelGap(m: Mem, g: Mem, d: int, H: set<int>, data: int)
    requires Shape(m) && KernelUpTo(m, g, d, H, data, KB + N) && EXT < data < N
    ensures KernelUpTo(m, g, d, H, data, DEV)
  {
    assert Key(0);
    KernelWaits(m, g, d);
  }

  /** Every frame is where it was, and what is not free is as it was. */
  ghost predicate Unchanged(m: Mem, g: Mem, H: set<int>)
    requires Shape(m)
  {
    && Ok(g, H)
    && forall x {:trigger Key(x)} :: Key(x) ==>
         && g.role == m.role
         && forall p :: IsFrame(p) && m.role[p] != Free && m.role[p] != Held ==> g.pages[p] == m.pages[p]
  }

  ghost predicate IsNew(m: Mem, g: Mem, d: int)
    requires Shape(m)
  {
    IsFrame(d) && m.role[d] == Free && forall x {:trigger Key(x)} :: Key(x) ==> Kept(m, g, d)
  }

  /** What was free had no tables and no pages. */
  lemma FreeIsGone(m: Mem, H: set<int>, d: int)
    requires Ok(m, H) && IsFrame(d) && m.role[d] == Free
    ensures GoneFrom(m, d)
  {
    assert TablesOk(m) && UsersOk(m) by { assert Key(0); }
    forall p | IsFrame(p) && m.role[p].User? ensures m.role[p].d != d {
      assert MapsUser(m, m.role[p].d, m.role[p].i, m.role[p].j);
    }
  }

  lemma SameRoles(m: Mem, h: Mem, d: int, H: set<int>)
    requires Shape(m) && Kept(m, h, d) && IsFrame(d) && GoneFrom(m, d) && GoneFrom(h, d) && HeldAre(m, H) && HeldAre(h, H)
    ensures h.role == m.role
  {
    forall p | IsFrame(p) ensures h.role[p] == m.role[p] {
      if Mine(m.role[p], p, d) {
        assert m.role[p] == Free || m.role[p] == Held;
        assert h.role[p] == Free || h.role[p] == Held;
      }
    }
  }

  /** A directory made and freed leaves no trace. */
  lemma NoTrace(m: Mem, g: Mem, h: Mem, d: int, H: set<int>)
    requires Ok(m, H) && Shape(g) && IsNew(m, g, d) && Loose(g, h, d, H)
    ensures Unchanged(m, h, H)
  {
    FreeIsGone(m, H, d);
    assert Kept(m, g, d) && HeldAre(m, H) && HeldAre(h, H) by { assert Key(0); }
    assert Kept(g, h, d) && GoneFrom(h, d) by { assert Seal(0); }
    KeptTwice(m, g, h, d);
    SameRoles(m, h, d, H);
  }

  lemma KernelIsNew(m: Mem, g: Mem, d: int, H: set<int>, data: int, b: int)
    requires Shape(m) && KernelUpTo(m, g, d, H, data, b)
    ensures IsNew(m, g, d)
  {
  }

  lemma NewMoved(m: Mem, g: Mem, h: Mem, d: int, H: set<int>, lo: int, hi: int)
    requires Shape(m) && Shape(g) && IsNew(m, g, d) && Moved(g, h, d, H, lo, hi)
    ensures IsNew(m, h, d)
  {
    assert Key(0);
    KeptTwice(m, g, h, d);
  }

  // ------------------------------------------------------------------
  // copyuvm
  // ------------------------------------------------------------------

  /** Page v of directory e is a copy of page v of directory d in m. */
  ghost predicate CopyAt(m: Mem, g: Mem, d: int, e: int, v: int)
    requires Shape(m) && Shape(g) && IsFrame(d) && IsFrame(e) && IsPage(v)
  {
    var a, b := PteAt(m, d, v), PteAt(g, e, v);
    Flags(b) == Flags(a) && IsFrame(Frame(a)) && IsFrame(Frame(b)) && g.pages[Frame(b)] == m.pages[Frame(a)]
  }

  /** The tables of a copy of n pages. */
  function CopyTables(n: int): set<int> { KernelTables(VPAGES) + Span(0, n) }

  ghost predicate CopyDrawn(m: Mem, g: Mem, e: int, n: int)
    requires Shape(g) && IsFrame(e)
  {
    forall x {:trigger Door(x, 0, n)} :: Door(x, 0, n) ==> Drawn(m, g, e, n, CopyTables(n))
  }

  lemma CopyFirst(m: Mem, g: Mem, e: int)
    requires Shape(g) && IsFrame(e) && KernelDrawn(m, g, e, VPAGES)
    ensures CopyDrawn(m, g, e, 0)
  {
    assert Door(0, KB, VPAGES);
    assert CopyTables(0) == KernelTables(VPAGES);
  }

  lemma CopyCount(n: int)
    requires 0 <= n <= UPAGES
    ensures |CopyTables(n)| == 64 + (n + ENTRIES - 1) / ENTRIES
  {
    KernelCount();
    SpanSize(n);
    assert KernelTables(VPAGES) !! Span(0, n);
  }

  /** The first n pages are copied into the new directory e, whose kernel part is complete. */
  ghost predicate Copying(m: Mem, g: Mem, d: int, e: int, H: set<int>, data: int, n: int)
    requires Ok(m, H) && IsDir(m, d)
  {
    && Ok(g, H) && IsDir(g, e) && IsDir(g, d) && e != d && IsNew(m, g, e) && CopyDrawn(m, g, e, n)
    && forall x {:trigger Key(x)} :: Key(x) ==>
         && SameMap(m, g, d)
         && (forall v {:trigger PteAt(g, e, v)} :: IsPage(v) && v < n ==> CopyAt(m, g, d, e, v))
         && (forall v {:trigger PteAt(g, e, v)} :: IsPage(v) && v >= n ==> PteAt(g, e, v) == KMap(data, v))
  }

  lemma CopyingStart(m: Mem, g: Mem, d: int, e: int, H: set<int>, data: int)
    requires Ok(m, H) && IsDir(m, d) && KernelUpTo(m, g, e, H, data, VPAGES)
    ensures Copying(m, g, d, e, H, data, 0)
  {
    assert Key(0);
    OtherSpace(m, g, e, d);
    CopyFirst(m, g, e);
    forall v | IsPage(v) ensures PteAt(g, e, v) == KMap(data, v) {
    }
  }

  lemma ChildAbsent(m: Mem, g: Mem, d: int, e: int, H: set<int>, data: int, n: int)
    requires Ok(m, H) && IsDir(m, d) && Copying(m, g, d, e, H, data, n) && 0 <= n < UPAGES
    ensures Absent(g, e, n, n + 1)
  {
    assert PteAt(g, e, n) == KMap(data, n) by { assert Key(0); }
    assert KMap(data, n) == 0;
  }

  /** What copyuvm reads of the parent. */
  lemma ParentPage(m: Mem, g: Mem, d: int, e: int, H: set<int>, data: int, n: int)
    requires Ok(m, H) && IsDir(m, d) && Copying(m, g, d, e, H, data, n) && 0 <= n < UPAGES && Present(PteAt(m, d, n))
    ensures HasTable(g, d, n / ENTRIES) && PteAt(g, d, n) == PteAt(m, d, n) && IsFrame(Frame(PteAt(m, d, n)))
    ensures g.pages[Frame(PteAt(m, d, n))] == m.pages[Frame(PteAt(m, d, n))]
  {
    assert Key(0);
    assert MapsUser(m, d, n / ENTRIES, n % ENTRIES);
    OtherPage(m, g, e, d, n / ENTRIES, n % ENTRIES);
    assert Pte(g, d, n / ENTRIES, n % ENTRIES) == Pte(m, d, n / ENTRIES, n % ENTRIES);
  }

  lemma CopyStill(m: Mem, g: Mem, h: Mem, d: int, e: int, v: int)
    requires Shape(m) && Shape(g) && Shape(h) && IsFrame(d) && IsFrame(e) && 0 <= v < UPAGES
    requires CopyAt(m, g, d, e, v) && SameAt(g, h, e, v) && Present(PteAt(m, d, v))
    ensures CopyAt(m, h, d, e, v)
  {
    FlagsPresent(PteAt(g, e, v));
    FlagsPresent(PteAt(m, d, v));
  }

  /** All pages below n of the parent are there. */
  ghost predicate AllThere(m: Mem, d: int, n: int)
  {
    Shape(m) && IsFrame(d) && n <= UPAGES && forall v {:trigger PteAt(m, d, v)} :: 0 <= v < n ==> Present(PteAt(m, d, v))
  }

  /** A frame p with the contents of the parent's page n is mapped there. */
  lemma CopyingOn(m: Mem, g: Mem, a: Mem, h: Mem, d: int, e: int, H: set<int>, data: int, n: int, n': int, p: int)
    requires Ok(m, H) && IsDir(m, d) && Copying(m, g, d, e, H, data, n) && 0 <= n < UPAGES && n' == n + 1 && AllThere(m, d, n')
    requires p !in H && IsFrame(p) && Moved(g, a, e, H + {p}, 0, 0) && Moved(a, h, e, H + {p} - {p}, n, n + 1)
    requires IsFrame(Frame(PteAt(m, d, n))) && h.pages[p] == m.pages[Frame(PteAt(m, d, n))]
    requires PteAt(h, e, n) == EntryOf(p, Flags(PteAt(m, d, n)))
    requires Spent(g, a, e, 1, n, n) && Spent(a, h, e, 0, n, n')
    ensures Copying(m, h, d, e, H, data, n')
  {
    SpentTwice(g, a, h, e, 1, 0, n, n, n');
    assert H + {p} - {p} == H;
    MovedAt(g, a, e, H + {p}, n);
    MovedTwice(g, a, h, e, H + {p}, H, n, n, n, n + 1, n + 1);
    NewMoved(m, g, h, e, H, n, n + 1);
    assert CopyAt(m, h, d, e, n) by { FlagsKept(PteAt(m, d, n), p); }
    CopyingOver(m, g, h, d, e, H, data, n);
  }

  /** mappages with the flags of a present entry sets those flags. */
  lemma FlagsKept(a: word, p: int)
    requires Present(a) && 0 <= p < VPAGES
    ensures Flags(EntryOf(p, Flags(a))) == Flags(a) && Frame(EntryOf(p, Flags(a))) == p
  {
    FlagsPresent(a);
  }

  lemma CopyMore(m: Mem, g: Mem, h: Mem, e: int, n: int)
    requires Shape(g) && IsFrame(e) && CopyDrawn(m, g, e, n) && Spent(g, h, e, 1, n, n + 1) && 0 <= n < UPAGES
    ensures CopyDrawn(m, h, e, n + 1)
  {
    assert Door(0, 0, n);
    DrawnOn(m, g, h, e, n, 1, CopyTables(n), n, n + 1);
    SpanJoin(0, n, n + 1);
    assert CopyTables(n) + Span(n, n + 1) == CopyTables(n + 1);
  }

  /** No frame for page v, or, once a has one, none for its table. */
  lemma CopyingFails(m: Mem, g: Mem, a: Mem, d: int, e: int, H: set<int>, data: int, v: int, n: int)
    requires Ok(m, H) && IsDir(m, d) && Copying(m, g, d, e, H, data, v) && 0 <= v < n <= UPAGES
    requires g.free == [] || (Spent(g, a, e, 1, v, v) && Short(a, e, 0, v, v + 1))
    ensures |m.free| < 65 + n + (n + ENTRIES - 1) / ENTRIES
  {
    if g.free != [] { ShortFor(g, a, e, 1, 0, v, v, v + 1, v + 1, 1); } else { ShortAt(g, e, 1, v); }
    CopyShort(m, g, e, v, n);
  }

  lemma CopyShort(m: Mem, g: Mem, e: int, v: int, n: int)
    requires Shape(g) && IsFrame(e) && CopyDrawn(m, g, e, v) && Short(g, e, 1, v, v + 1) && 0 <= v < n <= UPAGES
    ensures |m.free| < 65 + n + (n + ENTRIES - 1) / ENTRIES
  {
    assert Drawn(m, g, e, v, CopyTables(v)) by { assert Door(0, 0, v); }
    SpanJoin(0, v, v + 1);
    SpanWider(0, v + 1, n);
    CopyCount(n);
    DrawnFails(m, g, e, v, 1, CopyTables(v), v, v + 1, n, CopyTables(n));
  }

  lemma CopyingTakes(m: Mem, g: Mem, d: int, e: int, H: set<int>, data: int, n: int)
    requires Ok(m, H) && IsDir(m, d) && Copying(m, g, d, e, H, data, n) && 0 <= n <= UPAGES
    ensures |m.free| == |g.free| + 65 + n + (n + ENTRIES - 1) / ENTRIES
  {
    assert Door(0, 0, n);
    CopyCount(n);
  }

  lemma CopyingOver(m: Mem, g: Mem, h: Mem, d: int, e: int, H: set<int>, data: int, n: int)
    requires Ok(m, H) && IsDir(m, d) && Copying(m, g, d, e, H, data, n) && 0 <= n < UPAGES && AllThere(m, d, n + 1)
    requires Moved(g, h, e, H, n, n + 1) && IsNew(m, h, e) && CopyAt(m, h, d, e, n) && Spent(g, h, e, 1, n, n + 1)
    ensures Copying(m, h, d, e, H, data, n + 1)
  {
    assert Key(0);
    OtherSpace(m, h, e, d);
    CopyMore(m, g, h, e, n);
    forall v | IsPage(v) && v != n ensures SameAt(g, h, e, v) {
      StillAt(g, h, e, H, n, n + 1, v);
    }
    forall v | IsPage(v) && v < n + 1 ensures CopyAt(m, h, d, e, v) {
      if v < n {
        assert CopyAt(m, g, d, e, v);
        assert Present(PteAt(m, d, v));
        CopyStill(m, g, h, d, e, v);
      }
    }
  }

  lemma CopyingEnd(m: Mem, g: Mem, d: int, e: int, H: set<int>, data: int, v: int, n: int)
    requires Ok(m, H) && IsDir(m, d) && Copying(m, g, d, e, H, data, v) && v == n
    ensures Copying(m, g, d, e, H, data, n)
  {
  }

  // ------------------------------------------------------------------
  // What the contracts of the methods say, unlocked
  // ------------------------------------------------------------------

  /** The copy: below n every page of the child has the contents and the flags of the
      parent's, in a frame that the parent does not map; the parent itself is the same. */
  lemma CopyIs(m: Mem, g: Mem, d: int, e: int, H: set<int>, data: int, n: int, v: int, w: int)
    requires Ok(m, H) && IsDir(m, d) && Copying(m, g, d, e, H, data, n) && AllThere(m, d, n) && 0 <= v < n && IsPage(w)
    ensures CopyAt(m, g, d, e, v) && SameAt(m, g, d, w)
    ensures UserAt(m, d, w) ==> Frame(PteAt(g, e, v)) != Frame(PteAt(g, d, w))
    ensures w >= n ==> PteAt(g, e, w) == KMap(data, w)
  {
    assert Key(0);
    assert SameMap(m, g, d);
    assert PteAt(g, d, w) == PteAt(m, d, w);
    if UserAt(m, d, w) {
      assert MapsUser(m, d, w / ENTRIES, w % ENTRIES);
      OtherPage(m, g, e, d, w / ENTRIES, w % ENTRIES);
      ChildFrame(m, g, d, e, H, v);
    }
  }

  lemma ChildFrame(m: Mem, g: Mem, d: int, e: int, H: set<int>, v: int)
    requires Ok(m, H) && Ok(g, H) && IsDir(m, d) && IsDir(g, e) && 0 <= v < UPAGES && Present(PteAt(m, d, v)) && CopyAt(m, g, d, e, v)
    ensures IsFrame(Frame(PteAt(g, e, v))) && g.role[Frame(PteAt(g, e, v))] == User(e, v / ENTRIES, v % ENTRIES)
  {
    assert Key(0);
    FlagsPresent(PteAt(m, d, v));
    FlagsPresent(PteAt(g, e, v));
    assert MapsUser(g, e, v / ENTRIES, v % ENTRIES);
  }

  /** freevm: every frame of the space is free; every other frame is as it was. */
  lemma FreedIs(m: Mem, g: Mem, d: int, H: set<int>, p: int)
    requires Ok(m, H) && IsDir(m, d) && Loose(m, g, d, H) && IsFrame(p)
    ensures Shape(g)
    ensures p == d || (m.role[p].Table? && m.role[p].d == d) || (m.role[p].User? && m.role[p].d == d) ==> g.role[p] == Free
    ensures m.role[p] == Free || m.role[p] == Held ==> g.role[p] == m.role[p]
    ensures !Mine(m.role[p], p, d) ==> g.role[p] == m.role[p] && g.pages[p] == m.pages[p]
  {
    assert HeldAre(m, H) && HeldAre(g, H) by { assert Key(0); }
    assert Kept(m, g, d) && GoneFrom(g, d) by { assert Seal(0); }
  }

  /** No operation on directory d changes another space, or loses a frame: what is not
      free, held or of d stays with its owner, and the rest is free, held or of d. */
  lemma FramesConserved(m: Mem, g: Mem, d: int, H: set<int>, lo: int, hi: int, e: int, p: int)
    requires Ok(m, H) && IsDir(m, d) && Moved(m, g, d, H, lo, hi) && IsFrame(p)
    ensures Mine(m.role[p], p, d) <==> Mine(g.role[p], p, d)
    ensures m.role[p] == Held <==> g.role[p] == Held
    ensures g.role[p] == Free <==> p in g.free
    ensures IsDir(m, e) && e != d ==> IsDir(g, e) && SameMap(m, g, e)
  {
    assert Key(0);
    if IsDir(m, e) && e != d { OtherSpace(m, g, d, e); }
  }
}

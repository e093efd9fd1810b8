/** The steps of lab2/vm.c in terms of one address space: which pages of it may have
    changed, and which frames are in the hands of the running code. */
module VmSteps {
  import opened VmModel
  import opened VmProofs

  const VPAGES: int := 0x10_0000
  const UPAGES: int := 0x8_0000

  predicate IsPage(v: int) { 0 <= v < VPAGES }

  /** The entry of virtual page v: PDX and PTX are its digits. */
  ghost function PteAt(m: Mem, d: int, v: int): word
    requires Shape(m) && IsFrame(d) && IsPage(v)
  {
    Pte(m, d, v / ENTRIES, v % ENTRIES)
  }

  ghost predicate UserAt(m: Mem, d: int, v: int)
    requires Shape(m) && IsFrame(d) && IsPage(v)
  {
    v < UPAGES && Present(PteAt(m, d, v))
  }

  /** Page v is mapped as before, to the same contents. */
  ghost predicate SameAt(m: Mem, g: Mem, d: int, v: int)
    requires Shape(m) && Shape(g) && IsFrame(d) && IsPage(v)
  {
    && PteAt(g, d, v) == PteAt(m, d, v)
    && (UserAt(m, d, v) && IsFrame(Frame(PteAt(m, d, v))) ==>
          g.pages[Frame(PteAt(m, d, v))] == m.pages[Frame(PteAt(m, d, v))])
  }

  /** H are the frames in the hands of the running code. */
  ghost predicate HeldAre(m: Mem, H: set<int>)
    requires Shape(m)
  {
    forall p :: IsFrame(p) ==> (m.role[p] == Held <==> p in H)
  }

  /** From m to g only pages lo to hi - 1 of directory d may have changed. */
  ghost predicate Stepped(m: Mem, g: Mem, d: int, H: set<int>, lo: int, hi: int)
    requires Shape(m)
  {
    && MemOk(g) && Kept(m, g, d) && IsDir(g, d) && HeldAre(g, H)
    && forall v :: IsPage(v) && !(lo <= v < hi) ==> SameAt(m, g, d, v)
  }

  lemma SteppedTwice(m: Mem, g: Mem, h: Mem, d: int, H: set<int>, I: set<int>, lo: int, hi: int, a: int, b: int)
    requires Shape(m) && Stepped(m, g, d, H, lo, hi) && Stepped(g, h, d, I, a, b) && (a >= b || (lo <= a && b <= hi))
    ensures Stepped(m, h, d, I, lo, hi)
  {
    KeptTwice(m, g, h, d);
    forall v | IsPage(v) && !(lo <= v < hi) ensures SameAt(m, h, d, v) {
      assert SameAt(m, g, d, v) && SameAt(g, h, d, v);
    }
  }

  /** No user page is written to. */
  ghost predicate UserSame(m: Mem, g: Mem)
    requires Shape(m) && Shape(g)
  {
    forall p :: IsFrame(p) && m.role[p].User? ==> g.pages[p] == m.pages[p]
  }

  lemma SameBy(m: Mem, g: Mem, d: int, v: int)
    requires MemOk(m) && Shape(g) && IsDir(m, d) && UserSame(m, g) && IsPage(v) && PteAt(g, d, v) == PteAt(m, d, v)
    ensures SameAt(m, g, d, v)
  {
    if UserAt(m, d, v) {
      assert MapsUser(m, d, v / ENTRIES, v % ENTRIES);
    }
  }

  lemma QuietBy(m: Mem, g: Mem, d: int, H: set<int>)
    requires MemOk(m) && IsDir(m, d) && MemOk(g) && Kept(m, g, d) && IsDir(g, d) && HeldAre(g, H)
    requires SameMap(m, g, d) && UserSame(m, g)
    ensures Stepped(m, g, d, H, 0, 0)
  {
    forall v | IsPage(v) ensures SameAt(m, g, d, v) {
      SameBy(m, g, d, v);
    }
  }

  lemma OneBy(m: Mem, g: Mem, d: int, H: set<int>, v: int, e: word)
    requires MemOk(m) && IsDir(m, d) && MemOk(g) && Kept(m, g, d) && IsDir(g, d) && HeldAre(g, H) && IsPage(v)
    requires PteSet(m, g, d, v / ENTRIES, v % ENTRIES, e) && UserSame(m, g)
    ensures Stepped(m, g, d, H, v, v + 1) && PteAt(g, d, v) == e
  {
    forall w | IsPage(w) && w != v ensures SameAt(m, g, d, w) {
      assert w == w / ENTRIES * ENTRIES + w % ENTRIES;
      assert v == v / ENTRIES * ENTRIES + v % ENTRIES;
      SameBy(m, g, d, w);
    }
  }

  // ------------------------------------------------------------------
  // The single steps
  // ------------------------------------------------------------------

  lemma TakeStep(m: Mem, d: int, H: set<int>)
    requires MemOk(m) && IsDir(m, d) && HeldAre(m, H) && m.free != []
    ensures Stepped(m, Take(m), d, H + {m.free[0]}, 0, 0) && m.lo <= m.free[0] < N && m.free[0] !in H
  {
    TakeOk(m, d);
    assert m.role[m.free[0]] == Free;
    QuietBy(m, Take(m), d, H + {m.free[0]});
  }

  lemma GiveStep(m: Mem, d: int, H: set<int>, p: int)
    requires MemOk(m) && IsDir(m, d) && HeldAre(m, H) && p in H && IsFrame(p)
    ensures Stepped(m, Give(m, p), d, H - {p}, 0, 0)
  {
    GiveOk(m, p, d);
    QuietBy(m, Give(m, p), d, H - {p});
  }

  lemma FillStep(m: Mem, d: int, H: set<int>, p: int, c: Page)
    requires MemOk(m) && IsDir(m, d) && HeldAre(m, H) && p in H && IsFrame(p)
    ensures Stepped(m, Fill(m, p, c), d, H, 0, 0)
  {
    FillOk(m, p, c, d);
    QuietBy(m, Fill(m, p, c), d, H);
  }

  lemma AddTableStep(m: Mem, d: int, H: set<int>, i: int, t: int)
    requires MemOk(m) && HeldAre(m, H) && CanAddTable(m, d, i, t)
    ensures Stepped(m, AddTable(m, d, i, t), d, H - {t}, 0, 0)
    ensures HasTable(AddTable(m, d, i, t), d, i) && TableOf(AddTable(m, d, i, t), d, i) == t
  {
    AddTableOk(m, d, i, t);
    QuietBy(m, AddTable(m, d, i, t), d, H - {t});
  }

  lemma MapStep(m: Mem, d: int, H: set<int>, v: int, p: int, e: word)
    requires MemOk(m) && HeldAre(m, H) && IsPage(v) && CanMap(m, d, v / ENTRIES, v % ENTRIES, p) && Present(e) && Frame(e) == p
    ensures var g := MapUser(m, d, v / ENTRIES, v % ENTRIES, p, e);
      Stepped(m, g, d, H - {p}, v, v + 1) && PteAt(g, d, v) == e && g.pages[p] == m.pages[p]
  {
    var i, j := v / ENTRIES, v % ENTRIES;
    var g := MapUser(m, d, i, j, p, e);
    MapUserOk(m, d, i, j, p, e);
    assert m.role[TableOf(m, d, i)] == Table(d, i);
    OneBy(m, g, d, H - {p}, v, e);
  }

  lemma KernelStep(m: Mem, d: int, H: set<int>, v: int, e: word)
    requires MemOk(m) && HeldAre(m, H) && IsDir(m, d) && UPAGES <= v < VPAGES && HasTable(m, d, v / ENTRIES)
    ensures var g := MapKernel(m, d, v / ENTRIES, v % ENTRIES, e);
      Stepped(m, g, d, H, v, v + 1) && PteAt(g, d, v) == e
  {
    var i, j := v / ENTRIES, v % ENTRIES;
    var g := MapKernel(m, d, i, j, e);
    MapKernelOk(m, d, i, j, e);
    assert m.role[TableOf(m, d, i)] == Table(d, i);
    OneBy(m, g, d, H, v, e);
  }

  lemma UnmapStep(m: Mem, d: int, H: set<int>, v: int)
    requires MemOk(m) && HeldAre(m, H) && IsDir(m, d) && IsPage(v) && UserAt(m, d, v)
    ensures var p := Frame(PteAt(m, d, v));
      && m.lo <= p < N && p !in H && MapsUser(m, d, v / ENTRIES, v % ENTRIES)
      && Stepped(m, Unmap(m, d, v / ENTRIES, v % ENTRIES), d, H + {p}, v, v + 1)
      && PteAt(Unmap(m, d, v / ENTRIES, v % ENTRIES), d, v) == 0
  {
    var i, j := v / ENTRIES, v % ENTRIES;
    UnmapOk(m, d, i, j);
    assert m.role[TableOf(m, d, i)] == Table(d, i);
    OneBy(m, Unmap(m, d, i, j), d, H + {Frame(PteAt(m, d, v))}, v, 0);
  }
}

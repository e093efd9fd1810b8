/** lab2/kalloc.c and lab2/vm.c: frames, page tables and the user part of an address
    space. Frames and pages are numbered; -1 stands for a null pointer. */
module Vm {
  import opened Words
  import opened VmModel
  import opened VmSteps
  import opened VmLocked
  import opened VmSpaces
  import opened VmSizes
  import opened VmFrames

  class Memory {
    /** The first frame after the kernel, and the frame of its data. */
    const lo: int
    const data: int
    var pages: seq<Page>
    var head: word
    ghost var role: seq<Role>
    ghost var free: seq<int>

    ghost function M(): Mem
      reads this
    {
      Mem(lo, pages, role, free, head)
    }

    // ----------------------------------------------------------------
    // kalloc.c
    // ----------------------------------------------------------------

    /** The first frame of the free list, or -1. */
    method Kalloc(ghost H: set<int>) returns (p: int)
      requires Ok(M(), H)
      modifies this
      ensures p == -1 <==> old(free) == []
      ensures p == -1 ==> M() == old(M())
      ensures p != -1 ==> IsFrame(p) && p == old(free)[0] && M() == Take(old(M()))
    {
      HeadIs(M(), H);
      if head == 0 { return -1; }
      p := (head - KERNBASE) / PGSIZE;
      head := pages[p][0];
      role, free := role[p := Held], free[1..];
    }

    /** Fills the frame with 1 bytes and puts it first on the list. */
    method Kfree(ghost H: set<int>, p: int)
      requires Ok(M(), H) && p in H && IsFrame(p)
      modifies this
      ensures M() == Give(old(M()), p) && forall k :: 1 <= k < 1024 ==> pages[p][k] == 0x0101_0101
    {
      pages := pages[p := Junk(head)];
      head := Addr(p);
      role, free := role[p := Free], [p] + free;
    }

    /** Puts frames a to b - 1 on the list, one by one. */
    method Freerange(ghost H: set<int>, a: int, b: int)
      requires 0 <= a <= b <= N && Frames(a, b) <= H && Ok(M(), H)
      modifies this
      ensures Ok(M(), H - Frames(a, b)) && free == Down(a, b) + old(free)
    {
      ghost var start := free;
      var p := a;
      ghost var I := H;
      assert H - Frames(a, a) == H;
      assert Down(a, a) + start == start;
      while p < b
        invariant a <= p <= b && I == H - Frames(a, p) && Ok(M(), I) && free == Down(a, p) + start
      {
        GaveAny(M(), I, p);
        Kfree(I, p);
        FramesOne(H, a, p);
        DownOne(a, p, start);
        I := I - {p};
        p := p + 1;
      }
    }

    // ----------------------------------------------------------------
    // Tables and entries
    // ----------------------------------------------------------------

    /** The table of page v, made if it is not there and alloc says so, or -1. */
    method Walkpgdir(ghost H: set<int>, d: int, v: int, alloc: bool) returns (t: int)
      requires Ok(M(), H) && IsDir(M(), d) && IsPage(v)
      modifies this
      ensures !alloc || t == -1 ==> M() == old(M())
      ensures Moved(old(M()), M(), d, H, 0, 0) && HeldSame(old(M()), M(), H)
      ensures t == -1 <==> !HasTable(M(), d, v / ENTRIES)
      ensures t != -1 ==> t == TableOf(M(), d, v / ENTRIES) && Spent(old(M()), M(), d, 0, v, v + 1)
      ensures t == -1 <==> !Present(old(pages)[d][v / ENTRIES]) && (!alloc || old(free) == [])
    {
      MovedNot(M(), d, H, 0);
      var i := v / ENTRIES;
      var e := pages[d][i];
      if Present(e) {
        TableThere(M(), d, H, i);
        SpentSame(M(), d, v);
        return Frame(e);
      }
      if !alloc { return -1; }
      t := NewTablePage(H, d, i, v);
    }

    /** kalloc and memset: a frame with these contents, or -1. */
    method KallocFill(ghost H: set<int>, ghost d: int, c: Page, ghost v: int) returns (p: int)
      requires Ok(M(), H) && IsDir(M(), d)
      modifies this
      ensures p == -1 <==> old(free) == []
      ensures p == -1 ==> M() == old(M())
      ensures p != -1 ==> Spent(old(M()), M(), d, 1, v, v)
      ensures p != -1 ==> Moved(old(M()), M(), d, H + {p}, 0, 0) && lo <= p < N && p !in H && pages[p] == c
      ensures p != -1 ==> HeldSame(old(M()), M(), H) && p != d && pages[d] == old(pages[d])
    {
      ghost var m := M();
      p := Kalloc(H);
      if p == -1 { return; }
      Took(m, d, H);
      ghost var g := M();
      DirNotHeld(g, d, H + {p});
      pages := pages[p := c];
      Filled(g, d, H + {p}, p, c);
      MovedTwice(m, g, M(), d, H + {p}, H + {p}, 0, 0, 0, 0, 0);
      SpentBy(m, M(), d, 1, v);
    }

    /** A zeroed frame becomes table i of the directory, if there is a frame. */
    method NewTablePage(ghost H: set<int>, d: int, i: int, ghost v: int) returns (t: int)
      requires IsPage(v) && i == v / ENTRIES && Ok(M(), H) && IsDir(M(), d) && IsIndex(i) && !Present(pages[d][i])
      modifies this
      ensures t == -1 <==> old(free) == []
      ensures t == -1 ==> M() == old(M())
      ensures Moved(old(M()), M(), d, H, 0, 0) && HeldSame(old(M()), M(), H)
      ensures t != -1 ==> HasTable(M(), d, i) && t == TableOf(M(), d, i) && Spent(old(M()), M(), d, 0, v, v + 1)
    {
      ghost var m := M();
      MovedNot(m, d, H, 0);
      DirNotHeld(m, d, H);
      t := KallocFill(H, d, ZeroPage(), v);
      if t == -1 { return; }
      ghost var h := M();
      pages := pages[d := pages[d][i := PGSIZE * t + 7]];
      role := role[t := Table(d, i)];
      NewTable(h, d, H + {t}, i, t);
      assert H + {t} - {t} == H;
      MovedTwice(m, h, M(), d, H + {t}, H, 0, 0, 0, 0, 0);
      SpentTable(m, h, M(), d, v, PGSIZE * t + 7);
    }

    /** Sets the entry of page v in its table t. */
    method SetPte(ghost H: set<int>, d: int, v: int, t: int, f: int, perm: int)
      requires Ok(M(), H) && IsDir(M(), d) && IsPage(v) && 0 <= f < VPAGES && 0 <= perm < PGSIZE
      requires v < UPAGES ==> f in H && IsFrame(f)
      requires HasTable(M(), d, v / ENTRIES) && t == TableOf(M(), d, v / ENTRIES) && !Present(PteAt(M(), d, v))
      modifies this
      ensures Moved(old(M()), M(), d, Left(H, v, f), v, v + 1) && PteAt(M(), d, v) == EntryOf(f, perm)
      ensures v < UPAGES ==> pages[f] == old(pages[f])
      ensures pages[d] == old(pages[d]) && free == old(free)
    {
      ghost var g := M();
      TableThere(g, d, H, v / ENTRIES);
      pages := pages[t := pages[t][v % ENTRIES := EntryOf(f, perm)]];
      if v < UPAGES {
        role := role[f := User(d, v / ENTRIES, v % ENTRIES)];
        NewUser(g, d, H, v, t, f, EntryOf(f, perm));
      } else {
        NewKernel(g, d, H, v, t, EntryOf(f, perm));
      }
    }

    /** One turn of mappages: page v is mapped to frame f. */
    method MapPage(ghost H: set<int>, d: int, v: int, f: int, perm: int) returns (ok: bool)
      requires Ok(M(), H) && IsDir(M(), d) && IsPage(v) && 0 <= f < VPAGES && 0 <= perm < PGSIZE
      requires v < UPAGES ==> f in H && IsFrame(f)
      requires !Present(PteAt(M(), d, v))
      modifies this
      ensures ok ==> Moved(old(M()), M(), d, Left(H, v, f), v, v + 1) && PteAt(M(), d, v) == EntryOf(f, perm)
      ensures ok && v < UPAGES ==> pages[f] == old(pages[f])
      ensures ok ==> Spent(old(M()), M(), d, 0, v, v + 1)
      ensures !ok ==> M() == old(M()) && Short(M(), d, 0, v, v + 1)
    {
      ghost var m := M();
      var t := Walkpgdir(H, d, v, true);
      if t == -1 {
        ShortAt(m, d, 0, v);
        return false;
      }
      ghost var g := M();
      StillAt(m, g, d, H, 0, 0, v);
      SetPte(H, d, v, t, f, perm);
      MovedTwice(m, g, M(), d, H, Left(H, v, f), v, v, v, v + 1, v + 1);
      SpentBy(g, M(), d, 0, v + 1);
      SpentTwice(m, g, M(), d, 0, 0, v, v + 1, v + 1);
      ok := true;
    }

    /** The loop of mappages, from page v0 to page v1, which are kernel pages or one user page. */
    method MapRange(ghost H: set<int>, d: int, v0: int, v1: int, f: int, perm: int) returns (ok: bool)
      requires Ok(M(), H) && IsDir(M(), d) && 0 <= v0 <= v1 < VPAGES && 0 <= f && f + (v1 - v0) < VPAGES && 0 <= perm < PGSIZE
      requires v0 < UPAGES ==> v0 == v1 && f in H && IsFrame(f)
      requires Absent(M(), d, v0, v1 + 1)
      modifies this
      ensures ok ==> Moved(old(M()), M(), d, Left(H, v0, f), v0, v1 + 1) && Run(M(), d, v0, v1 + 1, f, perm)
      ensures ok && v0 < UPAGES ==> pages[f] == old(pages[f])
      ensures !ok ==> Moved(old(M()), M(), d, H, v0, v1 + 1) && (v0 < UPAGES ==> M() == old(M()))
      ensures ok ==> Spent(old(M()), M(), d, 0, v0, v1 + 1)
      ensures !ok ==> Short(old(M()), d, 0, v0, v1 + 1)
    {
      ghost var m := M();
      var v, q := v0, f;
      MappingStart(m, d, H, v0, v1, f, perm);
      while true
        invariant v0 <= v <= v1 && q == f + (v - v0) && (v0 < UPAGES ==> M() == m)
        invariant Mapping(m, M(), d, H, v0, v, v1, f, perm)
        decreases v1 - v
      {
        ghost var g := M();
        MappingIs(m, g, d, H, v0, v, v1, f, perm);
        ok := MapPage(H, d, v, q, perm);
        if !ok {
          MappingFails(m, g, d, H, v0, v, v1, f, perm);
          return;
        }
        MappingOn(m, g, M(), d, H, Left(H, v, q), v0, v, v1, f, perm, q, v + 1);
        if v == v1 { return; }
        v, q := v + 1, q + 1;
      }
    }

    /** Maps [va, va + size) to [pa, pa + size), page by page. */
    method Mappages(ghost H: set<int>, d: int, va: int, size: int, pa: int, perm: int) returns (ok: bool)
      requires Ok(M(), H) && IsDir(M(), d) && 0 <= va && 0 < size && va + size <= WRAP && 0 <= perm < PGSIZE
      requires 0 <= pa && pa % PGSIZE == 0 && pa / PGSIZE + (va + size - 1) / PGSIZE - va / PGSIZE < VPAGES
      requires va < KERNBASE ==> va / PGSIZE == (va + size - 1) / PGSIZE && pa / PGSIZE in H && IsFrame(pa / PGSIZE)
      requires Absent(M(), d, va / PGSIZE, (va + size - 1) / PGSIZE + 1)
      modifies this
      ensures ok ==> Moved(old(M()), M(), d, Left(H, va / PGSIZE, pa / PGSIZE), va / PGSIZE, (va + size - 1) / PGSIZE + 1)
      ensures ok ==> Run(M(), d, va / PGSIZE, (va + size - 1) / PGSIZE + 1, pa / PGSIZE, perm)
      ensures ok && va < KERNBASE ==> pages[pa / PGSIZE] == old(pages[pa / PGSIZE])
      ensures !ok ==> Moved(old(M()), M(), d, H, va / PGSIZE, (va + size - 1) / PGSIZE + 1) && (va < KERNBASE ==> M() == old(M()))
      ensures ok ==> Spent(old(M()), M(), d, 0, va / PGSIZE, (va + size - 1) / PGSIZE + 1)
      ensures !ok ==> Short(old(M()), d, 0, va / PGSIZE, (va + size - 1) / PGSIZE + 1)
    {
      ok := MapRange(H, d, va / PGSIZE, (va + size - 1) / PGSIZE, pa / PGSIZE, perm);
    }

    // ----------------------------------------------------------------
    // Shrinking
    // ----------------------------------------------------------------

    /** One turn of deallocuvm: page v is given back if it is there; without a table
        the next page is that of the next table. */
    method DropPage(ghost H: set<int>, d: int, v: int) returns (v': int)
      requires Ok(M(), H) && IsDir(M(), d) && 0 <= v < UPAGES
      modifies this
      ensures v < v' && Moved(old(M()), M(), d, H, v, v + 1) && Absent(M(), d, v, v')
    {
      ghost var m := M();
      MovedNot(m, d, H, v);
      MovedWiden(m, m, d, H, v, v, v + 1);
      var t := Walkpgdir(H, d, v, false);
      if t == -1 {
        AbsentTable(m, d, v);
        return (v / ENTRIES + 1) * ENTRIES;
      }
      var e := pages[t][v % ENTRIES];
      if Present(e) {
        Unmapped(m, d, H, v, t);
        var p := Frame(e);
        pages := pages[t := pages[t][v % ENTRIES := 0]];
        role := role[p := Held];
        ghost var g := M();
        Kfree(H + {p}, p);
        Gave(g, d, H + {p}, p);
        Dropped(m, g, M(), d, H, v, p);
      }
      return v + 1;
    }

    /** Gives back every page from newsz up to oldsz, and nothing else. */
    method Deallocuvm(ghost H: set<int>, d: int, oldsz: int, newsz: int) returns (r: int)
      requires Ok(M(), H) && IsDir(M(), d) && 0 <= newsz && 0 <= oldsz <= KERNBASE
      modifies this
      ensures r == if newsz >= oldsz then oldsz else newsz
      ensures newsz >= oldsz ==> M() == old(M())
      ensures newsz < oldsz ==> Moved(old(M()), M(), d, H, PageUp(newsz), PageUp(oldsz))
      ensures newsz < oldsz ==> Absent(M(), d, PageUp(newsz), PageUp(oldsz))
      ensures newsz < oldsz ==> Shrunk(old(M()), M(), d, oldsz, newsz)
    {
      if newsz >= oldsz { return oldsz; }
      ghost var m, first, last := M(), PageUp(newsz), PageUp(oldsz);
      var v := PageUp(newsz);
      ClearingStart(m, d, H, first, last);
      while v * PGSIZE < oldsz
        invariant first <= v && Clearing(m, M(), d, H, first, v, last)
        decreases oldsz - v * PGSIZE
      {
        ghost var g := M();
        var v' := DropPage(H, d, v);
        ClearingOn(m, g, M(), d, H, first, v, v', last);
        v := v';
      }
      ClearingEnd(m, M(), d, H, first, v, last);
      ShrunkBy(m, M(), d, H, oldsz, newsz);
      return newsz;
    }

    // ----------------------------------------------------------------
    // Growing
    // ----------------------------------------------------------------

    /** mappages of one user page. */
    method MapUserPage(ghost H: set<int>, d: int, v: int, p: int, perm: int) returns (ok: bool)
      requires Ok(M(), H) && IsDir(M(), d) && 0 <= v < UPAGES && p in H && IsFrame(p) && 0 <= perm < PGSIZE
      requires Absent(M(), d, v, v + 1)
      modifies this
      ensures ok ==> Moved(old(M()), M(), d, H - {p}, v, v + 1) && PteAt(M(), d, v) == EntryOf(p, perm) && pages[p] == old(pages[p])
      ensures ok ==> Spent(old(M()), M(), d, 0, v, v + 1)
      ensures !ok ==> M() == old(M()) && Short(M(), d, 0, v, v + 1)
    {
      ok := Mappages(H, d, v * PGSIZE, PGSIZE, p * PGSIZE, perm);
    }

    /** Maps zeroed pages from oldsz up to newsz, or nothing.  It fails only when the free
        list is too short. */
    method Allocuvm(ghost H: set<int>, d: int, oldsz: int, newsz: int) returns (r: int)
      requires Ok(M(), H) && IsDir(M(), d) && 0 <= oldsz && 0 <= newsz
      requires oldsz <= newsz < KERNBASE ==> Vacant(M(), d, oldsz, newsz)
      modifies this
      ensures newsz >= KERNBASE || newsz < oldsz ==> r == (if newsz >= KERNBASE then 0 else oldsz) && M() == old(M())
      ensures oldsz <= newsz < KERNBASE ==> r == newsz || r == 0
      ensures oldsz <= newsz < KERNBASE && r == newsz ==>
        && Moved(old(M()), M(), d, H, PageUp(oldsz), PageUp(newsz)) && Grown(old(M()), M(), d, oldsz, newsz)
        && Enough(old(M()), d, PageUp(newsz) - PageUp(oldsz), PageUp(oldsz), PageUp(newsz))
      ensures oldsz <= newsz < KERNBASE && r != newsz ==>
        && Restored(old(M()), M(), d, H)
        && Short(old(M()), d, PageUp(newsz) - PageUp(oldsz), PageUp(oldsz), PageUp(newsz))
    {
      if newsz >= KERNBASE { return 0; }
      if newsz < oldsz { return oldsz; }
      VacantIs(M(), d, oldsz, newsz);
      var ok := GrowAll(M(), H, d, oldsz, newsz);
      return if ok then newsz else 0;
    }

    /** The loop of allocuvm. */
    method GrowAll(ghost m: Mem, ghost H: set<int>, d: int, oldsz: int, newsz: int) returns (ok: bool)
      requires M() == m && Ok(m, H) && IsDir(m, d) && 0 <= oldsz <= newsz < KERNBASE && Absent(m, d, PageUp(oldsz), PageUp(newsz))
      modifies this
      ensures ok ==> Moved(m, M(), d, H, PageUp(oldsz), PageUp(newsz)) && Grown(m, M(), d, oldsz, newsz)
      ensures ok ==> Enough(m, d, PageUp(newsz) - PageUp(oldsz), PageUp(oldsz), PageUp(newsz))
      ensures !ok ==> Restored(m, M(), d, H) && newsz > 0
      ensures !ok ==> Short(m, d, PageUp(newsz) - PageUp(oldsz), PageUp(oldsz), PageUp(newsz))
    {
      var v := PageUp(oldsz);
      GrowingStart(m, d, H, PageUp(oldsz), PageUp(newsz));
      while v * PGSIZE < newsz
        invariant PageUp(oldsz) <= v && (v <= PageUp(newsz) || v == PageUp(oldsz))
        invariant Growing(m, M(), d, H, PageUp(oldsz), v, PageUp(newsz))
        decreases newsz - v * PGSIZE
      {
        PageUpIs(newsz, v);
        ok := GrowPage(m, H, d, oldsz, newsz, v);
        if !ok { return; }
        v := v + 1;
      }
      GrowingDone(m, M(), d, H, oldsz, newsz, v);
      ok := true;
    }

    /** One turn of allocuvm. */
    method GrowPage(ghost m: Mem, ghost H: set<int>, d: int, oldsz: int, newsz: int, v: int) returns (ok: bool)
      requires Ok(m, H) && IsDir(m, d) && 0 <= oldsz <= newsz < KERNBASE && Absent(m, d, PageUp(oldsz), PageUp(newsz))
      requires PageUp(oldsz) <= v < PageUp(newsz) && Growing(m, M(), d, H, PageUp(oldsz), v, PageUp(newsz))
      modifies this
      ensures ok ==> Growing(m, M(), d, H, PageUp(oldsz), v + 1, PageUp(newsz))
      ensures !ok ==> Restored(m, M(), d, H)
      ensures !ok ==> Short(m, d, PageUp(newsz) - PageUp(oldsz), PageUp(oldsz), PageUp(newsz))
    {
      ghost var first, last, g := PageUp(oldsz), PageUp(newsz), M();
      var p := KallocFill(H, d, ZeroPage(), v);
      ghost var a := M();
      if p == -1 {
        GrowingFails(m, g, a, d, H, first, v, last);
        MovedNot(g, d, H, 0);
        var _ := Deallocuvm(H, d, newsz, oldsz);
        GrowingUndone(m, g, a, M(), d, H, H, first, v, last);
        return false;
      }
      GrowingAbsent(m, g, a, d, H, H + {p}, first, v, last);
      ok := MapUserPage(H + {p}, d, v, p, PTE_W + PTE_U);
      if !ok {
        GrowingFails(m, g, a, d, H, first, v, last);
        var _ := Deallocuvm(H + {p}, d, newsz, oldsz);
        ghost var b := M();
        GrowingUndone(m, g, a, b, d, H, H + {p}, first, v, last);
        Kfree(H + {p}, p);
        Gave(b, d, H + {p}, p);
        RestoredThen(m, b, M(), d, H + {p}, H + {p} - {p});
        assert H + {p} - {p} == H;
        return;
      }
      GrowingOn(m, g, a, M(), d, H, first, v, v + 1, last, p);
    }

    // ----------------------------------------------------------------
    // Whole address spaces
    // ----------------------------------------------------------------

    /** Gives back every frame of the space: user pages, tables and the directory. */
    method Freevm(ghost H: set<int>, d: int)
      requires Ok(M(), H) && IsDir(M(), d)
      modifies this
      ensures Loose(old(M()), M(), d, H)
    {
      ghost var m := M();
      var _ := Deallocuvm(H, d, KERNBASE, 0);
      ghost var g, c := M(), pages[d];
      Disbanding(m, g, d, H);
      role := Disband(g, d).role;
      FreeTables(m, H, d);
      TablesNone(c, d, H);
      LooseGive(m, M(), d, H + {d} + TablesFrom(c, ENTRIES), d);
      Kfree(H + {d} + TablesFrom(c, ENTRIES), d);
    }

    /** The loop of freevm over the directory. */
    method FreeTables(ghost m: Mem, ghost H: set<int>, d: int)
      requires Shape(m) && Shape(M()) && IsFrame(d) && Loose(m, M(), d, H + {d} + TablesFrom(pages[d], 0))
      requires Apart(pages[d], d, H) && d !in H
      modifies this
      ensures Loose(m, M(), d, H + {d} + TablesFrom(old(pages[d]), ENTRIES)) && Shape(M())
    {
      ghost var c := pages[d];
      for i := 0 to ENTRIES
        invariant Shape(M()) && pages[d] == c && Loose(m, M(), d, H + {d} + TablesFrom(c, i))
      {
        TablesOneLess(c, d, H, i);
        if Present(pages[d][i]) {
          var t := Frame(pages[d][i]);
          LooseGive(m, M(), d, H + {d} + TablesFrom(c, i), t);
          Kfree(H + {d} + TablesFrom(c, i), t);
        }
      }
    }

    /** One line of kmap, pages b to b' - 1 of the kernel half. */
    method MapLine(ghost m: Mem, ghost H: set<int>, d: int, b: int, b': int, f: int, perm: int) returns (ok: bool)
      requires Ok(m, H) && KernelUpTo(m, M(), d, H, data, b) && UPAGES <= b < b' <= VPAGES && 0 <= perm < PGSIZE
      requires 0 <= f && f + (b' - b) <= VPAGES && forall v :: b <= v < b' ==> KMap(data, v) == EntryOf(f + (v - b), perm)
      requires b' <= KB + N || b >= DEV
      modifies this
      ensures ok ==> KernelUpTo(m, M(), d, H, data, b')
      ensures !ok ==> Unchanged(m, M(), H) && |m.free| < 65
    {
      ghost var g := M();
      KernelAbsent(m, g, d, H, data, b, b');
      KernelIsNew(m, g, d, H, data, b);
      ok := Mappages(H, d, b * PGSIZE, (b' - b) * PGSIZE, f * PGSIZE, perm);
      ghost var h := M();
      assert (b * PGSIZE + (b' - b) * PGSIZE - 1) / PGSIZE + 1 == b';
      if ok {
        KernelNext(m, g, h, d, H, data, b, b', f, perm);
      } else {
        KernelFails(m, g, d, H, data, b, b');
        NewMoved(m, g, h, d, H, b, b');
        Freevm(H, d);
        NoTrace(m, h, M(), d, H);
      }
    }

    /** A new directory with the kernel's mappings, or -1 and no trace.  It takes 65 frames. */
    method Setupkvm(ghost H: set<int>) returns (d: int)
      requires Ok(M(), H) && EXT < data < N
      modifies this
      ensures d == -1 <==> |old(free)| < 65
      ensures d != -1 ==> KernelUpTo(old(M()), M(), d, H, data, VPAGES)
      ensures d != -1 ==> |free| + 65 == |old(free)|
      ensures d == -1 ==> Unchanged(old(M()), M(), H)
    {
      ghost var m := M();
      d := Kalloc(H);
      if d == -1 {
        return;
      }
      Begun(m, H, data);
      pages := pages[d := ZeroPage()];
      role := role[d := Dir];
      var ok := MapLine(m, H, d, KB, KB + EXT, 0, PTE_W);
      if !ok { return -1; }
      ok := MapLine(m, H, d, KB + EXT, KB + data, EXT, 0);
      if !ok { return -1; }
      ok := MapLine(m, H, d, KB + data, KB + N, data, PTE_W);
      if !ok { return -1; }
      KernelGap(m, M(), d, H, data);
      ok := MapLine(m, H, d, DEV, VPAGES, DEV, PTE_W);
      if !ok { return -1; }
      KernelTakes(m, M(), d, H, data);
    }

    /** A directory with a copy of every page below sz, or -1 and no trace. */
    method Copyuvm(ghost H: set<int>, d: int, sz: int) returns (e: int)
      requires Ok(M(), H) && IsDir(M(), d) && EXT < data < N && 0 <= sz <= KERNBASE && Occupied(M(), d, sz)
      modifies this
      ensures e == -1 <==> |old(free)| < 65 + PageUp(sz) + (PageUp(sz) + ENTRIES - 1) / ENTRIES
      ensures e != -1 ==> Copying(old(M()), M(), d, e, H, data, PageUp(sz)) && Copied(old(M()), M(), d, e, data, sz)
      ensures e == -1 ==> Unchanged(old(M()), M(), H)
    {
      ghost var m := M();
      OccupiedIs(m, d, sz);
      e := Setupkvm(H);
      if e == -1 { return; }
      CopyingStart(m, M(), d, e, H, data);
      var v := 0;
      ghost var n := PageUp(sz);
      while v * PGSIZE < sz
        invariant 0 <= v <= n && Copying(m, M(), d, e, H, data, v)
        decreases sz - v * PGSIZE
      {
        var ok;
        ok, v := CopyPage(m, H, d, e, v, n);
        if !ok { return -1; }
      }
      CopyingEnd(m, M(), d, e, H, data, v, n);
      CopyingTakes(m, M(), d, e, H, data, n);
      CopiedBy(m, M(), d, e, H, data, sz);
    }

    /** One turn of copyuvm. */
    method CopyPage(ghost m: Mem, ghost H: set<int>, d: int, e: int, v: int, ghost n: int) returns (ok: bool, v': int)
      requires Ok(m, H) && IsDir(m, d) && Copying(m, M(), d, e, H, data, v) && 0 <= v < n && AllThere(m, d, n)
      modifies this
      ensures ok ==> v' == v + 1 && Copying(m, M(), d, e, H, data, v')
      ensures !ok ==> Unchanged(m, M(), H) && |m.free| < 65 + n + (n + ENTRIES - 1) / ENTRIES
    {
      v' := v + 1;
      ghost var g := M();
      ParentPage(m, g, d, e, H, data, v);
      ChildAbsent(m, g, d, e, H, data, v);
      var t := Walkpgdir(H, d, v, false);
      var a := pages[t][v % ENTRIES];
      var p := KallocFill(H, e, pages[Frame(a)], v);
      if p == -1 {
        CopyingFails(m, g, g, d, e, H, data, v, n);
        Freevm(H, e);
        NoTrace(m, g, M(), e, H);
        return false, v;
      }
      ghost var b := M();
      AbsentStill(g, b, e, H + {p}, 0, 0, v, v + 1);
      ok := MapUserPage(H + {p}, e, v, p, Flags(a));
      if !ok {
        CopyingFails(m, g, b, d, e, H, data, v, n);
        Kfree(H + {p}, p);
        Gave(b, e, H + {p}, p);
        ghost var h := M();
        assert H + {p} - {p} == H;
        NewMoved(m, g, b, e, H + {p}, 0, 0);
        NewMoved(m, b, h, e, H, 0, 0);
        Freevm(H, e);
        NoTrace(m, h, M(), e, H);
        return false, v;
      }
      CopyingOn(m, g, b, M(), d, e, H, data, v, v', p);
    }
  }
}

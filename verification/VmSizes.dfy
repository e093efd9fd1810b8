/** The user part of an address space by address: which pages allocuvm, deallocuvm and
    copyuvm of lab2/vm.c reach when sizes are not whole pages.  A page counts by the
    address of its first byte. */
module VmSizes {
  import opened Sealing
  import opened Words
  import opened VmModel
  import opened VmProofs
  import opened VmSteps
  import opened VmFrames
  import opened VmLocked
  import opened VmSpaces

  /** PGROUNDUP, as a page number. */
  function PageUp(a: int): int { (a + PGSIZE - 1) / PGSIZE }

  /** The first page that begins at or after address a. */
  lemma PageUpIs(a: int, v: int)
    ensures v >= PageUp(a) <==> v * PGSIZE >= a
  {
  }

  /** No page that begins in [lo, hi) is mapped. */
  ghost predicate Vacant(m: Mem, d: int, lo: int, hi: int)
  {
    Shape(m) && IsFrame(d) && forall v {:trigger PteAt(m, d, v)} :: IsPage(v) && lo <= v * PGSIZE < hi ==> !Present(PteAt(m, d, v))
  }

  /** Every page that begins below size is mapped. */
  ghost predicate Occupied(m: Mem, d: int, size: int)
  {
    Shape(m) && IsFrame(d) && forall v {:trigger PteAt(m, d, v)} :: IsPage(v) && v * PGSIZE < size ==> Present(PteAt(m, d, v))
  }

  /** From m to g exactly the pages that begin in [newsz, oldsz) are gone. */
  ghost predicate Shrunk(m: Mem, g: Mem, d: int, oldsz: int, newsz: int)
  {
    && Shape(m) && Shape(g) && IsFrame(d)
    && forall x {:trigger Seal(x)} :: Seal(x) ==>
         && Vacant(g, d, newsz, oldsz)
         && forall v {:trigger SameAt(m, g, d, v)} :: IsPage(v) && !(newsz <= v * PGSIZE < oldsz) ==> SameAt(m, g, d, v)
  }

  /** From m to g exactly the pages that begin in [oldsz, newsz) are new: zeroed, and
      writable by the user. */
  ghost predicate Grown(m: Mem, g: Mem, d: int, oldsz: int, newsz: int)
  {
    && Shape(m) && Shape(g) && IsFrame(d)
    && forall x {:trigger Seal(x)} :: Seal(x) ==>
         && (forall v {:trigger FreshAt(g, d, v)} :: IsPage(v) && oldsz <= v * PGSIZE < newsz ==> FreshAt(g, d, v))
         && (forall v {:trigger SameAt(m, g, d, v)} :: IsPage(v) && !(oldsz <= v * PGSIZE < newsz) ==> SameAt(m, g, d, v))
  }

  /** In g, directory e has a copy of every page of d that begins below sz, and of the rest
      only the kernel's pages. */
  ghost predicate Copied(m: Mem, g: Mem, d: int, e: int, data: int, sz: int)
  {
    && Shape(m) && Shape(g) && IsFrame(d) && IsFrame(e)
    && forall x {:trigger Seal(x)} :: Seal(x) ==>
         && (forall v {:trigger CopyAt(m, g, d, e, v)} :: IsPage(v) && v * PGSIZE < sz ==> CopyAt(m, g, d, e, v))
         && (forall v {:trigger PteAt(g, e, v)} :: IsPage(v) && v * PGSIZE >= sz ==> PteAt(g, e, v) == KMap(data, v))
         && (forall v {:trigger SameAt(m, g, d, v)} :: IsPage(v) ==> SameAt(m, g, d, v))
  }

  lemma VacantIs(m: Mem, d: int, lo: int, hi: int)
    ensures Vacant(m, d, lo, hi) <==> Absent(m, d, PageUp(lo), PageUp(hi))
  {
    forall v ensures lo <= v * PGSIZE < hi <==> PageUp(lo) <= v < PageUp(hi) {
      PageUpIs(lo, v);
      PageUpIs(hi, v);
    }
  }

  lemma OccupiedIs(m: Mem, d: int, size: int)
    requires 0 <= size <= KERNBASE && Occupied(m, d, size)
    ensures AllThere(m, d, PageUp(size))
  {
    forall v | 0 <= v < PageUp(size) ensures Present(PteAt(m, d, v)) {
      PageUpIs(size, v);
    }
  }

  lemma ShrunkBy(m: Mem, g: Mem, d: int, H: set<int>, oldsz: int, newsz: int)
    requires Shape(m) && Moved(m, g, d, H, PageUp(newsz), PageUp(oldsz)) && Absent(g, d, PageUp(newsz), PageUp(oldsz))
    ensures Shrunk(m, g, d, oldsz, newsz)
  {
    VacantIs(g, d, newsz, oldsz);
    forall v | IsPage(v) && !(newsz <= v * PGSIZE < oldsz) ensures SameAt(m, g, d, v) {
      PageUpIs(newsz, v);
      PageUpIs(oldsz, v);
      StillAt(m, g, d, H, PageUp(newsz), PageUp(oldsz), v);
    }
  }

  lemma GrownBy(m: Mem, g: Mem, d: int, H: set<int>, oldsz: int, newsz: int)
    requires Shape(m) && Moved(m, g, d, H, PageUp(oldsz), PageUp(newsz)) && Fresh(g, d, PageUp(oldsz), PageUp(newsz))
    ensures Grown(m, g, d, oldsz, newsz)
  {
    forall v | IsPage(v) && oldsz <= v * PGSIZE < newsz ensures FreshAt(g, d, v) {
      PageUpIs(oldsz, v);
      PageUpIs(newsz, v);
    }
    forall v | IsPage(v) && !(oldsz <= v * PGSIZE < newsz) ensures SameAt(m, g, d, v) {
      PageUpIs(oldsz, v);
      PageUpIs(newsz, v);
      StillAt(m, g, d, H, PageUp(oldsz), PageUp(newsz), v);
    }
  }

  lemma GrowingDone(m: Mem, g: Mem, d: int, H: set<int>, oldsz: int, newsz: int, v: int)
    requires Shape(m) && Growing(m, g, d, H, PageUp(oldsz), v, PageUp(newsz)) && oldsz <= newsz <= v * PGSIZE
    requires v <= PageUp(newsz) || v == PageUp(oldsz)
    ensures Moved(m, g, d, H, PageUp(oldsz), PageUp(newsz)) && Grown(m, g, d, oldsz, newsz)
    ensures Enough(m, d, PageUp(newsz) - PageUp(oldsz), PageUp(oldsz), PageUp(newsz))
  {
    PageUpIs(newsz, v);
    PageUpIs(oldsz, PageUp(newsz));
    PageUpIs(newsz, PageUp(newsz));
    GrowingEnd(m, g, d, H, PageUp(oldsz), v, PageUp(newsz));
    GrownBy(m, g, d, H, oldsz, newsz);
  }

  lemma ParentSame(m: Mem, g: Mem, d: int, e: int, H: set<int>, data: int, n: int, v: int)
    requires Ok(m, H) && IsDir(m, d) && Copying(m, g, d, e, H, data, n) && IsPage(v)
    ensures SameAt(m, g, d, v)
  {
    assert Key(0);
    assert SameMap(m, g, d);
    assert PteAt(g, d, v) == PteAt(m, d, v);
    if UserAt(m, d, v) {
      assert MapsUser(m, d, v / ENTRIES, v % ENTRIES);
      OtherPage(m, g, e, d, v / ENTRIES, v % ENTRIES);
    }
  }

  lemma CopiedBy(m: Mem, g: Mem, d: int, e: int, H: set<int>, data: int, sz: int)
    requires Ok(m, H) && IsDir(m, d) && Copying(m, g, d, e, H, data, PageUp(sz)) && 0 <= sz <= KERNBASE && AllThere(m, d, PageUp(sz))
    ensures Copied(m, g, d, e, data, sz)
  {
    forall v | IsPage(v) && v * PGSIZE < sz ensures CopyAt(m, g, d, e, v) {
      PageUpIs(sz, v);
      CopyIs(m, g, d, e, H, data, PageUp(sz), v, v);
    }
    forall v | IsPage(v) && v * PGSIZE >= sz ensures PteAt(g, e, v) == KMap(data, v) {
      PageUpIs(sz, v);
      assert Key(0);
    }
    forall v | IsPage(v) ensures SameAt(m, g, d, v) { ParentSame(m, g, d, e, H, data, PageUp(sz), v); }
  }

  // ------------------------------------------------------------------
  // Single addresses
  // ------------------------------------------------------------------

  predicate Bit(e: word, b: int)
    requires b > 0
  {
    e / b % 2 == 1
  }

  /** The processor's rule: a user access needs P and U, and a write W, in the directory
      entry and in the table entry. */
  ghost predicate UserMay(m: Mem, d: int, a: int, write: bool)
    requires Shape(m) && IsFrame(d) && 0 <= a < WRAP
  {
    var e, f := m.pages[d][a / PGSIZE / ENTRIES], PteAt(m, d, a / PGSIZE);
    Present(e) && Present(f) && Bit(e, PTE_U) && Bit(f, PTE_U) && (write ==> Bit(e, PTE_W) && Bit(f, PTE_W))
  }

  /** The word that address a reads. */
  ghost function WordAt(m: Mem, d: int, a: int): word
    requires Shape(m) && IsFrame(d) && 0 <= a < WRAP
  {
    var p := Frame(PteAt(m, d, a / PGSIZE));
    if IsFrame(p) then m.pages[p][a % PGSIZE / 4] else 0
  }

  /** Directory entries let everything through: the entry of the page alone decides. */
  lemma PageDecides(m: Mem, d: int, H: set<int>, a: int, write: bool)
    requires Ok(m, H) && IsDir(m, d) && 0 <= a < WRAP
    ensures var f := PteAt(m, d, a / PGSIZE);
      UserMay(m, d, a, write) <==> Present(f) && Bit(f, PTE_U) && (write ==> Bit(f, PTE_W))
  {
    var i := a / PGSIZE / ENTRIES;
    if Present(m.pages[d][i]) {
      assert HasTable(m, d, i) && Flags(m.pages[d][i]) == 7 by { assert Key(0); assert HasTable(m, d, i); }
      FlagBits(m.pages[d][i]);
    }
  }

  /** U and W are among the flags. */
  lemma FlagBits(e: word)
    ensures Present(e) <==> Flags(e) % 2 == 1
    ensures Bit(e, PTE_W) <==> Flags(e) / 2 % 2 == 1
    ensures Bit(e, PTE_U) <==> Flags(e) / 4 % 2 == 1
  {
    var q, r := e / PGSIZE, e % PGSIZE;
    DivIs(e, 2, 2048 * q + r / 2, r % 2);
    DivIs(e / 2, 2, 1024 * q + r / 2 / 2, r / 2 % 2);
    DivIs(e, 4, 1024 * q + r / 4, r % 4);
    DivIs(e / 4, 2, 512 * q + r / 4 / 2, r / 4 % 2);
  }

  /** The same flags give the same rights. */
  lemma SameRights(m: Mem, g: Mem, d: int, e: int, H: set<int>, a: int, write: bool)
    requires Ok(m, H) && IsDir(m, d) && Ok(g, H) && IsDir(g, e) && 0 <= a < WRAP
    requires Flags(PteAt(g, e, a / PGSIZE)) == Flags(PteAt(m, d, a / PGSIZE))
    ensures UserMay(g, e, a, write) <==> UserMay(m, d, a, write)
  {
    PageDecides(m, d, H, a, write);
    PageDecides(g, e, H, a, write);
    FlagBits(PteAt(m, d, a / PGSIZE));
    FlagBits(PteAt(g, e, a / PGSIZE));
  }

  /** After deallocuvm: an address below newsz reads as before, with the same rights, and
      one from newsz up to oldsz is out of reach unless its page begins below newsz. */
  lemma ShrunkReads(m: Mem, g: Mem, d: int, H: set<int>, oldsz: int, newsz: int, a: int, write: bool)
    requires Ok(m, H) && IsDir(m, d) && Ok(g, H) && IsDir(g, d) && Shrunk(m, g, d, oldsz, newsz) && 0 <= a < KERNBASE
    ensures a < newsz || a / PGSIZE * PGSIZE < newsz ==> (UserMay(g, d, a, write) <==> UserMay(m, d, a, write))
    ensures a < newsz && UserMay(m, d, a, write) ==> WordAt(g, d, a) == WordAt(m, d, a)
    ensures newsz <= a / PGSIZE * PGSIZE && a < oldsz ==> !UserMay(g, d, a, write)
  {
    var v := a / PGSIZE;
    assert Seal(0);
    if newsz <= v * PGSIZE < oldsz {
      assert !Present(PteAt(g, d, v));
    } else {
      assert SameAt(m, g, d, v);
      SameRights(m, g, d, d, H, a, write);
    }
  }

  /** After allocuvm: an address below oldsz reads as before, with the same rights; one from
      oldsz up to newsz reads zero and may be written, or shares the page of oldsz - 1 and
      has its rights. */
  lemma GrownReads(m: Mem, g: Mem, d: int, H: set<int>, oldsz: int, newsz: int, a: int, write: bool)
    requires Ok(m, H) && IsDir(m, d) && Ok(g, H) && IsDir(g, d) && Grown(m, g, d, oldsz, newsz)
    requires 0 <= oldsz && 0 <= a < newsz <= KERNBASE
    ensures a < oldsz ==> (UserMay(g, d, a, write) <==> UserMay(m, d, a, write))
    ensures a < oldsz && UserMay(m, d, a, write) ==> WordAt(g, d, a) == WordAt(m, d, a)
    ensures oldsz <= a / PGSIZE * PGSIZE ==> UserMay(g, d, a, write) && WordAt(g, d, a) == 0
    ensures a / PGSIZE * PGSIZE < oldsz <= a ==> (UserMay(g, d, a, write) <==> UserMay(m, d, oldsz - 1, write))
  {
    var v := a / PGSIZE;
    assert Seal(0);
    if oldsz <= v * PGSIZE {
      assert FreshAt(g, d, v);
      PageDecides(g, d, H, a, write);
      FlagBits(PteAt(g, d, v));
    } else {
      assert SameAt(m, g, d, v);
      SameRights(m, g, d, d, H, a, write);
      if oldsz <= a { assert (oldsz - 1) / PGSIZE == v; }
    }
  }

  /** allocuvm covers the new size: if the last address in use could be reached, all
      addresses up to newsz can. */
  lemma GrownCovers(m: Mem, g: Mem, d: int, H: set<int>, oldsz: int, newsz: int, a: int, write: bool)
    requires Ok(m, H) && IsDir(m, d) && Ok(g, H) && IsDir(g, d) && Grown(m, g, d, oldsz, newsz)
    requires 0 <= oldsz <= a < newsz <= KERNBASE && (oldsz % PGSIZE != 0 ==> UserMay(m, d, oldsz - 1, write))
    ensures UserMay(g, d, a, write)
  {
    GrownReads(m, g, d, H, oldsz, newsz, a, write);
  }

  /** After copyuvm: below sz the child reads what the parent reads, with the parent's
      rights; the parent is unchanged; the kernel's half is closed to the user. */
  lemma CopiedReads(m: Mem, g: Mem, d: int, e: int, H: set<int>, data: int, sz: int, a: int, write: bool)
    requires Ok(m, H) && IsDir(m, d) && Ok(g, H) && IsDir(g, d) && IsDir(g, e) && Copied(m, g, d, e, data, sz)
    requires 0 <= a < WRAP && EXT < data < N
    ensures a < sz <= KERNBASE ==> (UserMay(g, e, a, write) <==> UserMay(m, d, a, write)) && WordAt(g, e, a) == WordAt(m, d, a)
    ensures UserMay(g, d, a, write) <==> UserMay(m, d, a, write)
    ensures sz <= KERNBASE && a >= KERNBASE ==> !UserMay(g, e, a, write)
  {
    var v := a / PGSIZE;
    assert SameAt(m, g, d, v) by { assert Seal(0); }
    SameRights(m, g, d, d, H, a, write);
    if a < sz <= KERNBASE {
      assert CopyAt(m, g, d, e, v) by { assert Seal(0); }
      SameRights(m, g, d, e, H, a, write);
    } else if sz <= KERNBASE <= a {
      assert PteAt(g, e, v) == KMap(data, v) by { assert Seal(0); }
      PageDecides(g, e, H, a, write);
      KernelReads(data, a);
    }
  }

  /** What kmap maps, by address: memory from KERNBASE on, devices where they are, all for
      the kernel alone; only the text, from EXTMEM to the data, is not writable. */
  lemma KernelReads(data: int, a: int)
    requires EXT < data < N && KERNBASE <= a < WRAP
    ensures var e := KMap(data, a / PGSIZE);
      && !Bit(e, PTE_U)
      && (Present(e) <==> a < KERNBASE + 0xE00_0000 || a >= 0xFE00_0000)
      && (a < KERNBASE + 0xE00_0000 ==> Frame(e) * PGSIZE + a % PGSIZE == a - KERNBASE)
      && (a >= 0xFE00_0000 ==> Frame(e) * PGSIZE + a % PGSIZE == a)
      && (Present(e) ==> (Bit(e, PTE_W) <==> !(KERNBASE + 0x10_0000 <= a < KERNBASE + data * PGSIZE)))
  {
    FlagBits(KMap(data, a / PGSIZE));
  }
}

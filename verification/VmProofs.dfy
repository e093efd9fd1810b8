/** What each small change of lab2/vm.c and lab2/kalloc.c keeps. */
module VmProofs {
  import opened VmModel

  /** Every frame is in one place: once on the free list, once in one address space, or
      in the hands of the code that took it or of others. */
  ghost predicate MemOk(m: Mem) { Shape(m) && ListOk(m) && FreeOk(m) && SpacesOk(m) }

  // ------------------------------------------------------------------
  // What is kept for everybody else
  // ------------------------------------------------------------------

  /** Frames that an operation on directory d may touch. */
  predicate Mine(r: Role, p: int, d: int)
  {
    r == Free || r == Held || (r == Dir && p == d) || (r.Table? && r.d == d) || (r.User? && r.d == d)
  }

  ghost predicate Kept(m: Mem, g: Mem, d: int)
    requires Shape(m)
  {
    && Shape(g) && g.lo == m.lo
    && (forall p :: IsFrame(p) && !Mine(m.role[p], p, d) ==> g.role[p] == m.role[p] && g.pages[p] == m.pages[p])
    && (forall p :: IsFrame(p) && Mine(m.role[p], p, d) ==> Mine(g.role[p], p, d))
  }

  lemma KeptTwice(m: Mem, g: Mem, h: Mem, d: int)
    requires Shape(m) && Kept(m, g, d) && Kept(g, h, d)
    ensures Kept(m, h, d)
  {
  }

  /** The mapping of directory d is the same function of the address. */
  ghost predicate SameMap(m: Mem, g: Mem, d: int)
    requires Shape(m) && Shape(g) && IsFrame(d)
  {
    forall i, j {:trigger Pte(g, d, i, j)} :: IsIndex(i) && IsIndex(j) ==> Pte(g, d, i, j) == Pte(m, d, i, j)
  }

  lemma OtherPte(m: Mem, g: Mem, d: int, e: int, i: int, j: int)
    requires Shape(m) && DirsOk(m) && Kept(m, g, d) && IsDir(m, e) && e != d && IsIndex(i) && IsIndex(j)
    ensures Pte(g, e, i, j) == Pte(m, e, i, j)
  {
    assert g.pages[e] == m.pages[e];
    assert HasTable(m, e, i) ==> m.role[TableOf(m, e, i)] == Table(e, i);
  }

  lemma OtherPage(m: Mem, g: Mem, d: int, e: int, i: int, j: int)
    requires Shape(m) && PtesOk(m) && Kept(m, g, d) && e != d && MapsUser(m, e, i, j)
    ensures IsFrame(Frame(Pte(m, e, i, j))) && g.pages[Frame(Pte(m, e, i, j))] == m.pages[Frame(Pte(m, e, i, j))]
  {
    assert m.role[Frame(Pte(m, e, i, j))] == User(e, i, j);
  }

  /** Any other address space is untouched: the same entries and the same pages. */
  lemma OtherSpace(m: Mem, g: Mem, d: int, e: int)
    requires Shape(m) && DirsOk(m) && Kept(m, g, d) && IsDir(m, e) && e != d
    ensures IsDir(g, e) && SameMap(m, g, e)
  {
    forall i, j | IsIndex(i) && IsIndex(j) ensures Pte(g, e, i, j) == Pte(m, e, i, j) {
      OtherPte(m, g, d, e, i, j);
    }
  }

  // ------------------------------------------------------------------
  // Changes outside the address spaces
  // ------------------------------------------------------------------

  predicate InSpace(r: Role) { r.Dir? || r.Table? || r.User? }

  ghost predicate SpacesSame(m: Mem, g: Mem)
    requires Shape(m) && Shape(g)
  {
    forall p :: IsFrame(p) && (InSpace(m.role[p]) || InSpace(g.role[p])) ==> g.role[p] == m.role[p] && g.pages[p] == m.pages[p]
  }

  lemma SamePte(m: Mem, g: Mem, d: int, i: int, j: int)
    requires Shape(m) && Shape(g) && DirsOk(m) && SpacesSame(m, g) && IsDir(m, d) && IsIndex(i) && IsIndex(j)
    ensures Pte(g, d, i, j) == Pte(m, d, i, j) && HasTable(g, d, i) == HasTable(m, d, i)
  {
    assert g.pages[d] == m.pages[d];
    assert HasTable(m, d, i) ==> m.role[TableOf(m, d, i)] == Table(d, i);
  }

  lemma SpacesKept(m: Mem, g: Mem)
    requires Shape(m) && SpacesOk(m) && Shape(g) && SpacesSame(m, g) && Allocated(g)
    ensures SpacesOk(g)
    ensures forall d :: IsDir(m, d) ==> IsDir(g, d) && SameMap(m, g, d)
  {
    forall d, i, j | IsDir(m, d) && IsIndex(i) && IsIndex(j) ensures Pte(g, d, i, j) == Pte(m, d, i, j) {
      SamePte(m, g, d, i, j);
    }
    forall d, i | IsDir(g, d) && IsIndex(i) && Present(g.pages[d][i])
      ensures HasTable(g, d, i) && g.role[TableOf(g, d, i)] == Table(d, i)
    {
      assert HasTable(m, d, i);
    }
    assert TablesOk(g);
    forall d, i, j | MapsUser(g, d, i, j)
      ensures IsFrame(Frame(Pte(g, d, i, j))) && g.role[Frame(Pte(g, d, i, j))] == User(d, i, j)
    {
      assert MapsUser(m, d, i, j);
    }
    forall p | IsFrame(p) && g.role[p].User?
      ensures var d, i, j := g.role[p].d, g.role[p].i, g.role[p].j; MapsUser(g, d, i, j) && Frame(Pte(g, d, i, j)) == p
    {
      var d, i, j := g.role[p].d, g.role[p].i, g.role[p].j;
      assert MapsUser(m, d, i, j);
    }
  }

  // ------------------------------------------------------------------
  // kalloc and kfree
  // ------------------------------------------------------------------

  lemma TakeLinks(m: Mem)
    requires Shape(m) && ListOk(m) && m.free != []
    ensures Shape(Take(m)) && ListOk(Take(m))
  {
    var g := Take(m);
    assert m.pages[m.free[0]][0] == Link(m.free, 1);
    forall k | 0 <= k < |g.free| ensures g.pages[g.free[k]][0] == Link(g.free, k + 1) && m.lo <= g.free[k] < N {
      assert g.free[k] == m.free[k + 1];
      assert m.pages[m.free[k + 1]][0] == Link(m.free, k + 2);
    }
  }

  lemma TakeFree(m: Mem)
    requires Shape(m) && FreeOk(m) && m.free != []
    ensures Shape(Take(m)) && FreeOk(Take(m))
  {
    var g, p := Take(m), m.free[0];
    forall k | 0 <= k < |g.free| ensures g.free[k] == m.free[k + 1] && g.role[g.free[k]] == Free && m.lo <= g.free[k] < N {
      assert m.free[k + 1] != p;
    }
    forall q | IsFrame(q) && g.role[q] == Free ensures q in g.free {
      assert q in m.free;
      var k :| 0 <= k < |m.free| && m.free[k] == q;
      assert k > 0 && g.free[k - 1] == q;
    }
  }

  /** kalloc takes the first free frame off the list. */
  lemma TakeOk(m: Mem, d: int)
    requires MemOk(m) && m.free != []
    ensures MemOk(Take(m)) && IsHeld(Take(m), m.free[0]) && m.free[0] >= m.lo && Kept(m, Take(m), d)
    ensures forall e :: IsDir(m, e) ==> IsDir(Take(m), e) && SameMap(m, Take(m), e)
  {
    TakeLinks(m);
    TakeFree(m);
    assert m.role[m.free[0]] == Free;
    SpacesKept(m, Take(m));
  }

  lemma LinkCons(p: int, free: seq<int>, k: int)
    requires IsFrame(p) && (forall l :: 0 <= l < |free| ==> IsFrame(free[l])) && 0 <= k
    ensures forall l :: 0 <= l < |[p] + free| ==> IsFrame(([p] + free)[l])
    ensures Link([p] + free, k + 1) == Link(free, k)
  {
  }

  lemma GiveLinks(m: Mem, p: int)
    requires Shape(m) && ListOk(m) && m.lo <= p < N && p !in m.free
    ensures Shape(Give(m, p)) && ListOk(Give(m, p))
  {
    var g := Give(m, p);
    forall k | 0 <= k < |g.free| ensures g.pages[g.free[k]][0] == Link(g.free, k + 1) {
      LinkCons(p, m.free, k);
      if k > 0 {
        assert g.free[k] == m.free[k - 1];
        assert m.pages[m.free[k - 1]][0] == Link(m.free, k);
      }
    }
  }

  lemma GiveFree(m: Mem, p: int)
    requires Shape(m) && FreeOk(m) && m.lo <= p < N && p !in m.free
    ensures Shape(Give(m, p)) && FreeOk(Give(m, p))
  {
    var g := Give(m, p);
    forall k | 0 <= k < |g.free| ensures g.role[g.free[k]] == Free && m.lo <= g.free[k] < N {
      assert k > 0 ==> g.free[k] == m.free[k - 1];
    }
    forall k, l | 0 <= k < l < |g.free| ensures g.free[k] != g.free[l] {
      assert g.free[l] == m.free[l - 1];
      assert k > 0 ==> g.free[k] == m.free[k - 1];
    }
    forall q | IsFrame(q) && g.role[q] == Free ensures q in g.free {
      assert q != p ==> q in m.free;
    }
  }

  /** kfree puts a held frame on the list. */
  lemma GiveOk(m: Mem, p: int, d: int)
    requires MemOk(m) && IsHeld(m, p)
    ensures MemOk(Give(m, p)) && Kept(m, Give(m, p), d)
    ensures forall e :: IsDir(m, e) ==> IsDir(Give(m, p), e) && SameMap(m, Give(m, p), e)
  {
    assert m.lo <= p && p !in m.free;
    GiveLinks(m, p);
    GiveFree(m, p);
    SpacesKept(m, Give(m, p));
  }

  /** The free list does not notice a change elsewhere. */
  lemma ListKept(m: Mem, g: Mem)
    requires Shape(m) && ListOk(m) && FreeOk(m) && Shape(g) && g.lo == m.lo && g.free == m.free && g.head == m.head
    requires forall p :: IsFrame(p) ==> (g.role[p] == Free <==> m.role[p] == Free)
    requires forall p :: IsFrame(p) && m.role[p] == Free ==> g.pages[p] == m.pages[p]
    ensures ListOk(g) && FreeOk(g)
  {
    forall k | 0 <= k < |m.free| ensures g.pages[g.free[k]][0] == Link(g.free, k + 1) {
      assert m.role[m.free[k]] == Free;
    }
  }

  lemma FillOk(m: Mem, p: int, c: Page, d: int)
    requires MemOk(m) && IsHeld(m, p)
    ensures MemOk(Fill(m, p, c)) && Kept(m, Fill(m, p, c), d)
    ensures forall e :: IsDir(m, e) ==> IsDir(Fill(m, p, c), e) && SameMap(m, Fill(m, p, c), e)
  {
    ListKept(m, Fill(m, p, c));
    SpacesKept(m, Fill(m, p, c));
  }

  // ------------------------------------------------------------------
  // Building an address space
  // ------------------------------------------------------------------

  /** A new directory maps nothing. */
  lemma AddDirSpaces(m: Mem, d: int)
    requires Shape(m) && SpacesOk(m) && IsHeld(m, d) && m.pages[d] == ZeroPage()
    ensures Shape(AddDir(m, d)) && SpacesOk(AddDir(m, d))
    ensures forall i, j :: IsIndex(i) && IsIndex(j) ==> Pte(AddDir(m, d), d, i, j) == 0
    ensures forall e :: IsDir(m, e) ==> IsDir(AddDir(m, d), e) && SameMap(m, AddDir(m, d), e)
  {
    var g := AddDir(m, d);
    forall e, i, j | IsIndex(i) && IsIndex(j) && IsDir(g, e) ensures Pte(g, e, i, j) == if e == d then 0 else Pte(m, e, i, j) {
    }
    forall e, i | IsDir(g, e) && IsIndex(i) && Present(g.pages[e][i])
      ensures HasTable(g, e, i) && g.role[TableOf(g, e, i)] == Table(e, i)
    {
      assert HasTable(m, e, i);
    }
    assert TablesOk(g);
    forall e, i, j | MapsUser(g, e, i, j)
      ensures IsFrame(Frame(Pte(g, e, i, j))) && g.role[Frame(Pte(g, e, i, j))] == User(e, i, j)
    {
      assert MapsUser(m, e, i, j);
    }
    forall p | IsFrame(p) && g.role[p].User?
      ensures var e, i, j := g.role[p].d, g.role[p].i, g.role[p].j; MapsUser(g, e, i, j) && Frame(Pte(g, e, i, j)) == p
    {
      assert MapsUser(m, g.role[p].d, g.role[p].i, g.role[p].j);
    }
  }

  lemma AddDirOk(m: Mem, d: int)
    requires MemOk(m) && IsHeld(m, d) && m.pages[d] == ZeroPage()
    ensures MemOk(AddDir(m, d)) && Kept(m, AddDir(m, d), d) && IsDir(AddDir(m, d), d)
    ensures forall i, j :: IsIndex(i) && IsIndex(j) ==> Pte(AddDir(m, d), d, i, j) == 0
  {
    ListKept(m, AddDir(m, d));
    AddDirSpaces(m, d);
  }

  ghost predicate CanAddTable(m: Mem, d: int, i: int, t: int)
    requires Shape(m)
  {
    IsDir(m, d) && IsIndex(i) && !Present(m.pages[d][i]) && IsHeld(m, t) && m.pages[t] == ZeroPage()
  }

  lemma AddTablePte(m: Mem, d: int, i: int, t: int, e: int, k: int, j: int)
    requires Shape(m) && DirsOk(m) && CanAddTable(m, d, i, t) && IsDir(m, e) && IsIndex(k) && IsIndex(j)
    ensures Shape(AddTable(m, d, i, t)) && Pte(AddTable(m, d, i, t), e, k, j) == Pte(m, e, k, j)
  {
    var g := AddTable(m, d, i, t);
    assert HasTable(m, e, k) ==> m.role[TableOf(m, e, k)] == Table(e, k);
    if e == d && k == i {
      assert g.pages[d][i] == PGSIZE * t + 7;
      assert Frame(g.pages[d][i]) == t;
    } else {
      assert g.pages[e][k] == m.pages[e][k];
    }
  }

  lemma AddTableDirs(m: Mem, d: int, i: int, t: int)
    requires Shape(m) && DirsOk(m) && TablesOk(m) && CanAddTable(m, d, i, t)
    ensures var g := AddTable(m, d, i, t);
      Shape(g) && DirsOk(g) && TablesOk(g) && HasTable(g, d, i) && TableOf(g, d, i) == t
  {
    var g := AddTable(m, d, i, t);
    TableThere(m, d, i, t, g);
    forall e, k | IsDir(g, e) && IsIndex(k) && Present(g.pages[e][k])
      ensures HasTable(g, e, k) && g.role[TableOf(g, e, k)] == Table(e, k)
    {
      if e != d || k != i { OtherTable(m, d, i, t, g, e, k); }
    }
    forall u | IsFrame(u) && g.role[u].Table?
      ensures var e, k := g.role[u].d, g.role[u].i; IsDir(g, e) && IsIndex(k) && HasTable(g, e, k) && TableOf(g, e, k) == u
    {
      if u != t {
        assert g.role[u] == m.role[u];
        assert HasTable(m, m.role[u].d, m.role[u].i);
        OtherTable(m, d, i, t, g, m.role[u].d, m.role[u].i);
      }
    }
  }

  lemma TableThere(m: Mem, d: int, i: int, t: int, g: Mem)
    requires Shape(m) && CanAddTable(m, d, i, t) && g == AddTable(m, d, i, t)
    ensures Shape(g) && IsDir(g, d) && HasTable(g, d, i) && TableOf(g, d, i) == t && g.role[t] == Table(d, i)
  {
    assert g.pages[d][i] == PGSIZE * t + 7 && Frame(g.pages[d][i]) == t;
  }

  lemma OtherTable(m: Mem, d: int, i: int, t: int, g: Mem, e: int, k: int)
    requires Shape(m) && DirsOk(m) && CanAddTable(m, d, i, t) && g == AddTable(m, d, i, t) && Shape(g)
    requires IsDir(m, e) && IsIndex(k) && (e != d || k != i) && Present(m.pages[e][k])
    ensures IsDir(g, e) && HasTable(g, e, k) && TableOf(g, e, k) == TableOf(m, e, k) && g.role[TableOf(g, e, k)] == Table(e, k)
  {
    assert g.pages[e][k] == m.pages[e][k];
    assert HasTable(m, e, k);
  }

  /** Entries and user pages keep pointing to each other when no entry changes. */
  lemma PtesKept(m: Mem, g: Mem)
    requires Shape(m) && Shape(g) && PtesOk(m) && UsersOk(m)
    requires forall d :: IsDir(m, d) == IsDir(g, d)
    requires forall p :: IsFrame(p) && (m.role[p].User? || g.role[p].User?) ==> g.role[p] == m.role[p]
    requires forall d, i, j {:trigger Pte(g, d, i, j)} :: IsDir(m, d) && IsIndex(i) && IsIndex(j) ==> Pte(g, d, i, j) == Pte(m, d, i, j)
    ensures PtesOk(g) && UsersOk(g)
  {
    forall d, i, j | MapsUser(g, d, i, j)
      ensures IsFrame(Frame(Pte(g, d, i, j))) && g.role[Frame(Pte(g, d, i, j))] == User(d, i, j)
    {
      assert MapsUser(m, d, i, j);
    }
    forall p | IsFrame(p) && g.role[p].User?
      ensures var d, i, j := g.role[p].d, g.role[p].i, g.role[p].j; MapsUser(g, d, i, j) && Frame(Pte(g, d, i, j)) == p
    {
      assert MapsUser(m, m.role[p].d, m.role[p].i, m.role[p].j);
    }
  }

  /** A new, zeroed table changes no mapping. */
  lemma AddTableOk(m: Mem, d: int, i: int, t: int)
    requires MemOk(m) && CanAddTable(m, d, i, t)
    ensures var g := AddTable(m, d, i, t);
      MemOk(g) && Kept(m, g, d) && SameMap(m, g, d) && IsDir(g, d) && HasTable(g, d, i) && TableOf(g, d, i) == t
  {
    var g := AddTable(m, d, i, t);
    AddTableDirs(m, d, i, t);
    forall e, k, j | IsDir(m, e) && IsIndex(k) && IsIndex(j) ensures Pte(g, e, k, j) == Pte(m, e, k, j) {
      AddTablePte(m, d, i, t, e, k, j);
    }
    PtesKept(m, g);
    ListKept(m, g);
  }

  // ------------------------------------------------------------------
  // Setting one entry
  // ------------------------------------------------------------------

  /** Entry (i, j) of directory d becomes e; no other entry of any directory changes. */
  ghost predicate PteSet(m: Mem, g: Mem, d: int, i: int, j: int, e: word)
    requires Shape(m)
  {
    && Shape(g) && IsDir(m, d) && IsIndex(i) && IsIndex(j)
    && forall c, k, l {:trigger Pte(g, c, k, l)} :: IsDir(m, c) && IsIndex(k) && IsIndex(l) ==>
         Pte(g, c, k, l) == if c == d && k == i && l == j then e else Pte(m, c, k, l)
  }

  lemma SetEntryPte(m: Mem, d: int, i: int, j: int, e: word)
    requires Shape(m) && DirsOk(m) && IsDir(m, d) && IsIndex(i) && IsIndex(j) && HasTable(m, d, i)
    ensures PteSet(m, SetEntry(m, TableOf(m, d, i), j, e), d, i, j, e)
  {
    var t := TableOf(m, d, i);
    var g := SetEntry(m, t, j, e);
    assert m.role[t] == Table(d, i);
    forall c, k, l | IsDir(m, c) && IsIndex(k) && IsIndex(l)
      ensures Pte(g, c, k, l) == if c == d && k == i && l == j then e else Pte(m, c, k, l)
    {
      assert g.pages[c] == m.pages[c];
      assert HasTable(m, c, k) ==> m.role[TableOf(m, c, k)] == Table(c, k);
    }
  }

  lemma SetEntryDirs(m: Mem, d: int, i: int, j: int, e: word, g: Mem)
    requires Shape(m) && DirsOk(m) && TablesOk(m) && IsDir(m, d) && IsIndex(i) && IsIndex(j) && HasTable(m, d, i)
    requires Shape(g) && g.pages == SetEntry(m, TableOf(m, d, i), j, e).pages
    requires forall p :: IsFrame(p) && (m.role[p].Dir? || m.role[p].Table? || g.role[p].Dir? || g.role[p].Table?) ==> g.role[p] == m.role[p]
    ensures DirsOk(g) && TablesOk(g)
  {
    assert m.role[TableOf(m, d, i)] == Table(d, i);
    forall c, k | IsDir(g, c) && IsIndex(k) && Present(g.pages[c][k])
      ensures HasTable(g, c, k) && g.role[TableOf(g, c, k)] == Table(c, k)
    {
      assert HasTable(m, c, k);
    }
    forall u | IsFrame(u) && g.role[u].Table?
      ensures var c, k := g.role[u].d, g.role[u].i; IsDir(g, c) && IsIndex(k) && HasTable(g, c, k) && TableOf(g, c, k) == u
    {
      assert HasTable(m, m.role[u].d, m.role[u].i);
    }
  }

  ghost predicate CanMap(m: Mem, d: int, i: int, j: int, p: int)
    requires Shape(m)
  {
    && IsDir(m, d) && 0 <= i < USER && IsIndex(j) && HasTable(m, d, i) && !Present(Pte(m, d, i, j)) && IsHeld(m, p)
  }

  /** The held page p is mapped at (i, j). */
  ghost function MapUser(m: Mem, d: int, i: int, j: int, p: int, e: word): Mem
    requires Shape(m) && CanMap(m, d, i, j, p)
  {
    Pass(SetEntry(m, TableOf(m, d, i), j, e), p, User(d, i, j))
  }

  lemma MapUserPtes(m: Mem, d: int, i: int, j: int, p: int, e: word)
    requires Shape(m) && DirsOk(m) && PtesOk(m) && UsersOk(m) && CanMap(m, d, i, j, p) && Present(e) && Frame(e) == p
    ensures PteSet(m, MapUser(m, d, i, j, p, e), d, i, j, e)
    ensures PtesOk(MapUser(m, d, i, j, p, e)) && UsersOk(MapUser(m, d, i, j, p, e))
  {
    var g := MapUser(m, d, i, j, p, e);
    SetEntryPte(m, d, i, j, e);
    var h := SetEntry(m, TableOf(m, d, i), j, e);
    forall c, k, l | IsDir(m, c) && IsIndex(k) && IsIndex(l) ensures Pte(g, c, k, l) == Pte(h, c, k, l) {
    }
    forall c, k, l | MapsUser(g, c, k, l)
      ensures IsFrame(Frame(Pte(g, c, k, l))) && g.role[Frame(Pte(g, c, k, l))] == User(c, k, l)
    {
      assert c != d || k != i || l != j ==> MapsUser(m, c, k, l);
    }
    forall q | IsFrame(q) && g.role[q].User?
      ensures var c, k, l := g.role[q].d, g.role[q].i, g.role[q].j; MapsUser(g, c, k, l) && Frame(Pte(g, c, k, l)) == q
    {
      var c, k, l := g.role[q].d, g.role[q].i, g.role[q].j;
      assert q != p ==> MapsUser(m, c, k, l) && Frame(Pte(m, c, k, l)) == q;
    }
  }

  lemma MapUserOk(m: Mem, d: int, i: int, j: int, p: int, e: word)
    requires MemOk(m) && CanMap(m, d, i, j, p) && Present(e) && Frame(e) == p
    ensures var g := MapUser(m, d, i, j, p, e);
      MemOk(g) && Kept(m, g, d) && IsDir(g, d) && PteSet(m, g, d, i, j, e)
  {
    var g := MapUser(m, d, i, j, p, e);
    assert m.role[TableOf(m, d, i)] == Table(d, i);
    MapUserPtes(m, d, i, j, p, e);
    SetEntryDirs(m, d, i, j, e, g);
    ListKept(m, g);
  }

  ghost function MapKernel(m: Mem, d: int, i: int, j: int, e: word): Mem
    requires Shape(m) && IsDir(m, d) && IsIndex(i) && IsIndex(j) && HasTable(m, d, i)
  {
    SetEntry(m, TableOf(m, d, i), j, e)
  }

  /** An entry of the kernel half; the frames there belong to nobody's space. */
  lemma MapKernelOk(m: Mem, d: int, i: int, j: int, e: word)
    requires MemOk(m) && IsDir(m, d) && USER <= i < ENTRIES && IsIndex(j) && HasTable(m, d, i)
    ensures var g := MapKernel(m, d, i, j, e);
      MemOk(g) && Kept(m, g, d) && IsDir(g, d) && PteSet(m, g, d, i, j, e)
  {
    var g := MapKernel(m, d, i, j, e);
    assert m.role[TableOf(m, d, i)] == Table(d, i);
    SetEntryPte(m, d, i, j, e);
    SetEntryDirs(m, d, i, j, e, g);
    ListKept(m, g);
    KernelPtes(m, g, d, i, j, e);
  }

  lemma KernelPtes(m: Mem, g: Mem, d: int, i: int, j: int, e: word)
    requires Shape(m) && PtesOk(m) && UsersOk(m) && PteSet(m, g, d, i, j, e) && USER <= i && g.role == m.role
    ensures PtesOk(g) && UsersOk(g)
  {
    forall c, k, l | MapsUser(g, c, k, l)
      ensures IsFrame(Frame(Pte(g, c, k, l))) && g.role[Frame(Pte(g, c, k, l))] == User(c, k, l)
    {
      assert MapsUser(m, c, k, l);
    }
    forall q | IsFrame(q) && g.role[q].User?
      ensures var c, k, l := g.role[q].d, g.role[q].i, g.role[q].j; MapsUser(g, c, k, l) && Frame(Pte(g, c, k, l)) == q
    {
      assert MapsUser(m, m.role[q].d, m.role[q].i, m.role[q].j);
    }
  }

  /** The page at (i, j) is taken out of the space. */
  ghost function Unmap(m: Mem, d: int, i: int, j: int): Mem
    requires Shape(m) && MapsUser(m, d, i, j) && IsFrame(Frame(Pte(m, d, i, j)))
  {
    Pass(SetEntry(m, TableOf(m, d, i), j, 0), Frame(Pte(m, d, i, j)), Held)
  }

  lemma UnmapPtes(m: Mem, d: int, i: int, j: int)
    requires Shape(m) && DirsOk(m) && PtesOk(m) && UsersOk(m) && MapsUser(m, d, i, j)
    ensures IsFrame(Frame(Pte(m, d, i, j))) && PteSet(m, Unmap(m, d, i, j), d, i, j, 0)
    ensures PtesOk(Unmap(m, d, i, j)) && UsersOk(Unmap(m, d, i, j))
  {
    var p := Frame(Pte(m, d, i, j));
    assert m.role[p] == User(d, i, j);
    var g, h := Unmap(m, d, i, j), SetEntry(m, TableOf(m, d, i), j, 0);
    SetEntryPte(m, d, i, j, 0);
    forall c, k, l | IsDir(m, c) && IsIndex(k) && IsIndex(l) ensures Pte(g, c, k, l) == Pte(h, c, k, l) {
    }
    forall c, k, l | MapsUser(g, c, k, l)
      ensures IsFrame(Frame(Pte(g, c, k, l))) && g.role[Frame(Pte(g, c, k, l))] == User(c, k, l)
    {
      assert MapsUser(m, c, k, l);
    }
    forall q | IsFrame(q) && g.role[q].User?
      ensures var c, k, l := g.role[q].d, g.role[q].i, g.role[q].j; MapsUser(g, c, k, l) && Frame(Pte(g, c, k, l)) == q
    {
      assert MapsUser(m, m.role[q].d, m.role[q].i, m.role[q].j);
    }
  }

  lemma UnmapOk(m: Mem, d: int, i: int, j: int)
    requires MemOk(m) && MapsUser(m, d, i, j)
    ensures var p := Frame(Pte(m, d, i, j));
      && m.lo <= p < N && m.role[p] == User(d, i, j) && IsHeld(Unmap(m, d, i, j), p)
      && MemOk(Unmap(m, d, i, j)) && Kept(m, Unmap(m, d, i, j), d) && IsDir(Unmap(m, d, i, j), d)
      && PteSet(m, Unmap(m, d, i, j), d, i, j, 0)
  {
    UnmapPtes(m, d, i, j);
    var g := Unmap(m, d, i, j);
    assert m.role[Frame(Pte(m, d, i, j))] == User(d, i, j);
    assert m.role[TableOf(m, d, i)] == Table(d, i);
    SetEntryDirs(m, d, i, j, 0, g);
    ListKept(m, g);
  }

  // ------------------------------------------------------------------
  // Giving a directory up
  // ------------------------------------------------------------------

  /** No user page is mapped any more. */
  ghost predicate NoUser(m: Mem, d: int)
    requires Shape(m) && IsFrame(d)
  {
    forall i, j {:trigger Pte(m, d, i, j)} :: 0 <= i < USER && IsIndex(j) ==> !Present(Pte(m, d, i, j))
  }

  lemma DisbandSpaces(m: Mem, d: int)
    requires Shape(m) && SpacesOk(m) && IsDir(m, d) && NoUser(m, d)
    ensures Shape(Disband(m, d)) && SpacesOk(Disband(m, d))
  {
    var g := Disband(m, d);
    forall c, i | IsDir(g, c) && IsIndex(i) && Present(g.pages[c][i])
      ensures HasTable(g, c, i) && g.role[TableOf(g, c, i)] == Table(c, i)
    {
      assert HasTable(m, c, i);
    }
    forall u | IsFrame(u) && g.role[u].Table?
      ensures var c, k := g.role[u].d, g.role[u].i; IsDir(g, c) && IsIndex(k) && HasTable(g, c, k) && TableOf(g, c, k) == u
    {
      assert HasTable(m, m.role[u].d, m.role[u].i);
    }
    forall c, k, l | MapsUser(g, c, k, l)
      ensures IsFrame(Frame(Pte(g, c, k, l))) && g.role[Frame(Pte(g, c, k, l))] == User(c, k, l)
    {
      assert Pte(g, c, k, l) == Pte(m, c, k, l);
      assert MapsUser(m, c, k, l);
    }
    forall q | IsFrame(q) && g.role[q].User?
      ensures var c, k, l := g.role[q].d, g.role[q].i, g.role[q].j; MapsUser(g, c, k, l) && Frame(Pte(g, c, k, l)) == q
    {
      var c, k, l := m.role[q].d, m.role[q].i, m.role[q].j;
      assert MapsUser(m, c, k, l);
      assert c != d;
      assert Pte(g, c, k, l) == Pte(m, c, k, l);
    }
  }

  lemma DisbandOk(m: Mem, d: int)
    requires MemOk(m) && IsDir(m, d) && NoUser(m, d)
    ensures MemOk(Disband(m, d)) && Kept(m, Disband(m, d), d) && IsHeld(Disband(m, d), d)
  {
    DisbandSpaces(m, d);
    ListKept(m, Disband(m, d));
  }
}

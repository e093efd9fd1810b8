/** Physical memory as lab2/vm.c and lab2/kalloc.c see it: frames, the free list that
    runs through the free ones, page directories, page tables and user pages. */
module VmModel {
  import opened Words

  const N: int := 57344 // PHYSTOP / PGSIZE
  const ENTRIES: int := 1024
  const USER: int := 512 // PDX(KERNBASE)
  const KERNBASE: int := 0x8000_0000
  const PGSIZE: int := 4096

  type word = uint32
  type Page = p: seq<word> | |p| == 1024 witness seq(1024, _ => 0)

  /** Who has a frame: the free list, the code that took it last, an address space as its
      directory, as table i, or as the page of entry j of table i, or others for good. */
  datatype Role = Free | Held | Dir | Table(d: int, i: int) | User(d: int, i: int, j: int) | Other

  /** `lo` is the first frame after the kernel; `head` is kmem.freelist, an address. */
  datatype Mem = Mem(lo: int, pages: seq<Page>, role: seq<Role>, free: seq<int>, head: word)

  predicate IsFrame(p: int) { 0 <= p < N }
  predicate IsIndex(i: int) { 0 <= i < ENTRIES }

  function ZeroPage(): Page { seq(1024, _ => 0) }

  predicate Present(e: word) { e % 2 == 1 }
  function Frame(e: word): int { e / PGSIZE }
  function Flags(e: word): int { e % PGSIZE }

  /** P2V of a frame. */
  function Addr(p: int): word
    requires IsFrame(p)
  {
    KERNBASE + PGSIZE * p
  }

  ghost predicate Shape(m: Mem) { |m.pages| == N && |m.role| == N && 0 < m.lo <= N }

  // ------------------------------------------------------------------
  // The free list
  // ------------------------------------------------------------------

  ghost predicate FramesOk(m: Mem) { forall k :: 0 <= k < |m.free| ==> m.lo <= m.free[k] < N }

  /** The link that stands before element k: in kmem.freelist or in the page before. */
  ghost function Link(free: seq<int>, k: int): word
    requires forall l :: 0 <= l < |free| ==> IsFrame(free[l])
  {
    if 0 <= k < |free| then Addr(free[k]) else 0
  }

  ghost predicate ListOk(m: Mem)
    requires Shape(m)
  {
    && FramesOk(m) && m.head == Link(m.free, 0)
    && (forall k :: 0 <= k < |m.free| ==> m.pages[m.free[k]][0] == Link(m.free, k + 1))
  }

  /** The list has every free frame, once. */
  ghost predicate FreeOk(m: Mem)
    requires Shape(m)
  {
    && FramesOk(m)
    && (forall k :: 0 <= k < |m.free| ==> m.role[m.free[k]] == Free)
    && (forall k, l :: 0 <= k < l < |m.free| ==> m.free[k] != m.free[l])
    && (forall p :: IsFrame(p) && m.role[p] == Free ==> p in m.free)
  }

  // ------------------------------------------------------------------
  // Address spaces
  // ------------------------------------------------------------------

  ghost predicate IsDir(m: Mem, d: int)
    requires Shape(m)
  {
    IsFrame(d) && m.role[d] == Dir
  }

  /** Entry i of the directory points to a table. */
  ghost predicate HasTable(m: Mem, d: int, i: int)
    requires Shape(m) && IsFrame(d) && IsIndex(i)
  {
    Present(m.pages[d][i]) && IsFrame(Frame(m.pages[d][i]))
  }

  ghost function TableOf(m: Mem, d: int, i: int): (t: int)
    requires Shape(m) && IsFrame(d) && IsIndex(i) && HasTable(m, d, i)
    ensures IsFrame(t)
  {
    Frame(m.pages[d][i])
  }

  /** The page table entry of page (i, j); 0 where there is no table. */
  ghost function Pte(m: Mem, d: int, i: int, j: int): word
    requires Shape(m) && IsFrame(d) && IsIndex(i) && IsIndex(j)
  {
    if HasTable(m, d, i) then m.pages[TableOf(m, d, i)][j] else 0
  }

  ghost predicate Allocated(m: Mem)
    requires Shape(m)
  {
    forall p :: IsFrame(p) && m.role[p] != Other ==> m.lo <= p
  }

  /** Directory entries and tables point to each other; the entries have P, W and U. */
  ghost predicate DirsOk(m: Mem)
    requires Shape(m)
  {
    forall d, i {:trigger HasTable(m, d, i)} :: IsDir(m, d) && IsIndex(i) && Present(m.pages[d][i]) ==>
      HasTable(m, d, i) && m.role[TableOf(m, d, i)] == Table(d, i) && Flags(m.pages[d][i]) == 7
  }

  ghost predicate TablesOk(m: Mem)
    requires Shape(m)
  {
    forall t :: IsFrame(t) && m.role[t].Table? ==>
      var d, i := m.role[t].d, m.role[t].i;
      IsDir(m, d) && IsIndex(i) && HasTable(m, d, i) && TableOf(m, d, i) == t
  }

  ghost predicate MapsUser(m: Mem, d: int, i: int, j: int)
    requires Shape(m)
  {
    IsDir(m, d) && 0 <= i < USER && IsIndex(j) && Present(Pte(m, d, i, j))
  }

  /** So do user entries and user pages: no page is mapped twice. */
  ghost predicate PtesOk(m: Mem)
    requires Shape(m)
  {
    forall d, i, j {:trigger Pte(m, d, i, j)} :: MapsUser(m, d, i, j) ==>
      var p := Frame(Pte(m, d, i, j));
      IsFrame(p) && m.role[p] == User(d, i, j)
  }

  ghost predicate UsersOk(m: Mem)
    requires Shape(m)
  {
    forall p :: IsFrame(p) && m.role[p].User? ==>
      var d, i, j := m.role[p].d, m.role[p].i, m.role[p].j;
      MapsUser(m, d, i, j) && Frame(Pte(m, d, i, j)) == p
  }

  ghost predicate SpacesOk(m: Mem)
    requires Shape(m)
  {
    Allocated(m) && DirsOk(m) && TablesOk(m) && PtesOk(m) && UsersOk(m)
  }

  // ------------------------------------------------------------------
  // Changes
  // ------------------------------------------------------------------

  ghost predicate IsHeld(m: Mem, p: int)
    requires Shape(m)
  {
    IsFrame(p) && m.role[p] == Held
  }

  /** kalloc, when there is a free frame. */
  ghost function Take(m: Mem): Mem
    requires Shape(m) && m.free != [] && IsFrame(m.free[0])
  {
    Mem(m.lo, m.pages, m.role[m.free[0] := Held], m.free[1..], m.pages[m.free[0]][0])
  }

  /** A page full of 1 bytes, but for the link. */
  function Junk(next: word): Page
  {
    seq(1024, k => if k == 0 then next else 0x0101_0101)
  }

  /** kfree. */
  ghost function Give(m: Mem, p: int): Mem
    requires Shape(m) && IsFrame(p)
  {
    Mem(m.lo, m.pages[p := Junk(m.head)], m.role[p := Free], [p] + m.free, Addr(p))
  }

  /** A held page gets new contents. */
  ghost function Fill(m: Mem, p: int, c: Page): Mem
    requires Shape(m) && IsFrame(p)
  {
    Mem(m.lo, m.pages[p := c], m.role, m.free, m.head)
  }

  /** A held page becomes a directory. */
  ghost function AddDir(m: Mem, d: int): Mem
    requires Shape(m) && IsFrame(d)
  {
    Mem(m.lo, m.pages, m.role[d := Dir], m.free, m.head)
  }

  /** A held page becomes table i. */
  ghost function AddTable(m: Mem, d: int, i: int, t: int): Mem
    requires Shape(m) && IsFrame(d) && IsIndex(i) && IsFrame(t)
  {
    Mem(m.lo, m.pages[d := m.pages[d][i := PGSIZE * t + 7]], m.role[t := Table(d, i)], m.free, m.head)
  }

  /** An entry of a table is set. */
  ghost function SetEntry(m: Mem, t: int, j: int, e: word): Mem
    requires Shape(m) && IsFrame(t) && IsIndex(j)
  {
    Mem(m.lo, m.pages[t := m.pages[t][j := e]], m.role, m.free, m.head)
  }

  /** The owner of frame p changes. */
  ghost function Pass(m: Mem, p: int, r: Role): Mem
    requires Shape(m) && IsFrame(p)
  {
    Mem(m.lo, m.pages, m.role[p := r], m.free, m.head)
  }

  /** The directory and its tables are given up at once. */
  ghost function Disband(m: Mem, d: int): Mem
    requires Shape(m)
  {
    Mem(m.lo, m.pages, seq(N, p requires 0 <= p < N => Disbanded(m.role[p], p, d)), m.free, m.head)
  }

  function Disbanded(r: Role, p: int, d: int): Role
  {
    if p == d || (r.Table? && r.d == d) then Held else r
  }
}

/** How many frames mappages, setupkvm, allocuvm and copyuvm of lab2/vm.c take: one for
    each page and one for each table that is not there yet, and nothing else.  They fail
    exactly when the free list has fewer. */
module VmFrames {
  import opened Sealing
  import opened VmModel
  import opened VmSteps

  /** The tables that directory d has. */
  ghost function Tables(m: Mem, d: int): set<int>
    requires Shape(m) && IsFrame(d)
  {
    set i | 0 <= i < ENTRIES && Present(m.pages[d][i])
  }

  /** Table i has some of the pages lo to hi - 1. */
  predicate Meets(i: int, lo: int, hi: int) { lo < hi && i * ENTRIES < hi && lo < (i + 1) * ENTRIES }

  /** The tables of pages lo to hi - 1. */
  function Span(lo: int, hi: int): set<int> { set i | 0 <= i < ENTRIES && Meets(i, lo, hi) }

  // ------------------------------------------------------------------
  // Sizes of sets
  // ------------------------------------------------------------------

  /** |A + B| in two ways. */
  lemma UnionSize(A: set<int>, B: set<int>)
    ensures |A + B| == |A| + |B - A|
  {
    assert A + B == A + (B - A);
  }

  lemma ApartSize(A: set<int>, T: set<int>, U: set<int>)
    ensures |T + U - A| == |T - A| + |U - (A + T)|
  {
    assert T + U - A == (T - A) + (U - (A + T));
  }

  lemma SubsetSize(A: set<int>, B: set<int>)
    requires A <= B
    ensures |A| <= |B|
  {
    UnionSize(A, B);
    assert A + B == B;
  }

  predicate Between(i: int, a: int, b: int) { a <= i < b }

  function Range(a: int, b: int): set<int> { set i | a <= i < b && Between(i, a, b) }

  lemma {:induction false} RangeSize(a: int, b: int)
    requires a <= b
    ensures |Range(a, b)| == b - a
    decreases b - a
  {
    if a < b {
      RangeSize(a, b - 1);
      assert Range(a, b) == Range(a, b - 1) + {b - 1};
    }
  }

  // ------------------------------------------------------------------
  // Spans
  // ------------------------------------------------------------------

  lemma SpanNone(lo: int)
    ensures Span(lo, lo) == {}
  {
  }

  lemma SpanAt(v: int)
    requires IsPage(v)
    ensures Span(v, v + 1) == {v / ENTRIES}
  {
    assert Meets(v / ENTRIES, v, v + 1);
  }

  lemma SpanJoin(lo: int, v: int, hi: int)
    requires lo <= v < hi
    ensures Span(lo, v) + Span(v, hi) == Span(lo, hi)
  {
    forall i | i in Span(lo, hi) ensures i in Span(lo, v) + Span(v, hi) {
      assert Meets(i, lo, v) || Meets(i, v, hi);
    }
  }

  lemma SpanWider(lo: int, v: int, hi: int)
    requires v <= hi
    ensures Span(lo, v) <= Span(lo, hi)
  {
  }

  /** Pages 0 to n - 1 have n / 1024 tables, rounded up. */
  lemma SpanSize(n: int)
    requires 0 <= n <= VPAGES
    ensures |Span(0, n)| == (n + ENTRIES - 1) / ENTRIES
  {
    var k := (n + ENTRIES - 1) / ENTRIES;
    assert Span(0, n) == Range(0, k);
    RangeSize(0, k);
  }

  // ------------------------------------------------------------------
  // What was taken and what is missing
  // ------------------------------------------------------------------

  /** From m to g, n frames went into pages, and the rest of those that left the free list
      are tables T of directory d. */
  ghost predicate Spends(m: Mem, g: Mem, d: int, n: int, T: set<int>)
    requires Shape(m) && Shape(g) && IsFrame(d)
  {
    Tables(g, d) == Tables(m, d) + T && |g.free| + |Tables(g, d)| + n == |m.free| + |Tables(m, d)|
  }

  /** Frames for n pages and for the tables T where d does not have them. */
  ghost function Needs(m: Mem, d: int, n: int, T: set<int>): int
    requires Shape(m) && IsFrame(d)
  {
    n + |T - Tables(m, d)|
  }

  lemma SpendsTwice(m: Mem, g: Mem, h: Mem, d: int, n: int, k: int, T: set<int>, U: set<int>)
    requires Shape(m) && Shape(g) && Shape(h) && IsFrame(d) && Spends(m, g, d, n, T) && Spends(g, h, d, k, U)
    ensures Spends(m, h, d, n + k, T + U)
  {
    assert Tables(m, d) + (T + U) == Tables(m, d) + T + U;
  }

  lemma SpendsIs(m: Mem, g: Mem, d: int, n: int, T: set<int>)
    requires Shape(m) && Shape(g) && IsFrame(d) && Spends(m, g, d, n, T)
    ensures |m.free| == |g.free| + Needs(m, d, n, T)
  {
    UnionSize(Tables(m, d), T);
  }

  /** What is missing in the middle is missing from the start. */
  lemma NeedsMore(m: Mem, g: Mem, d: int, n: int, k: int, T: set<int>, U: set<int>)
    requires Shape(m) && Shape(g) && IsFrame(d) && Spends(m, g, d, n, T)
    ensures |m.free| - Needs(m, d, n + k, T + U) == |g.free| - Needs(g, d, k, U)
  {
    SpendsIs(m, g, d, n, T);
    ApartSize(Tables(m, d), T, U);
  }

  lemma NeedsLess(m: Mem, d: int, n: int, k: int, T: set<int>, U: set<int>)
    requires Shape(m) && IsFrame(d) && n <= k && T <= U
    ensures Needs(m, d, n, T) <= Needs(m, d, k, U)
  {
    SubsetSize(T - Tables(m, d), U - Tables(m, d));
  }

  // ------------------------------------------------------------------
  // The same, for ranges of pages, and locked
  // ------------------------------------------------------------------

  /** From m to g, n frames went into pages of directory d, and those of its tables of pages
      lo to hi - 1 that were not there are new. */
  ghost predicate Spent(m: Mem, g: Mem, d: int, n: int, lo: int, hi: int)
  {
    Shape(m) && Shape(g) && IsFrame(d) && forall x {:trigger Door(x, lo, hi)} :: Door(x, lo, hi) ==> Spends(m, g, d, n, Span(lo, hi))
  }

  /** The free list has fewer frames than n pages and the tables of pages lo to hi - 1 need. */
  ghost predicate Short(m: Mem, d: int, n: int, lo: int, hi: int)
    requires Shape(m) && IsFrame(d)
  {
    forall x {:trigger Door(x, lo, hi)} :: Door(x, lo, hi) ==> |m.free| < Needs(m, d, n, Span(lo, hi))
  }

  /** It has as many. */
  ghost predicate Enough(m: Mem, d: int, n: int, lo: int, hi: int)
    requires Shape(m) && IsFrame(d)
  {
    forall x {:trigger Door(x, lo, hi)} :: Door(x, lo, hi) ==> |m.free| >= Needs(m, d, n, Span(lo, hi))
  }

  lemma SpentBy(m: Mem, g: Mem, d: int, n: int, v: int)
    requires Shape(m) && Shape(g) && IsFrame(d) && g.pages[d] == m.pages[d] && |g.free| + n == |m.free|
    ensures Spent(m, g, d, n, v, v)
  {
    SpanNone(v);
    assert Tables(g, d) == Tables(m, d);
  }

  /** The table of page v was there. */
  lemma SpentSame(m: Mem, d: int, v: int)
    requires Shape(m) && IsFrame(d) && IsPage(v) && Present(m.pages[d][v / ENTRIES])
    ensures Spent(m, m, d, 0, v, v + 1)
  {
    SpanAt(v);
    assert Tables(m, d) == Tables(m, d) + {v / ENTRIES};
  }

  /** A frame taken in h becomes the table of page v in g. */
  lemma SpentTable(m: Mem, h: Mem, g: Mem, d: int, v: int, e: word)
    requires Spent(m, h, d, 1, v, v) && Shape(g) && IsPage(v) && !Present(h.pages[d][v / ENTRIES]) && Present(e)
    requires g.pages[d] == h.pages[d][v / ENTRIES := e] && g.free == h.free
    ensures Spent(m, g, d, 0, v, v + 1)
  {
    SpanNone(v);
    SpanAt(v);
    assert Tables(g, d) == Tables(h, d) + {v / ENTRIES};
    assert v / ENTRIES !in Tables(h, d);
    assert Spends(m, h, d, 1, {}) by { assert Door(0, v, v); }
  }

  lemma SpentTwice(m: Mem, g: Mem, h: Mem, d: int, n: int, k: int, lo: int, v: int, hi: int)
    requires Spent(m, g, d, n, lo, v) && Spent(g, h, d, k, v, hi) && lo <= v <= hi
    ensures Spent(m, h, d, n + k, lo, hi)
  {
    assert Door(0, lo, v) && Door(0, v, hi);
    SpendsTwice(m, g, h, d, n, k, Span(lo, v), Span(v, hi));
    if v < hi { SpanJoin(lo, v, hi); } else { SpanNone(v); }
  }

  lemma SpentIs(m: Mem, g: Mem, d: int, n: int, lo: int, hi: int)
    requires Spent(m, g, d, n, lo, hi)
    ensures Enough(m, d, n, lo, hi)
  {
    assert Door(0, lo, hi);
    SpendsIs(m, g, d, n, Span(lo, hi));
  }

  /** No frame for the table of page v, or none for the page itself. */
  lemma ShortAt(m: Mem, d: int, n: nat, v: int)
    requires Shape(m) && IsFrame(d) && IsPage(v) && m.free == [] && (n > 0 || !Present(m.pages[d][v / ENTRIES]))
    ensures Short(m, d, n, v, v + 1)
  {
    SpanAt(v);
    if !Present(m.pages[d][v / ENTRIES]) { assert {v / ENTRIES} - Tables(m, d) == {v / ENTRIES}; }
  }

  /** What lacks for pages v to w - 1 lacks for lo to hi - 1. */
  lemma ShortFor(m: Mem, g: Mem, d: int, n: int, k: int, lo: int, v: int, w: int, hi: int, all: int)
    requires Spent(m, g, d, n, lo, v) && Short(g, d, k, v, w) && lo <= v < w <= hi && n + k <= all
    ensures Short(m, d, all, lo, hi)
  {
    assert Door(0, lo, v) && Door(0, v, w);
    NeedsMore(m, g, d, n, k, Span(lo, v), Span(v, w));
    SpanJoin(lo, v, w);
    SpanWider(lo, w, hi);
    NeedsLess(m, d, n + k, all, Span(lo, w), Span(lo, hi));
  }

  // ------------------------------------------------------------------
  // A new directory
  // ------------------------------------------------------------------

  /** In g, directory d, which was free in m, has the tables T; n frames went into pages. */
  ghost predicate Drawn(m: Mem, g: Mem, d: int, n: int, T: set<int>)
    requires Shape(g) && IsFrame(d)
  {
    Tables(g, d) == T && |g.free| + 1 + n + |T| == |m.free|
  }

  lemma DrawnOn(m: Mem, g: Mem, h: Mem, d: int, n: int, k: int, T: set<int>, lo: int, hi: int)
    requires Shape(g) && IsFrame(d) && Drawn(m, g, d, n, T) && Spent(g, h, d, k, lo, hi)
    ensures Drawn(m, h, d, n + k, T + Span(lo, hi))
  {
    assert Door(0, lo, hi);
  }

  lemma DrawnFails(m: Mem, g: Mem, d: int, n: int, k: int, T: set<int>, lo: int, hi: int, all: int, W: set<int>)
    requires Shape(g) && IsFrame(d) && Drawn(m, g, d, n, T) && Short(g, d, k, lo, hi) && n + k <= all && T + Span(lo, hi) <= W
    ensures |m.free| < 1 + all + |W|
  {
    assert Door(0, lo, hi);
    UnionSize(T, Span(lo, hi));
    SubsetSize(T + Span(lo, hi), W);
  }
}

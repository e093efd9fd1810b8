/** The references of one inode as a table, how bmap fills it, and the blocks
    that a write logs (lab2/fs.c:56-95, 372-400, 481-511). */
module FsCost {
  import LogMachine
  import opened FsModel

  /** A table of references; no entry without an indirect block. */
  predicate TableOk(r: seq<int>)
  {
    |r| == SLOTS && forall k :: NDIRECT < k < SLOTS && r[k] != 0 ==> r[NDIRECT] != 0
  }

  /** bmap of block n turns table r into q. */
  predicate MapsTo(r: seq<int>, q: seq<int>, n: int)
    requires |r| == SLOTS && |q| == SLOTS && 0 <= n < MAXFILE
  {
    && q[SlotOf(n)] != 0 && (r[SlotOf(n)] != 0 ==> q == r)
    && (r[NDIRECT] != 0 || n < NDIRECT ==> q[NDIRECT] == r[NDIRECT])
    && forall k :: 0 <= k < MAXFILE && k != n ==> q[SlotOf(k)] == r[SlotOf(k)]
  }

  /** The blocks that bmap logs when it finds or makes block n: the new block and its
      bitmap block, the indirect block if it changes, and its bitmap block if it is new. */
  function MapCost(sb: Super, r: seq<int>, q: seq<int>, n: int): set<int>
    requires |r| == SLOTS && |q| == SLOTS && 0 <= n < MAXFILE
  {
    if r[SlotOf(n)] != 0 then {}
    else {q[SlotOf(n)], sb.BBlock(q[SlotOf(n)])} + if n < NDIRECT then {} else IndirectCost(sb, r, q)
  }

  function IndirectCost(sb: Super, r: seq<int>, q: seq<int>): set<int>
    requires |r| == SLOTS && |q| == SLOTS
  {
    {q[NDIRECT]} + if r[NDIRECT] != 0 then {} else {sb.BBlock(q[NDIRECT])}
  }

  function BlockCost(sb: Super, r: seq<int>, q: seq<int>, n: int): set<int>
    requires |r| == SLOTS && |q| == SLOTS && 0 <= n < MAXFILE
  {
    {q[SlotOf(n)]} + MapCost(sb, r, q, n)
  }

  /** The blocks logged for writing file blocks lo to hi - 1. */
  function WriteCost(sb: Super, r: seq<int>, q: seq<int>, lo: int, hi: int): set<int>
    requires |r| == SLOTS && |q| == SLOTS && 0 <= lo <= hi <= MAXFILE
    decreases hi
  {
    if lo == hi then {} else WriteCost(sb, r, q, lo, hi - 1) + BlockCost(sb, r, q, hi - 1)
  }

  /** References of lo to hi - 1 are there; those that were there, and the others, are as before. */
  predicate Filled(r: seq<int>, q: seq<int>, lo: int, hi: int)
    requires |r| == SLOTS && |q| == SLOTS
  {
    && (forall k :: 0 <= k < MAXFILE && (!(lo <= k < hi) || r[SlotOf(k)] != 0) ==> q[SlotOf(k)] == r[SlotOf(k)])
    && (forall k :: 0 <= k < MAXFILE && lo <= k < hi ==> q[SlotOf(k)] != 0)
    && (r[NDIRECT] != 0 ==> q[NDIRECT] == r[NDIRECT])
  }

  predicate AllThere(r: seq<int>, lo: int, hi: int)
    requires |r| == SLOTS
  {
    forall k :: 0 <= k < MAXFILE && lo <= k < hi ==> r[SlotOf(k)] != 0
  }

  /** The log holds exactly the cost, with the bitmap block of a new indirect block. */
  predicate LogIs(sb: Super, r: seq<int>, q: seq<int>, lo: int, hi: int, L: set<int>)
    requires |r| == SLOTS && |q| == SLOTS && 0 <= lo <= hi <= MAXFILE
  {
    L == WriteCost(sb, r, q, lo, hi) && (r[NDIRECT] == 0 && q[NDIRECT] != 0 ==> sb.BBlock(q[NDIRECT]) in L)
  }

  lemma FilledStep(r: seq<int>, q: seq<int>, t: seq<int>, lo: int, hi: int)
    requires TableOk(r) && TableOk(q) && TableOk(t) && 0 <= lo <= hi < MAXFILE && Filled(r, q, lo, hi) && MapsTo(q, t, hi)
    ensures Filled(r, t, lo, hi + 1)
  {
  }

  /** Blocks already paid for keep their cost when more are made. */
  lemma {:induction false} CostStable(sb: Super, r: seq<int>, q: seq<int>, t: seq<int>, lo: int, hi: int)
    requires |r| == SLOTS && TableOk(q) && |t| == SLOTS && 0 <= lo <= hi <= MAXFILE
    requires forall k :: 0 <= k < MAXFILE && lo <= k < hi ==> q[SlotOf(k)] != 0 && t[SlotOf(k)] == q[SlotOf(k)]
    requires q[NDIRECT] != 0 ==> t[NDIRECT] == q[NDIRECT]
    ensures WriteCost(sb, r, t, lo, hi) == WriteCost(sb, r, q, lo, hi)
    decreases hi
  {
    if lo < hi {
      CostStable(sb, r, q, t, lo, hi - 1);
      assert q[SlotOf(hi - 1)] != 0;
      assert BlockCost(sb, r, t, hi - 1) == BlockCost(sb, r, q, hi - 1);
    }
  }

  lemma LogStep(sb: Super, r: seq<int>, q: seq<int>, t: seq<int>, lo: int, hi: int, L: set<int>)
    requires TableOk(r) && TableOk(q) && TableOk(t) && 0 <= lo <= hi < MAXFILE && Filled(r, q, lo, hi)
    requires LogIs(sb, r, q, lo, hi, L) && MapsTo(q, t, hi)
    ensures LogIs(sb, r, t, lo, hi + 1, L + MapCost(sb, q, t, hi) + {t[SlotOf(hi)]})
  {
    CostStable(sb, r, q, t, lo, hi);
    assert q[SlotOf(hi)] == r[SlotOf(hi)];
    assert WriteCost(sb, r, t, lo, hi + 1) == WriteCost(sb, r, t, lo, hi) + BlockCost(sb, r, t, hi);
  }

  // ------------------------------------------------------------------
  // The size of one transaction
  // ------------------------------------------------------------------

  lemma UnionSize(s: set<int>, t: set<int>)
    ensures |s + t| <= |s| + |t|
  {
    assert |s + t| == |s| + |t| - |s * t|;
  }

  lemma SubsetSize(s: set<int>, t: set<int>)
    requires s <= t
    ensures |s| <= |t|
  {
    assert t == s + (t - s);
  }

  /** What any one block can add to the log besides what all share. */
  function Own(sb: Super, q: seq<int>, n: int): set<int>
    requires |q| == SLOTS && 0 <= n < MAXFILE
  {
    {q[SlotOf(n)], sb.BBlock(q[SlotOf(n)])}
  }

  function Shared(sb: Super, q: seq<int>): set<int>
    requires |q| == SLOTS
  {
    {q[NDIRECT], sb.BBlock(q[NDIRECT])}
  }

  /** The first block, if it was there, adds only itself. */
  function First(sb: Super, r: seq<int>, q: seq<int>, n: int): set<int>
    requires |r| == SLOTS && |q| == SLOTS && 0 <= n < MAXFILE
  {
    if r[SlotOf(n)] != 0 then {q[SlotOf(n)]} else Own(sb, q, n)
  }

  function OwnIf(sb: Super, q: seq<int>, n: int, hi: int): set<int>
    requires |q| == SLOTS && 0 <= n && hi <= MAXFILE
  {
    if n < hi then Own(sb, q, n) else {}
  }

  function Within(sb: Super, r: seq<int>, q: seq<int>, lo: int, hi: int): set<int>
    requires |r| == SLOTS && |q| == SLOTS && 0 <= lo < hi <= MAXFILE
  {
    First(sb, r, q, lo) + Shared(sb, q) + OwnIf(sb, q, lo + 1, hi) + OwnIf(sb, q, lo + 2, hi) + OwnIf(sb, q, lo + 3, hi)
  }

  lemma {:induction false} CostWithin(sb: Super, r: seq<int>, q: seq<int>, lo: int, hi: int)
    requires |r| == SLOTS && |q| == SLOTS && 0 <= lo < hi <= MAXFILE && hi <= lo + 4
    ensures WriteCost(sb, r, q, lo, hi) <= Within(sb, r, q, lo, hi)
    decreases hi
  {
    if lo + 1 < hi {
      CostWithin(sb, r, q, lo, hi - 1);
      assert BlockCost(sb, r, q, hi - 1) <= Own(sb, q, hi - 1) + Shared(sb, q);
    } else {
      assert WriteCost(sb, r, q, lo, lo) == {};
    }
  }

  const MAXOPBLOCKS: int := LogMachine.MAXOPBLOCKS
  const CHUNK: int := (MAXOPBLOCKS - 1 - 1 - 2) / 2 * 512

  /** A chunk of filewrite logs at most MAXOPBLOCKS blocks, with the inode block ib: a
      chunk that spans four blocks starts inside one, which no-holes says is there. */
  lemma ChunkFits(sb: Super, r: seq<int>, q: seq<int>, off: int, n: int, ib: int)
    requires |r| == SLOTS && |q| == SLOTS && 0 <= off && 0 < n <= CHUNK && off + n <= MAXFILE * 512
    requires off % 512 != 0 ==> r[SlotOf(off / 512)] != 0
    ensures |WriteCost(sb, r, q, off / 512, (off + n - 1) / 512 + 1) + {ib}| <= MAXOPBLOCKS
  {
    var lo, hi := off / 512, (off + n - 1) / 512 + 1;
    CostWithin(sb, r, q, lo, hi);
    SubsetSize(WriteCost(sb, r, q, lo, hi) + {ib}, Within(sb, r, q, lo, hi) + {ib});
    assert hi == lo + 4 ==> off % 512 != 0;
    WithinSize(sb, r, q, lo, hi);
    UnionSize(Within(sb, r, q, lo, hi), {ib});
  }

  lemma WithinSize(sb: Super, r: seq<int>, q: seq<int>, lo: int, hi: int)
    requires |r| == SLOTS && |q| == SLOTS && 0 <= lo < hi <= MAXFILE && hi <= lo + 4
    requires hi == lo + 4 ==> r[SlotOf(lo)] != 0
    ensures |Within(sb, r, q, lo, hi)| <= MAXOPBLOCKS - 1
  {
    var a, b, c, d, e := First(sb, r, q, lo), Shared(sb, q), OwnIf(sb, q, lo + 1, hi), OwnIf(sb, q, lo + 2, hi), OwnIf(sb, q, lo + 3, hi);
    UnionSize(a, b);
    UnionSize(a + b, c);
    UnionSize(a + b + c, d);
    UnionSize(a + b + c + d, e);
  }
}

/** Every operation keeps the cache consistent, and only a change of data changes
    the plain disk that it stands for. */
module CacheProofs {
  import opened LruRing
  import opened Rings
  import opened CacheModel

  ghost predicate CacheOk(c: Cache) { RingOk(c) && Recency(c.ring, c.stamp) && Unique(c.bufs) && Shows(c.bufs, c.disk, c.view) }

  lemma RingKept(c: Cache, c': Cache)
    requires RingOk(c) && c'.links == c.links && c'.ring == c.ring && c'.stamp == c.stamp && c'.clock == c.clock
    requires |c'.bufs| == |c.bufs|
    ensures RingOk(c')
  {
  }

  /** Another state of a buffer for the same block is fine when it still pins what
      differs from the disk. */
  lemma PutOk(bufs: seq<Buf>, disk: seq<Block>, view: seq<Block>, b: int, x: Buf)
    requires Unique(bufs) && Shows(bufs, disk, view) && 0 <= b < |bufs|
    requires x.dev == bufs[b].dev && x.blockno == bufs[b].blockno
    requires BufOk(x, |disk|) && (x.valid ==> x.data == view[x.blockno])
    requires forall k :: 0 <= k < |disk| && disk[k] != view[k] && Pins(bufs[b], k) ==> Pins(x, k)
    ensures Unique(bufs[b := x]) && Shows(bufs[b := x], disk, view)
  {
    var bufs' := bufs[b := x];
    assert Unique(bufs');
    forall a | 0 <= a < |bufs'| ensures BufOk(bufs'[a], |disk|) && (bufs'[a].valid ==> bufs'[a].data == view[bufs'[a].blockno]) {
      assert BufOk(bufs[a], |disk|);
    }
    forall k | 0 <= k < |disk| && disk[k] != view[k] ensures exists a :: 0 <= a < |bufs'| && Pins(bufs'[a], k) {
      var a :| 0 <= a < |bufs| && Pins(bufs[a], k);
      assert Pins(bufs'[a], k);
    }
  }

  lemma ReferOk(c: Cache, b: int)
    requires CacheOk(c) && 0 <= b < |c.bufs| && c.bufs[b].dev == DISK
    ensures CacheOk(Refer(c, b))
  {
    assert BufOk(c.bufs[b], |c.disk|);
    PutOk(c.bufs, c.disk, c.view, b, c.bufs[b].(refcnt := c.bufs[b].refcnt + 1));
    RingKept(c, Refer(c, b));
  }

  /** A buffer that nobody holds and that is clean agrees with the disk, so it can
      go. */
  lemma RecycleOk(c: Cache, b: int, blockno: int)
    requires CacheOk(c) && 0 <= b < |c.bufs| && Eligible(c.bufs[b])
    requires 0 <= blockno < |c.disk| && !Cached(c.bufs, blockno)
    ensures CacheOk(Recycle(c, b, blockno)) && !c.bufs[b].locked && c.disk[blockno] == c.view[blockno]
  {
    var c' := Recycle(c, b, blockno);
    assert BufOk(c.bufs[b], |c.disk|);
    forall k | 0 <= k < |c.disk| && c.disk[k] != c.view[k]
      ensures exists a :: 0 <= a < |c'.bufs| && Pins(c'.bufs[a], k)
    {
      var a :| 0 <= a < |c.bufs| && Pins(c.bufs[a], k);
      assert Pins(c'.bufs[a], k);
    }
    assert forall a :: 0 <= a < |c.bufs| ==> !Pins(c.bufs[a], blockno);
    RingKept(c, c');
  }

  lemma LockOk(c: Cache, b: int)
    requires CacheOk(c) && 0 <= b < |c.bufs| && c.bufs[b].refcnt > 0
    ensures CacheOk(SetLock(c, b, true))
  {
    assert BufOk(c.bufs[b], |c.disk|);
    PutOk(c.bufs, c.disk, c.view, b, c.bufs[b].(locked := true));
    RingKept(c, SetLock(c, b, true));
  }

  lemma FillOk(c: Cache, b: int)
    requires CacheOk(c) && 0 <= b < |c.bufs| && c.bufs[b].dev == DISK && !c.bufs[b].valid
    ensures 0 <= c.bufs[b].blockno < |c.disk| && CacheOk(Fill(c, b))
    ensures Fill(c, b).bufs[b].data == c.view[c.bufs[b].blockno]
  {
    assert BufOk(c.bufs[b], |c.disk|);
    NotPinned(c, b);
    PutOk(c.bufs, c.disk, c.view, b, c.bufs[b].(valid := true, data := c.disk[c.bufs[b].blockno]));
    RingKept(c, Fill(c, b));
  }

  /** The disk is right about a block whose buffer is not valid. */
  lemma NotPinned(c: Cache, b: int)
    requires CacheOk(c) && 0 <= b < |c.bufs| && c.bufs[b].dev == DISK && !c.bufs[b].valid
    ensures 0 <= c.bufs[b].blockno < |c.disk| && c.disk[c.bufs[b].blockno] == c.view[c.bufs[b].blockno]
  {
    var blockno := c.bufs[b].blockno;
    assert BufOk(c.bufs[b], |c.disk|);
    assert forall a :: 0 <= a < |c.bufs| ==> !Pins(c.bufs[a], blockno);
  }

  lemma FlushOk(c: Cache, b: int)
    requires CacheOk(c) && 0 <= b < |c.bufs| && c.bufs[b].valid
    ensures 0 <= c.bufs[b].blockno < |c.disk| && CacheOk(Flush(c, b))
  {
    assert BufOk(c.bufs[b], |c.disk|);
    var disk' := c.disk[c.bufs[b].blockno := c.bufs[b].data];
    assert Shows(c.bufs, disk', c.view);
    PutOk(c.bufs, disk', c.view, b, c.bufs[b].(dirty := false, valid := true));
    RingKept(c, Flush(c, b));
  }

  lemma MarkDirtyOk(c: Cache, b: int)
    requires CacheOk(c) && 0 <= b < |c.bufs| && c.bufs[b].valid
    ensures CacheOk(MarkDirty(c, b))
  {
    assert BufOk(c.bufs[b], |c.disk|);
    PutOk(c.bufs, c.disk, c.view, b, c.bufs[b].(dirty := true));
    RingKept(c, MarkDirty(c, b));
  }

  lemma ChangeOk(c: Cache, b: int, data: Block)
    requires CacheOk(c) && 0 <= b < |c.bufs| && c.bufs[b].valid && c.bufs[b].locked
    ensures 0 <= c.bufs[b].blockno < |c.view| && CacheOk(Change(c, b, data))
  {
    assert BufOk(c.bufs[b], |c.disk|);
    var c' := Change(c, b, data);
    forall k | 0 <= k < |c'.disk| && c'.disk[k] != c'.view[k]
      ensures exists a :: 0 <= a < |c'.bufs| && Pins(c'.bufs[a], k)
    {
      if k == c.bufs[b].blockno {
        assert Pins(c'.bufs[b], k);
      } else {
        var a :| 0 <= a < |c.bufs| && Pins(c.bufs[a], k);
        assert a != b && Pins(c'.bufs[a], k);
      }
    }
  }

  /** The rule for brelse: the buffer is dirty, or as it is on the disk. */
  lemma UnreferOk(c: Cache, b: int)
    requires CacheOk(c) && 0 <= b < |c.bufs| && c.bufs[b].locked && c.bufs[b].valid
    requires c.bufs[b].dirty || (0 <= c.bufs[b].blockno < |c.disk| && c.bufs[b].data == c.disk[c.bufs[b].blockno])
    ensures CacheOk(Unrefer(c, b))
  {
    assert BufOk(c.bufs[b], |c.disk|);
    PutOk(c.bufs, c.disk, c.view, b, c.bufs[b].(refcnt := c.bufs[b].refcnt - 1, locked := false));
    RingKept(c, Unrefer(c, b));
  }

  lemma FrontAt(ring: seq<int>, k: nat, i: nat)
    requires 0 < k < |ring| && i < |ring|
    ensures |[Without(ring, k)[0], ring[k]] + Without(ring, k)[1..]| == |ring|
    ensures ([Without(ring, k)[0], ring[k]] + Without(ring, k)[1..])[i] ==
            ring[if i == 0 then 0 else if i == 1 then k else if i <= k then i - 1 else i]
  {
    WithoutAt(ring, k, 0);
    if i >= 2 { WithoutAt(ring, k, i - 1); }
  }

  lemma ToFrontRing(c: Cache, k: nat)
    requires RingOk(c) && 0 < k < |c.ring| && 0 <= c.ring[k] < |c.stamp|
    ensures RingOk(ToFront(c, k))
  {
    var b, rest := c.ring[k], Without(c.ring, k);
    UnlinkOk(c.links, c.ring, |c.ring|, k);
    WithoutAt(c.ring, k, 0);
    forall i | 0 <= i < |rest| ensures rest[i] != b { WithoutAt(c.ring, k, i); }
    PushOk(Unlink(c.links, b), rest, |c.ring|, b);
    forall x | x in c.ring ensures x in ToFront(c, k).ring { FrontMembers(c.ring, k, x); }
  }

  lemma FrontMembers(ring: seq<int>, k: nat, x: int)
    requires 0 < k < |ring| && x in ring
    ensures x in [Without(ring, k)[0], ring[k]] + Without(ring, k)[1..]
  {
    var i :| 0 <= i < |ring| && ring[i] == x;
    FrontAt(ring, k, if i == 0 then 0 else if i == k then 1 else if i < k then i + 1 else i);
  }

  lemma FrontRecency(ring: seq<int>, stamp: seq<int>, clock: int, k: nat)
    requires Recency(ring, stamp) && 0 < k < |ring| && forall b :: 0 <= b < |stamp| ==> stamp[b] < clock
    requires forall i, j :: 0 <= i < j < |ring| ==> ring[i] != ring[j]
    ensures Recency([Without(ring, k)[0], ring[k]] + Without(ring, k)[1..], stamp[ring[k] := clock])
  {
    var r, st := [Without(ring, k)[0], ring[k]] + Without(ring, k)[1..], stamp[ring[k] := clock];
    forall i | 1 <= i < |r| ensures 0 <= r[i] < |st| { FrontAt(ring, k, i); }
    forall i, j | 1 <= i < j < |r| ensures st[r[i]] > st[r[j]] {
      FrontAt(ring, k, i);
      FrontAt(ring, k, j);
    }
  }

  /** Moving a released buffer behind the head keeps the list in release order. */
  lemma ToFrontOk(c: Cache, k: nat)
    requires CacheOk(c) && 0 < k < |c.ring|
    ensures 0 <= c.ring[k] < |c.stamp| && CacheOk(ToFront(c, k))
  {
    ToFrontRing(c, k);
    FrontRecency(c.ring, c.stamp, c.clock, k);
  }

  // ------------------------------------------------------------------
  // Walking the list
  // ------------------------------------------------------------------

  /** From the head, next leads through ring[1], ring[2], ... back to the head, and
      prev the other way; every buffer is met. */
  ghost predicate Walk(next: seq<int>, prev: seq<int>, ring: seq<int>, n: nat)
  {
    && |ring| == n + 1 == |next| == |prev| && ring[0] == n
    && (forall i :: 0 <= i < |ring| ==> Hop(next, prev, ring, i))
    && (forall b :: 0 <= b < n ==> b in ring)
  }

  ghost predicate Hop(next: seq<int>, prev: seq<int>, ring: seq<int>, i: nat)
    requires i < |ring|
  {
    && 0 <= ring[i] < |next| && (i > 0 ==> ring[i] < |next| - 1) && |prev| == |next|
    && next[ring[i]] == (if i + 1 < |ring| then ring[i + 1] else ring[0])
    && prev[ring[i]] == (if i > 0 then ring[i - 1] else ring[|ring| - 1])
  }

  lemma CanWalk(c: Cache)
    requires CacheOk(c)
    ensures Walk(c.links.next, c.links.prev, c.ring, |c.bufs|)
  {
    forall i | 0 <= i < |c.ring| ensures Hop(c.links.next, c.links.prev, c.ring, i) {
      assert c.links.next[c.ring[i]] == LruRing.After(c.ring, i);
      var j := if i > 0 then i - 1 else |c.ring| - 1;
      assert LruRing.After(c.ring, j) == c.ring[i] && c.links.prev[LruRing.After(c.ring, j)] == c.ring[j];
    }
  }

  lemma Covered(next: seq<int>, prev: seq<int>, ring: seq<int>, n: nat, b: int) returns (k: nat)
    requires Walk(next, prev, ring, n) && 0 <= b < n
    ensures 1 <= k < |ring| && ring[k] == b
  {
    assert b in ring;
    k :| 0 <= k < |ring| && ring[k] == b;
  }

  /** The last eligible buffer on the list is the one released longest ago. */
  lemma LastIsOldest(c: Cache, i: nat)
    requires CacheOk(c) && 1 <= i < |c.ring|
    requires forall k :: i < k < |c.ring| ==> 0 <= c.ring[k] < |c.bufs| && !Eligible(c.bufs[c.ring[k]])
    ensures 0 <= c.ring[i] < |c.bufs|
    ensures forall a :: 0 <= a < |c.bufs| && Eligible(c.bufs[a]) ==> c.stamp[c.ring[i]] <= c.stamp[a]
  {
    CanWalk(c);
    forall a | 0 <= a < |c.bufs| && Eligible(c.bufs[a]) ensures c.stamp[c.ring[i]] <= c.stamp[a] {
      var k := Covered(c.links.next, c.links.prev, c.ring, |c.bufs|, a);
    }
  }

  /** b is on the list, and stays apart from the head when it is taken out. */
  ghost predicate CanMove(next: seq<int>, prev: seq<int>, head: int, b: int)
  {
    && 0 <= b < |next| == |prev| && 0 <= head < |next| && b != head
    && 0 <= next[b] < |next| && 0 <= prev[b] < |next| && next[b] != b && prev[b] != b
    && 0 <= Unlink(Links(next, prev), b).next[head] < |next|
  }

  lemma FrontReady(c: Cache, k: nat)
    requires CacheOk(c) && 0 < k < |c.ring|
    ensures CanMove(c.links.next, c.links.prev, |c.bufs|, c.ring[k])
  {
    UnlinkOk(c.links, c.ring, |c.ring|, k);
    var rest := Without(c.ring, k);
    assert Unlink(c.links, c.ring[k]).next[rest[0]] == LruRing.After(rest, 0);
  }

  /** What brelse of b makes of the cache. */
  ghost predicate ReleasedTo(c: Cache, b: int, c': Cache)
    requires 0 <= b < |c.bufs| == |c.stamp|
  {
    var u := Unrefer(c, b);
    if u.bufs[b].refcnt > 0 then c' == u
    else
      && CanMove(c.links.next, c.links.prev, |c.bufs|, b)
      && c' == u.(links := Push(Unlink(c.links, b), |c.bufs|, b), ring := c'.ring,
                  stamp := c.stamp[b := c.clock], clock := c.clock + 1)
      && |c'.ring| > 1 && c'.ring[1] == b
  }

  lemma ReleaseOk(c: Cache, b: int) returns (c': Cache)
    requires CacheOk(c) && 0 <= b < |c.bufs| && c.bufs[b].locked && c.bufs[b].valid
    requires c.bufs[b].dirty || (0 <= c.bufs[b].blockno < |c.disk| && c.bufs[b].data == c.disk[c.bufs[b].blockno])
    ensures CacheOk(c') && ReleasedTo(c, b, c')
  {
    UnreferOk(c, b);
    c' := Unrefer(c, b);
    assert BufOk(c'.bufs[b], |c.disk|);
    if c'.bufs[b].refcnt == 0 {
      CanWalk(c);
      var k := Covered(c.links.next, c.links.prev, c.ring, |c.bufs|, b);
      FrontReady(c, k);
      ToFrontOk(c', k);
      c' := ToFront(c', k);
    }
  }

  /** What bget for a block makes of the cache: one more reference to the block's
      buffer; else the eligible buffer released longest ago takes the block; else,
      with no eligible buffer, nothing (-1, where the kernel panics). */
  ghost predicate GotBuffer(c: Cache, blockno: int, b: int, c': Cache)
  {
    && |c.stamp| == |c.bufs| == |c'.bufs| && -1 <= b < |c.bufs|
    && (b >= 0 ==> Holds(c'.bufs[b], blockno) && c'.bufs[b].refcnt > 0)
    && if Cached(c.bufs, blockno) then b >= 0 && c' == Refer(c, b)
       else if b < 0 then c' == c && forall a :: 0 <= a < |c.bufs| ==> !Eligible(c.bufs[a])
       else
         && c' == Recycle(c, b, blockno) && Eligible(c.bufs[b]) && !c'.bufs[b].locked
         && forall a :: 0 <= a < |c.bufs| && Eligible(c.bufs[a]) ==> c.stamp[b] <= c.stamp[a]
  }

  lemma HitOk(c: Cache, blockno: int, b: int)
    requires CacheOk(c) && 0 <= b < |c.bufs| && Holds(c.bufs[b], blockno)
    ensures CacheOk(Refer(c, b)) && GotBuffer(c, blockno, b, Refer(c, b))
  {
    ReferOk(c, b);
    assert BufOk(c.bufs[b], |c.disk|);
  }

  lemma VictimOk(c: Cache, blockno: int, i: nat)
    requires CacheOk(c) && 0 <= blockno < |c.disk| && !Cached(c.bufs, blockno) && 1 <= i < |c.ring|
    requires forall k :: i < k < |c.ring| ==> 0 <= c.ring[k] < |c.bufs| && !Eligible(c.bufs[c.ring[k]])
    requires 0 <= c.ring[i] < |c.bufs| && Eligible(c.bufs[c.ring[i]])
    ensures CacheOk(Recycle(c, c.ring[i], blockno)) && GotBuffer(c, blockno, c.ring[i], Recycle(c, c.ring[i], blockno))
  {
    RecycleOk(c, c.ring[i], blockno);
    LastIsOldest(c, i);
  }

  // ------------------------------------------------------------------
  // The empty cache
  // ------------------------------------------------------------------

  const EMPTY: Buf := Buf(0, 0, 0, false, false, false, [])

  /** The list after binit has linked buffers 0..b-1 of n: the last one first. */
  function Initial(n: nat, b: nat): seq<int>
    requires b <= n
  {
    seq(b + 1, i requires 0 <= i <= b => if i == 0 then n else b - i)
  }

  function Blank(n: nat): seq<Buf> { seq(n, _ => EMPTY) }

  function Stamps(n: nat): seq<int> { seq(n, i => i) }

  lemma InitialRing(n: nat)
    ensures |Initial(n, n)| == n + 1 && |Stamps(n)| == n && Initial(n, n)[0] == n
    ensures forall b :: 0 <= b < n ==> b in Initial(n, n)
    ensures forall b :: 0 <= b < n ==> Stamps(n)[b] == b
    ensures Recency(Initial(n, n), Stamps(n))
  {
    var ring := Initial(n, n);
    forall b | 0 <= b < n ensures b in ring {
      assert ring[n - b] == b;
    }
  }

  lemma BlankOk(disk: seq<Block>, n: nat)
    ensures |Blank(n)| == n && Unique(Blank(n)) && Shows(Blank(n), disk, disk)
  {
  }

  lemma InitialOk(links: Links, disk: seq<Block>, n: nat)
    requires Part(links, Initial(n, n), n + 1)
    ensures CacheOk(Cache(links, Blank(n), disk, Initial(n, n), disk, Stamps(n), n))
  {
    InitialRing(n);
    BlankOk(disk, n);
  }
}

/** The buffer cache of lab2/bio.c over the in-memory disk of lab2/memide.c.

    Pointers are buffer numbers; the list head is number NBUF.  A caller keeps the
    interface rules: it changes data only while it holds the buffer, and writes or
    dirties what it changed before brelse. */
module Bio {
  import opened Sealing
  import opened LruRing
  import opened CacheModel
  import opened CacheProofs

  /** CacheOk, locked: a proof that needs what it says states Key(0), which is always true. */
  ghost predicate Consistent(c: Cache)
  {
    |c.stamp| == |c.bufs| && |c.view| == |c.disk| && forall x {:trigger Key(x)} :: Key(x) ==> CacheOk(c)
  }

  lemma BufIs(c: Cache, b: int)
    requires Consistent(c) && 0 <= b < |c.bufs|
    ensures BufOk(c.bufs[b], |c.disk|) && (c.bufs[b].valid ==> c.bufs[b].data == c.view[c.bufs[b].blockno])
  {
    assert Key(0);
  }

  lemma Walks(c: Cache)
    requires Consistent(c)
    ensures Walk(c.links.next, c.links.prev, c.ring, |c.bufs|)
  {
    assert Key(0);
    CanWalk(c);
  }

  lemma Hits(c: Cache, blockno: int, b: int)
    requires Consistent(c) && 0 <= b < |c.bufs| && Holds(c.bufs[b], blockno)
    ensures Consistent(Refer(c, b)) && GotBuffer(c, blockno, b, Refer(c, b))
  {
    assert Key(0);
    HitOk(c, blockno, b);
  }

  /** Everything behind place i of the list is referenced or dirty. */
  ghost predicate NoneBehind(c: Cache, i: nat)
  {
    forall k :: i < k < |c.ring| ==> 0 <= c.ring[k] < |c.bufs| && !Eligible(c.bufs[c.ring[k]])
  }

  lemma Reuses(c: Cache, blockno: int, i: nat, b: int)
    requires Consistent(c) && 0 <= blockno < |c.disk| && !Cached(c.bufs, blockno) && 1 <= i < |c.ring| && c.ring[i] == b
    requires NoneBehind(c, i) && 0 <= b < |c.bufs| && Eligible(c.bufs[b])
    ensures Consistent(Recycle(c, b, blockno)) && GotBuffer(c, blockno, b, Recycle(c, b, blockno))
  {
    assert Key(0);
    VictimOk(c, blockno, i);
  }

  lemma Locks(c: Cache, b: int)
    requires Consistent(c) && 0 <= b < |c.bufs| && c.bufs[b].refcnt > 0
    ensures Consistent(SetLock(c, b, true))
  {
    assert Key(0);
    LockOk(c, b);
  }

  lemma Flushes(c: Cache, b: int)
    requires Consistent(c) && 0 <= b < |c.bufs| && c.bufs[b].valid
    ensures 0 <= c.bufs[b].blockno < |c.disk| && Consistent(Flush(c, b))
  {
    assert Key(0);
    FlushOk(c, b);
  }

  lemma Fills(c: Cache, b: int)
    requires Consistent(c) && 0 <= b < |c.bufs| && c.bufs[b].dev == DISK && !c.bufs[b].valid
    ensures 0 <= c.bufs[b].blockno < |c.disk| && Consistent(Fill(c, b))
  {
    assert Key(0);
    FillOk(c, b);
  }

  lemma Changes(c: Cache, b: int, data: Block)
    requires Consistent(c) && 0 <= b < |c.bufs| && c.bufs[b].valid && c.bufs[b].locked
    ensures 0 <= c.bufs[b].blockno < |c.view| && Consistent(Change(c, b, data))
  {
    assert Key(0);
    ChangeOk(c, b, data);
  }

  lemma Dirties(c: Cache, b: int)
    requires Consistent(c) && 0 <= b < |c.bufs| && c.bufs[b].valid
    ensures Consistent(MarkDirty(c, b))
  {
    assert Key(0);
    MarkDirtyOk(c, b);
  }

  lemma Releases(c: Cache, b: int) returns (c': Cache)
    requires Consistent(c) && 0 <= b < |c.bufs| && c.bufs[b].locked && c.bufs[b].valid
    requires c.bufs[b].dirty || (0 <= c.bufs[b].blockno < |c.disk| && c.bufs[b].data == c.disk[c.bufs[b].blockno])
    ensures Consistent(c') && ReleasedTo(c, b, c')
  {
    assert Key(0);
    c' := ReleaseOk(c, b);
  }

  lemma Starts(links: Links, disk: seq<Block>, n: nat)
    requires Part(links, Initial(n, n), n + 1)
    ensures Consistent(Cache(links, Blank(n), disk, Initial(n, n), disk, Stamps(n), n))
  {
    InitialOk(links, disk, n);
  }

  /** The first loop of bget: the buffer that has the block, or -1. */
  method Lookup(next: seq<int>, bufs: seq<Buf>, blockno: int, ghost prev: seq<int>, ghost ring: seq<int>) returns (b: int)
    requires Walk(next, prev, ring, |bufs|)
    ensures -1 <= b < |bufs|
    ensures b >= 0 ==> Holds(bufs[b], blockno)
    ensures b < 0 ==> !Cached(bufs, blockno)
  {
    var head := |bufs|;
    assert Hop(next, prev, ring, 0);
    b := next[head];
    ghost var i := 1;
    if |ring| > 1 { assert Hop(next, prev, ring, 1); }
    while b != head
      invariant 1 <= i <= |ring| && b == (if i < |ring| then ring[i] else head) && (i < |ring| ==> b < head)
      invariant forall k :: 1 <= k < i ==> 0 <= ring[k] < |bufs| && !Holds(bufs[ring[k]], blockno)
      decreases |ring| - i
    {
      assert Hop(next, prev, ring, i);
      if bufs[b].dev == DISK && bufs[b].blockno == blockno {
        return;
      }
      b := next[b];
      i := i + 1;
      if i < |ring| { assert Hop(next, prev, ring, i); }
    }
    forall a | 0 <= a < |bufs| ensures !Holds(bufs[a], blockno) {
      var k := Covered(next, prev, ring, |bufs|, a);
    }
    b := -1;
  }

  /** The second loop of bget: from the tail, the first buffer that is neither
      referenced nor dirty, or -1. */
  method FindVictim(prev: seq<int>, bufs: seq<Buf>, ghost next: seq<int>, ghost ring: seq<int>)
    returns (b: int, ghost i: nat)
    requires Walk(next, prev, ring, |bufs|)
    ensures -1 <= b < |bufs|
    ensures b >= 0 ==> Eligible(bufs[b]) && 1 <= i < |ring| && ring[i] == b
    ensures b >= 0 ==> forall k :: i < k < |ring| ==> 0 <= ring[k] < |bufs| && !Eligible(bufs[ring[k]])
    ensures b < 0 ==> forall a :: 0 <= a < |bufs| ==> !Eligible(bufs[a])
  {
    var head := |bufs|;
    assert Hop(next, prev, ring, 0);
    b := prev[head];
    i := |ring| - 1;
    while b != head
      invariant 0 <= i < |ring| && b == ring[i]
      invariant forall k :: i < k < |ring| ==> 0 <= ring[k] < |bufs| && !Eligible(bufs[ring[k]])
      decreases i
    {
      assert Hop(next, prev, ring, i);
      if bufs[b].refcnt == 0 && !bufs[b].dirty {
        return;
      }
      b := prev[b];
      i := i - 1;
    }
    assert i == 0 by { assert Hop(next, prev, ring, i); }
    forall a | 0 <= a < |bufs| ensures !Eligible(bufs[a]) {
      var k := Covered(next, prev, ring, |bufs|, a);
    }
    b := -1;
  }

  /** The six assignments by which brelse moves b behind the head. */
  method MoveFirst(next: seq<int>, prev: seq<int>, head: int, b: int) returns (next': seq<int>, prev': seq<int>)
    requires CanMove(next, prev, head, b)
    ensures Links(next', prev') == Push(Unlink(Links(next, prev), b), head, b)
  {
    next', prev' := next, prev;
    prev' := prev'[next'[b] := prev'[b]];
    next' := next'[prev'[b] := next'[b]];
    next' := next'[b := next'[head]];
    prev' := prev'[b := head];
    prev' := prev'[next'[head] := b];
    next' := next'[head := b];
  }

  /** Buffers 0 to b - 1 are on the list. */
  ghost predicate Linked(l: Links, n: nat, b: nat)
    requires b <= n
  {
    Part(l, Initial(n, b), n + 1)
  }

  lemma LinkNone(l: Links, n: nat)
    requires |l.next| == |l.prev| == n + 1 && l.next[n] == n == l.prev[n]
    ensures Linked(l, n, 0)
  {
  }

  lemma LinkOne(l: Links, n: nat, b: nat)
    requires b < n && Linked(l, n, b)
    ensures 0 <= l.next[n] <= n && l.next[n] != b && Linked(Push(l, n, b), n, b + 1)
  {
    var r := Initial(n, b);
    PushOk(l, r, n + 1, b);
    assert [r[0], b] + r[1..] == Initial(n, b + 1);
    assert l.next[n] == LruRing.After(r, 0);
  }

  /** The loop of binit. */
  method LinkAll(n: nat) returns (next: seq<int>, prev: seq<int>)
    ensures Part(Links(next, prev), Initial(n, n), n + 1)
  {
    var head := n;
    next, prev := seq(n + 1, _ => n), seq(n + 1, _ => n);
    LinkNone(Links(next, prev), n);
    var b := 0;
    while b < n
      invariant 0 <= b <= n && Linked(Links(next, prev), n, b)
    {
      LinkOne(Links(next, prev), n, b);
      ghost var l := Push(Links(next, prev), head, b);
      next := next[b := next[head]];
      prev := prev[b := head];
      prev := prev[next[head] := b];
      next := next[head := b];
      assert Links(next, prev) == l;
      b := b + 1;
    }
  }

  class Bcache {
    var next: seq<int>
    var prev: seq<int>
    var bufs: seq<Buf>
    var disk: seq<Block>
    /** The fields above, with the order of the list and the disk they stand for. */
    ghost var c: Cache
    /** How many have each buffer: one more for each bget, one less for each brelse. */
    ghost var users: seq<nat>

    ghost predicate Valid()
      reads this
    {
      && Consistent(c) && c.links == Links(next, prev) && c.bufs == bufs && c.disk == disk
      && |users| == |bufs| && forall b :: 0 <= b < |users| ==> bufs[b].refcnt == users[b]
    }

    /** b->refcnt++ */
    method Hit(blockno: int, b: int)
      requires Valid() && 0 <= b < |bufs| && Holds(bufs[b], blockno)
      modifies this`bufs, this`c, this`users
      ensures Valid() && |bufs| == |old(bufs)| && GotBuffer(old(c), blockno, b, c)
      ensures users == old(users)[b := old(users)[b] + 1]
      ensures forall a :: 0 <= a < |bufs| && a != b ==> bufs[a] == old(bufs)[a]
    {
      users := users[b := users[b] + 1];
      Hits(c, blockno, b);
      c := Refer(c, b);
      bufs := bufs[b := bufs[b].(refcnt := bufs[b].refcnt + 1)];
    }

    /** The buffer at place i of the list takes the block. */
    method Reuse(blockno: int, b: int, ghost i: nat)
      requires Valid() && 0 <= blockno < |disk| && !Cached(bufs, blockno)
      requires 0 <= b < |bufs| && Eligible(bufs[b]) && 1 <= i < |c.ring| && c.ring[i] == b
      requires NoneBehind(c, i)
      modifies this`bufs, this`c, this`users
      ensures Valid() && |bufs| == |old(bufs)| && GotBuffer(old(c), blockno, b, c)
      ensures old(users)[b] == 0 && users == old(users)[b := 1]
      ensures forall a :: 0 <= a < |bufs| && a != b ==> bufs[a] == old(bufs)[a]
    {
      users := users[b := 1];
      Reuses(c, blockno, i, b);
      c := Recycle(c, b, blockno);
      bufs := bufs[b := Buf(DISK, blockno, 1, false, false, bufs[b].locked, bufs[b].data)];
    }

    /** bget, up to acquiresleep.  A buffer that someone has keeps its block and its data,
        and so does every other buffer but the one returned. */
    method Bget(blockno: int) returns (b: int)
      requires Valid() && 0 <= blockno < |disk|
      modifies this`bufs, this`c, this`users
      ensures Valid() && -1 <= b < |bufs| == |old(bufs)| && GotBuffer(old(c), blockno, b, c)
      ensures users == if b < 0 then old(users) else old(users)[b := old(users)[b] + 1]
      ensures forall a :: 0 <= a < |bufs| && (a != b || old(users)[a] > 0) ==> bufs[a] == old(bufs)[a].(refcnt := bufs[a].refcnt)
    {
      Walks(c);
      b := Lookup(next, bufs, blockno, prev, c.ring);
      if b >= 0 {
        Hit(blockno, b);
        return;
      }
      ghost var i;
      b, i := FindVictim(prev, bufs, next, c.ring);
      if b >= 0 {
        Reuse(blockno, b, i);
      }
    }

    /** iderw of memide.c; the requires exclude its panics. */
    method Iderw(b: int)
      requires Valid() && 0 <= b < |bufs| && bufs[b].locked && bufs[b].dev == DISK
      requires !bufs[b].valid || bufs[b].dirty
      modifies this`bufs, this`disk, this`c
      ensures Valid() && |bufs| == |old(bufs)| && 0 <= bufs[b].blockno < |disk| == |c.view|
      ensures 0 <= old(c).bufs[b].blockno < |old(c).disk|
      ensures c == if old(bufs)[b].dirty then Flush(old(c), b) else Fill(old(c), b)
      ensures bufs[b].valid && bufs[b].data == c.view[bufs[b].blockno]
    {
      BufIs(c, b);
      if bufs[b].dirty {
        Flushes(c, b);
        c := Flush(c, b);
        disk := disk[bufs[b].blockno := bufs[b].data];
        bufs := bufs[b := bufs[b].(dirty := false, valid := true)];
      } else {
        Fills(c, b);
        c := Fill(c, b);
        bufs := bufs[b := bufs[b].(valid := true, data := disk[bufs[b].blockno])];
      }
      BufIs(c, b);
    }

    /** bread, when no other process holds the buffer: it returns the buffer locked,
        with the latest contents of the block. */
    method Bread(blockno: int) returns (b: int)
      requires Valid() && 0 <= blockno < |disk|
      requires forall a :: 0 <= a < |bufs| && Holds(bufs[a], blockno) ==> !bufs[a].locked
      modifies this`bufs, this`disk, this`c, this`users
      ensures Valid() && |bufs| == |old(bufs)| && -1 <= b < |bufs| && disk == old(disk) && c.view == old(c.view) && |c.view| == |disk|
      ensures b < 0 <==> !Cached(old(bufs), blockno) && forall a :: 0 <= a < |bufs| ==> !Eligible(old(bufs)[a])
      ensures b >= 0 ==> Holds(bufs[b], blockno) && bufs[b].locked && bufs[b].valid && bufs[b].data == c.view[blockno]
      ensures users == if b < 0 then old(users) else old(users)[b := old(users)[b] + 1]
      ensures forall a :: 0 <= a < |bufs| && a != b ==> bufs[a] == old(bufs)[a]
    {
      b := Bget(blockno);
      if b < 0 {
        return;
      }
      Locks(c, b);
      c := SetLock(c, b, true);
      bufs := bufs[b := bufs[b].(locked := true)];
      BufIs(c, b);
      if !bufs[b].valid { Iderw(b); }
    }

    /** The holder of a buffer changes its data: this alone changes the view. */
    method Modify(b: int, data: Block)
      requires Valid() && 0 <= b < |bufs| && bufs[b].locked && bufs[b].valid
      modifies this`bufs, this`c
      ensures Valid() && |bufs| == |old(bufs)| && 0 <= old(c).bufs[b].blockno == bufs[b].blockno < |old(c).view|
      ensures c == Change(old(c), b, data) && c.view == old(c.view)[bufs[b].blockno := data]
    {
      Changes(c, b, data);
      c := Change(c, b, data);
      bufs := bufs[b := bufs[b].(data := data)];
    }

    /** The line of log_write that sets B_DIRTY. */
    method Dirty(b: int)
      requires Valid() && 0 <= b < |bufs| && bufs[b].valid
      modifies this`bufs, this`c
      ensures Valid() && |bufs| == |old(bufs)| && c == MarkDirty(old(c), b)
    {
      Dirties(c, b);
      c := MarkDirty(c, b);
      bufs := bufs[b := bufs[b].(dirty := true)];
    }

    method Bwrite(b: int)
      requires Valid() && 0 <= b < |bufs| && bufs[b].locked && bufs[b].valid
      modifies this`bufs, this`disk, this`c
      ensures Valid() && |bufs| == |old(bufs)| && 0 <= bufs[b].blockno < |disk| == |old(disk)| == |c.view| && !bufs[b].dirty && c.view == old(c.view)
      ensures disk == old(disk)[bufs[b].blockno := bufs[b].data] && disk[bufs[b].blockno] == c.view[bufs[b].blockno]
    {
      BufIs(c, b);
      Dirty(b);
      Iderw(b);
    }

    /** brelse; the rule is that the buffer is dirty, or as it is on the disk.  One user
        less; the buffer is free to be locked by another and keeps its block and its data. */
    method Brelse(b: int)
      requires Valid() && 0 <= b < |bufs| && bufs[b].locked && bufs[b].valid
      requires bufs[b].dirty || (0 <= bufs[b].blockno < |disk| && bufs[b].data == disk[bufs[b].blockno])
      modifies this`bufs, this`next, this`prev, this`c, this`users
      ensures Valid() && |old(c).stamp| == |old(bufs)| && ReleasedTo(old(c), b, c) && c.view == old(c.view)
      ensures old(users)[b] > 0 && users == old(users)[b := old(users)[b] - 1]
      ensures bufs == old(bufs)[b := old(bufs)[b].(refcnt := users[b], locked := false)]
    {
      BufIs(c, b);
      users := users[b := users[b] - 1];
      c := Releases(c, b);
      bufs := bufs[b := bufs[b].(refcnt := bufs[b].refcnt - 1, locked := false)];
      if bufs[b].refcnt == 0 {
        next, prev := MoveFirst(next, prev, |bufs|, b);
      }
    }

    /** binit, with NBUF buffers that hold nothing. */
    constructor (n: nat, disk: seq<Block>)
      ensures Valid() && |bufs| == n && this.disk == disk && c.view == disk
      ensures forall b :: 0 <= b < n ==> bufs[b] == EMPTY && users[b] == 0
    {
      var nx, pv := LinkAll(n);
      Starts(Links(nx, pv), disk, n);
      next, prev, bufs, this.disk := nx, pv, Blank(n), disk;
      c := Cache(Links(nx, pv), Blank(n), disk, Initial(n, n), disk, Stamps(n), n);
      users := seq(n, _ => 0);
    }
  }
}

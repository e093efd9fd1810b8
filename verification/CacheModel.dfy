/** The state of the buffer cache of lab2/bio.c over the disk of lab2/memide.c, and
    what each operation does to it. */
module CacheModel {
  import opened LruRing
  import opened Rings

  /** The contents of a block; the cache never looks inside. */
  type Block = seq<int>

  const DISK: int := 1

  datatype Buf = Buf(dev: int, blockno: int, refcnt: int, valid: bool, dirty: bool, locked: bool, data: Block)

  /** `ring` is the list from the head; `view` is the plain disk that the cache
      stands for; `stamp` says when each buffer was last released, by `clock`. */
  datatype Cache = Cache(links: Links, bufs: seq<Buf>, disk: seq<Block>,
                         ring: seq<int>, view: seq<Block>, stamp: seq<int>, clock: int)

  predicate Holds(b: Buf, blockno: int) { b.dev == DISK && b.blockno == blockno }

  /** The buffer may differ from the disk. */
  predicate Pins(b: Buf, blockno: int) { Holds(b, blockno) && b.valid && (b.dirty || b.locked) }

  /** Neither referenced nor dirty: bget may reuse it. */
  predicate Eligible(b: Buf) { b.refcnt == 0 && !b.dirty }

  predicate BufOk(b: Buf, size: nat)
  {
    && 0 <= b.refcnt && (b.locked ==> b.refcnt > 0) && (b.dirty ==> b.valid)
    && (b.dev == DISK ==> 0 <= b.blockno < size)
    && (b.dev != DISK ==> !b.valid && b.refcnt == 0)
  }

  ghost predicate RingOk(c: Cache)
  {
    && |c.ring| == |c.bufs| + 1 && Part(c.links, c.ring, |c.ring|) && c.ring[0] == |c.bufs|
    && (forall b :: 0 <= b < |c.bufs| ==> b in c.ring)
    && |c.stamp| == |c.bufs|
    && (forall b :: 0 <= b < |c.stamp| ==> c.stamp[b] < c.clock)
  }

  /** The list is in the order of the last releases, latest first. */
  ghost predicate Recency(ring: seq<int>, stamp: seq<int>)
  {
    && (forall i :: 1 <= i < |ring| ==> 0 <= ring[i] < |stamp|)
    && forall i, j :: 1 <= i < j < |ring| ==> stamp[ring[i]] > stamp[ring[j]]
  }

  /** No block has two buffers. */
  predicate Unique(bufs: seq<Buf>)
  {
    forall a, b :: 0 <= a < b < |bufs| && bufs[a].dev == DISK && bufs[b].dev == DISK ==> bufs[a].blockno != bufs[b].blockno
  }

  /** Valid buffers show the view, and so does the disk where no buffer differs. */
  ghost predicate Shows(bufs: seq<Buf>, disk: seq<Block>, view: seq<Block>)
  {
    && |view| == |disk|
    && (forall b :: 0 <= b < |bufs| ==> BufOk(bufs[b], |disk|))
    && (forall b :: 0 <= b < |bufs| && bufs[b].valid ==> bufs[b].data == view[bufs[b].blockno])
    && (forall k :: 0 <= k < |disk| && disk[k] != view[k] ==> exists b :: 0 <= b < |bufs| && Pins(bufs[b], k))
  }

  // ------------------------------------------------------------------
  // Operations
  // ------------------------------------------------------------------

  predicate Cached(bufs: seq<Buf>, blockno: int) { exists b :: 0 <= b < |bufs| && Holds(bufs[b], blockno) }

  function Refer(c: Cache, b: int): Cache
    requires 0 <= b < |c.bufs|
  {
    c.(bufs := c.bufs[b := c.bufs[b].(refcnt := c.bufs[b].refcnt + 1)])
  }

  function Recycle(c: Cache, b: int, blockno: int): Cache
    requires 0 <= b < |c.bufs|
  {
    c.(bufs := c.bufs[b := Buf(DISK, blockno, 1, false, false, c.bufs[b].locked, c.bufs[b].data)])
  }

  function SetLock(c: Cache, b: int, on: bool): Cache
    requires 0 <= b < |c.bufs|
  {
    c.(bufs := c.bufs[b := c.bufs[b].(locked := on)])
  }

  /** iderw on a dirty buffer. */
  function Flush(c: Cache, b: int): Cache
    requires 0 <= b < |c.bufs| && 0 <= c.bufs[b].blockno < |c.disk|
  {
    c.(bufs := c.bufs[b := c.bufs[b].(dirty := false, valid := true)],
       disk := c.disk[c.bufs[b].blockno := c.bufs[b].data])
  }

  /** iderw on a buffer that is not valid. */
  function Fill(c: Cache, b: int): Cache
    requires 0 <= b < |c.bufs| && 0 <= c.bufs[b].blockno < |c.disk|
  {
    c.(bufs := c.bufs[b := c.bufs[b].(valid := true, data := c.disk[c.bufs[b].blockno])])
  }

  function MarkDirty(c: Cache, b: int): Cache
    requires 0 <= b < |c.bufs|
  {
    c.(bufs := c.bufs[b := c.bufs[b].(dirty := true)])
  }

  /** The holder changes the data: the only change of the view. */
  function Change(c: Cache, b: int, data: Block): Cache
    requires 0 <= b < |c.bufs| && 0 <= c.bufs[b].blockno < |c.view|
  {
    c.(bufs := c.bufs[b := c.bufs[b].(data := data)], view := c.view[c.bufs[b].blockno := data])
  }

  function Unrefer(c: Cache, b: int): Cache
    requires 0 <= b < |c.bufs|
  {
    c.(bufs := c.bufs[b := c.bufs[b].(refcnt := c.bufs[b].refcnt - 1, locked := false)])
  }

  /** The last release moves the buffer behind the head. */
  ghost function ToFront(c: Cache, k: nat): Cache
    requires 0 < k < |c.ring| && Part(c.links, c.ring, |c.ring|) && 0 <= c.ring[k] < |c.stamp|
  {
    var b, rest := c.ring[k], Without(c.ring, k);
    UnlinkOk(c.links, c.ring, |c.ring|, k);
    assert Unlink(c.links, b).next[rest[0]] == After(rest, 0);
    c.(links := Push(Unlink(c.links, b), c.ring[0], b), ring := [rest[0], b] + rest[1..],
       stamp := c.stamp[b := c.clock], clock := c.clock + 1)
  }
}

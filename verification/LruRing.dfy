/** The doubly linked ring of lab2/bio.c, with pointers as buffer numbers: the
    buffers are 0..n-1 and the list head is n. */
module LruRing {
  import opened Rings

  /** b->next and b->prev. */
  datatype Links = Links(next: seq<int>, prev: seq<int>)

  function After(ring: seq<int>, i: nat): int
    requires i < |ring|
  {
    if i + 1 < |ring| then ring[i + 1] else ring[0]
  }

  /** Take b out of the list: b->next->prev = b->prev; b->prev->next = b->next. */
  function Unlink(l: Links, b: int): Links
    requires 0 <= b < |l.next| && |l.prev| == |l.next| && 0 <= l.next[b] < |l.next| && 0 <= l.prev[b] < |l.next|
  {
    Links(l.next[l.prev[b] := l.next[b]], l.prev[l.next[b] := l.prev[b]])
  }

  /** Put b behind the head: the four assignments of binit and brelse. */
  function Push(l: Links, head: int, b: int): Links
    requires 0 <= b < |l.next| && |l.prev| == |l.next| && 0 <= head < |l.next| && 0 <= l.next[head] < |l.next|
  {
    Links(l.next[b := l.next[head]][head := b], l.prev[b := head][l.next[head] := b])
  }

  /** From ring[0] on, following next or, backwards, prev, one meets exactly the
      elements of ring; other buffers are not on the list. */
  ghost predicate Part(l: Links, ring: seq<int>, n: nat)
  {
    && |ring| > 0 && |l.next| == n && |l.prev| == n
    && (forall i :: 0 <= i < |ring| ==> 0 <= ring[i] < n)
    && (forall i, j :: 0 <= i < j < |ring| ==> ring[i] != ring[j])
    && (forall i :: 0 <= i < |ring| ==> l.next[ring[i]] == After(ring, i) && l.prev[After(ring, i)] == ring[i])
  }

  lemma UnlinkOk(l: Links, ring: seq<int>, n: nat, k: nat)
    requires Part(l, ring, n) && 0 < k < |ring|
    ensures l.next[ring[k]] == After(ring, k) && l.prev[ring[k]] == ring[k - 1]
    ensures Part(Unlink(l, ring[k]), Without(ring, k), n)
  {
    var b, r := ring[k], Without(ring, k);
    assert After(ring, k - 1) == b;
    var l' := Unlink(l, b);
    forall i | 0 <= i < |r| ensures 0 <= r[i] < n && l'.next[r[i]] == After(r, i) && l'.prev[After(r, i)] == r[i] {
      UnlinkAt(l, ring, n, k, i);
    }
    forall i, j | 0 <= i < j < |r| ensures r[i] != r[j] {
      WithoutAt(ring, k, i);
      WithoutAt(ring, k, j);
    }
  }

  lemma UnlinkAt(l: Links, ring: seq<int>, n: nat, k: nat, i: nat)
    requires Part(l, ring, n) && 0 < k < |ring| && i < |ring| - 1
    requires l.next[ring[k]] == After(ring, k) && l.prev[ring[k]] == ring[k - 1]
    ensures var r, l' := Without(ring, k), Unlink(l, ring[k]);
            0 <= r[i] < n && l'.next[r[i]] == After(r, i) && l'.prev[After(r, i)] == r[i]
  {
    var r := Without(ring, k);
    var at := if i < k then i else i + 1;
    WithoutAt(ring, k, i);
    WithoutAt(ring, k, 0);
    if i + 1 < |r| { WithoutAt(ring, k, i + 1); }
    assert After(r, i) == if at + 1 == k then After(ring, k) else After(ring, at);
    assert l.next[ring[at]] == After(ring, at) && l.prev[After(ring, at)] == ring[at];
  }

  lemma PushOk(l: Links, ring: seq<int>, n: nat, b: int)
    requires Part(l, ring, n) && 0 <= b < n && b !in ring
    ensures l.next[ring[0]] == After(ring, 0)
    ensures Part(Push(l, ring[0], b), [ring[0], b] + ring[1..], n)
  {
    var r := [ring[0], b] + ring[1..];
    var l' := Push(l, ring[0], b);
    assert l.next[ring[0]] == After(ring, 0);
    forall i | 0 <= i < |r| ensures 0 <= r[i] < n && l'.next[r[i]] == After(r, i) && l'.prev[After(r, i)] == r[i] {
      if i >= 2 {
        assert r[i] == ring[i - 1];
        assert l.next[ring[i - 1]] == After(ring, i - 1) && l.prev[After(ring, i - 1)] == ring[i - 1];
      }
    }
  }
}

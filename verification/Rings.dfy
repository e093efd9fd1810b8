/** A ring as the sequence of its nodes, with one of them left out. */
module Rings {

  function Without(ring: seq<int>, k: nat): seq<int>
    requires k < |ring|
  {
    ring[..k] + ring[k + 1..]
  }

  lemma WithoutAt(ring: seq<int>, k: nat, i: nat)
    requires k < |ring| && i < |ring| - 1
    ensures Without(ring, k)[i] == ring[if i < k then i else i + 1]
  {
  }

  lemma WithoutMembers(ring: seq<int>, k: nat, a: int)
    requires k < |ring| && forall i, j :: 0 <= i < j < |ring| ==> ring[i] != ring[j]
    ensures a in Without(ring, k) <==> a in ring && a != ring[k]
  {
    var r := Without(ring, k);
    if a in r {
      var i :| 0 <= i < |r| && r[i] == a;
      WithoutAt(ring, k, i);
    }
    if a in ring && a != ring[k] {
      var i :| 0 <= i < |ring| && ring[i] == a;
      WithoutAt(ring, k, if i < k then i else i - 1);
    }
  }
}

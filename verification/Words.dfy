/** 32-bit words, and division as the proofs use it. */
module Words {
  const WRAP: int := 0x1_0000_0000

  type uint32 = x: int | 0 <= x < 0x1_0000_0000

  lemma DivIs(x: int, m: int, q: int, r: int)
    requires m > 0 && x == m * q + r && 0 <= r < m
    ensures x / m == q && x % m == r
  {
    var d := x / m - q;
    assert m * d == r - x % m;
    assert d >= 1 ==> m * d >= m;
    assert d <= -1 ==> m * d <= -m;
  }

  /** The largest multiple of m up to x. */
  lemma Multiple(x: int, m: int, q: int)
    requires m > 0 && x >= 0 && q == x / m
    ensures 0 <= q * m <= x && (q * m > 0 <==> x >= m)
  {
    var r := x % m;
    assert x == q * m + r && 0 <= r < m;
    assert q >= 1 ==> q * m >= m;
    assert q <= 0 ==> q * m <= 0;
    assert q <= -1 ==> q * m <= -m;
  }
}

/** Blocks of 512 bytes, read and written as bytes, as 32-bit little-endian words
    (indirect blocks and inodes) and as bits (the free map). */
module FsBytes {
  import opened Words

  const BSIZE: int := 512
  const WORDS: int := 128
  const BPB: int := 4096

  type byte = x: int | 0 <= x < 256
  type word = uint32
  type Block = b: seq<byte> | |b| == 512 witness seq(512, _ => 0)

  function Zero(): Block { seq(512, _ => 0) }

  // ------------------------------------------------------------------
  // Words
  // ------------------------------------------------------------------

  function Compose(b0: byte, b1: byte, b2: byte, b3: byte): word
  {
    b0 + 0x100 * b1 + 0x1_0000 * b2 + 0x100_0000 * b3
  }

  function Word(b: Block, j: int): word
    requires 0 <= j < WORDS
  {
    Compose(b[4 * j], b[4 * j + 1], b[4 * j + 2], b[4 * j + 3])
  }

  function WithWord(b: Block, j: int, v: word): Block
    requires 0 <= j < WORDS
  {
    b[4 * j := v % 0x100][4 * j + 1 := v / 0x100 % 0x100][4 * j + 2 := v / 0x1_0000 % 0x100][4 * j + 3 := v / 0x100_0000]
  }

  lemma ComposeParts(v: word)
    ensures Compose(v % 0x100, v / 0x100 % 0x100, v / 0x1_0000 % 0x100, v / 0x100_0000) == v
  {
    assert v == v / 0x100 * 0x100 + v % 0x100;
    assert v / 0x100 == v / 0x1_0000 * 0x100 + v / 0x100 % 0x100;
    assert v / 0x1_0000 == v / 0x100_0000 * 0x100 + v / 0x1_0000 % 0x100;
  }

  /** What is written to a word is read back, and no other word changes. */
  lemma WordBack(b: Block, j: int, v: word)
    requires 0 <= j < WORDS
    ensures Word(WithWord(b, j, v), j) == v
    ensures forall k :: 0 <= k < WORDS && k != j ==> Word(WithWord(b, j, v), k) == Word(b, k)
  {
    ComposeParts(v);
  }

  // ------------------------------------------------------------------
  // Bits
  // ------------------------------------------------------------------

  function Mask(k: int): int
    requires 0 <= k < 8
  {
    [1, 2, 4, 8, 16, 32, 64, 128][k]
  }

  /** (x & m) != 0 for m = 1 << k. */
  predicate BitOf(x: byte, k: int)
    requires 0 <= k < 8
  {
    x / Mask(k) % 2 == 1
  }

  /** x | m, or x & ~m. */
  function WithBitOf(x: byte, k: int, on: bool): byte
    requires 0 <= k < 8
  {
    if BitOf(x, k) == on then x else if on then x + Mask(k) else x - Mask(k)
  }

  /** Adding a multiple of m adds to the quotient. */
  lemma DivShift(x: int, m: int, c: int)
    requires m > 0
    ensures (x + c * m) / m == x / m + c
  {
    assert x + c * m == m * (x / m + c) + x % m;
    DivIs(x + c * m, m, x / m + c, x % m);
  }

  /** A change of the bit at 2 * e * m leaves the bit at m. */
  lemma HigherBit(x: int, m: int, e: int, c: int)
    requires m > 0 && (c == e || c == -e)
    ensures (x + 2 * c * m) / m % 2 == x / m % 2
  {
    DivShift(x, m, 2 * c);
    assert (x + (2 * c) * m) / m == x / m + 2 * c;
  }

  lemma DivBelow(r: int, m: int, p: int)
    requires m > 0 && 0 <= r < p * m
    ensures 0 <= r / m < p && r == m * (r / m) + r % m
  {
    var t := r / m;
    assert r == m * t + r % m;
    assert t >= p ==> m * t >= m * p;
    assert t <= -1 ==> m * t <= -m;
  }

  /** One more or one less at m stays below p * m, when the digit allows it. */
  lemma NoCarry(r: int, m: int, p: int, on: bool)
    requires m > 0 && 0 <= r < p * m && (if on then r / m < p - 1 else r / m > 0)
    ensures 0 <= (if on then r + m else r - m) < p * m
  {
    DivBelow(r, m, p);
    var t := r / m;
    if on {
      assert m * t <= m * (p - 2);
      assert m * (p - 2) == m * p - 2 * m;
    } else {
      assert m * t >= m;
    }
  }

  /** A change of the bit at m, in the direction it allows, leaves the bit at
      2 * e * m: there is no carry. */
  lemma LowerBit(x: int, m: int, e: int, on: bool)
    requires m > 0 && e > 0 && x >= 0 && (x / m % 2 == 1) == !on
    ensures 2 * e * m > 0 && (if on then x + m else x - m) / (2 * e * m) == x / (2 * e * m)
  {
    var p := 2 * e;
    var n := p * m;
    var q, r := x / n, x % n;
    assert x == n * q + r;
    assert n * q == (p * q) * m;
    DivShift(r, m, p * q);
    DivBelow(r, m, p);
    assert p * q == 2 * (e * q);
    NoCarry(r, m, p, on);
    DivIs(if on then x + m else x - m, n, q, if on then r + m else r - m);
  }

  lemma MaskRatio(k: int, j: int) returns (e: int)
    requires 0 <= k < j < 8
    ensures e > 0 && Mask(j) == 2 * e * Mask(k)
  {
    e := Mask(j - k - 1);
  }

  lemma BelowKept(x: byte, k: int, on: bool, j: int)
    requires 0 <= j < k < 8 && BitOf(x, k) != on
    ensures BitOf(WithBitOf(x, k, on), j) == BitOf(x, j)
  {
    var n := Mask(j);
    var e := MaskRatio(j, k);
    var c := if on then e else -e;
    HigherBit(x, n, e, c);
    assert 2 * c * n == if on then Mask(k) else -Mask(k);
  }

  lemma AboveKept(x: byte, k: int, on: bool, j: int)
    requires 0 <= k < j < 8 && BitOf(x, k) != on
    ensures BitOf(WithBitOf(x, k, on), j) == BitOf(x, j)
  {
    var e := MaskRatio(k, j);
    LowerBit(x, Mask(k), e, on);
  }

  lemma SameFlipped(x: byte, k: int, on: bool)
    requires 0 <= k < 8 && BitOf(x, k) != on
    ensures BitOf(WithBitOf(x, k, on), k) == on
  {
    DivShift(x, Mask(k), if on then 1 else -1);
  }

  lemma BitOfBack(x: byte, k: int, on: bool, j: int)
    requires 0 <= k < 8 && 0 <= j < 8
    ensures BitOf(WithBitOf(x, k, on), j) == if j == k then on else BitOf(x, j)
  {
    if BitOf(x, k) != on {
      if j < k { BelowKept(x, k, on, j); } else if k < j { AboveKept(x, k, on, j); } else { SameFlipped(x, k, on); }
    }
  }

  predicate Bit(b: Block, k: int)
    requires 0 <= k < BPB
  {
    BitOf(b[k / 8], k % 8)
  }

  function WithBit(b: Block, k: int, on: bool): Block
    requires 0 <= k < BPB
  {
    b[k / 8 := WithBitOf(b[k / 8], k % 8, on)]
  }

  lemma BitBack(b: Block, k: int, on: bool)
    requires 0 <= k < BPB
    ensures Bit(WithBit(b, k, on), k) == on
    ensures forall j :: 0 <= j < BPB && j != k ==> Bit(WithBit(b, k, on), j) == Bit(b, j)
  {
    forall j | 0 <= j < BPB ensures Bit(WithBit(b, k, on), j) == if j == k then on else Bit(b, j) {
      if j / 8 == k / 8 { BitOfBack(b[k / 8], k % 8, on, j % 8); }
    }
  }

  // ------------------------------------------------------------------
  // Bytes
  // ------------------------------------------------------------------

  /** memmove of d to offset o. */
  function WithBytes(b: Block, o: int, d: seq<byte>): Block
    requires 0 <= o && o + |d| <= BSIZE
  {
    b[..o] + d + b[o + |d|..]
  }

  lemma ZeroWords()
    ensures forall j :: 0 <= j < WORDS ==> Word(Zero(), j) == 0
  {
  }
}

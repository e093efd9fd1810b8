/** Where lab2/fs.h puts things on the disk, byte by byte: inodes and the free map. */
module FsLayout {
  import opened Words
  import opened FsBytes
  import opened FsModel

  /** A little-endian short, and a little-endian word. */
  function Short(c: Block, o: int): int
    requires 0 <= o && o + 2 <= BSIZE
  {
    (c[o] as int) + 0x100 * (c[o + 1] as int)
  }

  function Long(c: Block, o: int): int
    requires 0 <= o && o + 4 <= BSIZE
  {
    Short(c, o) + 0x1_0000 * Short(c, o + 2)
  }

  lemma LongIsWord(c: Block, j: int)
    requires 0 <= j < WORDS
    ensures Long(c, 4 * j) == Word(c, j)
  {
  }

  lemma TwoShorts(c: Block, o: int, lo: half, hi: half)
    requires 0 <= o && o + 4 <= BSIZE && Long(c, o) == lo + 0x1_0000 * hi
    ensures Short(c, o) == lo && Short(c, o + 2) == hi
  {
    DivIs(Long(c, o), 0x1_0000, hi, lo);
    DivIs(Long(c, o), 0x1_0000, Short(c, o + 2), Short(c, o));
  }

  /** The fields of struct dinode at offset o of a block. */
  predicate InodeAt(c: Block, o: int, n: Inode)
    requires 0 <= o && o + 64 <= BSIZE
  {
    && Short(c, o) == n.typ && Short(c, o + 2) == n.major && Short(c, o + 4) == n.minor && Short(c, o + 6) == n.nlink
    && Long(c, o + 8) == n.size && forall k :: 0 <= k < 13 ==> Long(c, o + 12 + 4 * k) == n.addrs[k]
  }

  lemma SlotLong(b: Block, slot: int, n: Inode, w: int)
    requires 0 <= slot < 8 && 0 <= w < 16
    ensures Long(WithInode(b, slot, n), 64 * slot + 4 * w) == InodeWords(n)[w]
  {
    var j := 16 * slot + w;
    WordsBack(b, 16 * slot, InodeWords(n), j);
    LongIsWord(WithInode(b, slot, n), j);
    assert 4 * j == 64 * slot + 4 * w;
  }

  lemma SlotLayout(b: Block, slot: int, n: Inode)
    requires 0 <= slot < 8
    ensures InodeAt(WithInode(b, slot, n), 64 * slot, n)
  {
    var c, o := WithInode(b, slot, n), 64 * slot;
    SlotLong(b, slot, n, 0);
    TwoShorts(c, o, n.typ, n.major);
    SlotLong(b, slot, n, 1);
    TwoShorts(c, o + 4, n.minor, n.nlink);
    SlotLong(b, slot, n, 2);
    forall k | 0 <= k < 13 ensures Long(c, o + 12 + 4 * k) == n.addrs[k] {
      SlotLong(b, slot, n, 3 + k);
    }
  }

  /** iupdate: inode i is in block inodestart + i / 8, in the 64 bytes from 64 * (i % 8); no
      other block and no other inode s of the block changes. */
  lemma InodeLayout(sb: Super, blocks: seq<Block>, i: int, n: Inode, s: int)
    requires sb.Ok() && |blocks| == sb.size && 0 <= i < sb.ninodes && 0 <= s < 8 && s != i % 8
    ensures 0 <= sb.inodestart + i / 8 < |blocks| && 0 <= sb.IBlock(i) < |blocks|
    ensures var b := sb.inodestart + i / 8;
            && PutInode(sb, blocks, i, n) == blocks[b := PutInode(sb, blocks, i, n)[b]]
            && InodeAt(PutInode(sb, blocks, i, n)[b], 64 * (i % 8), n)
            && WordsInode(PutInode(sb, blocks, i, n)[b], s) == WordsInode(blocks[b], s)
  {
    assert sb.IBlock(i) <= sb.IBlock(sb.ninodes - 1);
    var b := sb.inodestart + i / 8;
    assert b == sb.IBlock(i);
    SlotLayout(blocks[b], i % 8, n);
    InodeBack(blocks[b], i % 8, n, s);
  }

  /** 1 << k */
  function Two(k: nat): (m: int)
    ensures m > 0
  {
    if k == 0 then 1 else 2 * Two(k - 1)
  }

  lemma {:induction false} TwoIsMask(k: nat)
    requires k < 8
    ensures Two(k) == Mask(k)
  {
    if k > 0 { TwoIsMask(k - 1); }
  }

  /** balloc and bfree: the mark of block b, which is block 4096 * q + 8 * r + k, is bit k of
      byte r of block bmapstart + q; no other block changes. */
  lemma MarkLayout(sb: Super, blocks: seq<Block>, b: int, on: bool, q: int, r: int, k: int)
    requires sb.Ok() && |blocks| == sb.size && 0 <= b < sb.size && b == 4096 * q + 8 * r + k && 0 <= r < 512 && 0 <= k < 8
    ensures 0 <= sb.bmapstart + q < |blocks| && 0 <= sb.BBlock(b) < |blocks|
    ensures var c := Mark(sb, blocks, b, on)[sb.bmapstart + q];
            Mark(sb, blocks, b, on) == blocks[sb.bmapstart + q := c] && c[r] / Two(k) % 2 == if on then 1 else 0
  {
    assert sb.BBlock(b) <= sb.BBlock(sb.size - 1);
    var p := 8 * r + k;
    DivIs(b, 4096, q, p);
    DivIs(p, 8, r, k);
    BitBack(blocks[sb.bmapstart + q], p, on);
    TwoIsMask(k);
  }
}

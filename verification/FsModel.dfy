/** The disk of lab2/fs.c as seen through the cache: free map, inodes, block lists
    and file contents, and the small changes that the code makes to them. */
module FsModel {
  import opened Words
  import opened FsBytes

  const NDIRECT: int := 12
  const NINDIRECT: int := 128
  const MAXFILE: int := NDIRECT + NINDIRECT
  const IPB: int := 8
  /** The references of an inode: NDIRECT direct blocks, the indirect block, and
      the blocks it lists. */
  const SLOTS: int := NDIRECT + 1 + NINDIRECT

  /** The superblock; `datastart` is the first block after the metadata. */
  datatype Super = Super(size: int, ninodes: int, inodestart: int, bmapstart: int, datastart: int) {
    predicate Ok()
    {
      && 0 < ninodes && 0 < inodestart && IBlock(ninodes - 1) < bmapstart
      && BBlock(size - 1) < datastart <= size <= WRAP
    }
    function IBlock(i: int): int { i / IPB + inodestart }
    function BBlock(b: int): int { b / BPB + bmapstart }
  }

  type half = x: int | 0 <= x < 0x1_0000

  /** struct dinode, and the part of struct inode that is a copy of it. */
  datatype InodeRaw = Inode(typ: half, major: half, minor: half, nlink: half, size: word, addrs: seq<word>)
  type Inode = n: InodeRaw | |n.addrs| == 13 witness Inode(0, 0, 0, 0, 0, seq(13, _ => 0))

  // ------------------------------------------------------------------
  // Inodes on disk
  // ------------------------------------------------------------------

  /** An inode is 16 words, the shorts two in a word. */
  function InodeWords(n: Inode): (ws: seq<word>)
    ensures |ws| == 16
  {
    [n.typ + 0x1_0000 * n.major, n.minor + 0x1_0000 * n.nlink, n.size] + n.addrs
  }

  function InodeOf(ws: seq<word>): Inode
    requires |ws| == 16
  {
    Inode(ws[0] % 0x1_0000, ws[0] / 0x1_0000, ws[1] % 0x1_0000, ws[1] / 0x1_0000, ws[2], ws[3..])
  }

  /** Sixteen words of a block. */
  function WordsAt(b: Block, w: int): (ws: seq<word>)
    requires 0 <= w <= WORDS - 16
    ensures |ws| == 16 && forall i :: 0 <= i < 16 ==> ws[i] == Word(b, w + i)
  {
    seq<word>(16, i requires 0 <= i < 16 => Word(b, w + i))
  }

  function WordsInode(b: Block, slot: int): Inode
    requires 0 <= slot < IPB
  {
    InodeOf(WordsAt(b, 16 * slot))
  }

  function WithWords(b: Block, w: int, ws: seq<word>): Block
    requires 0 <= w && w + |ws| <= WORDS
    decreases |ws|
  {
    if ws == [] then b else WithWords(WithWord(b, w, ws[0]), w + 1, ws[1..])
  }

  function WithInode(b: Block, slot: int, n: Inode): Block
    requires 0 <= slot < IPB
  {
    WithWords(b, 16 * slot, InodeWords(n))
  }

  lemma {:induction false} WordsBack(b: Block, w: int, ws: seq<word>, k: int)
    requires 0 <= w && w + |ws| <= WORDS && 0 <= k < WORDS
    ensures Word(WithWords(b, w, ws), k) == if w <= k < w + |ws| then ws[k - w] else Word(b, k)
    decreases |ws|
  {
    if ws != [] {
      var b' := WithWord(b, w, ws[0]);
      assert Word(b', k) == if k == w then ws[0] else Word(b, k) by { WordBack(b, w, ws[0]); }
      WordsBack(b', w + 1, ws[1..], k);
      assert WithWords(b, w, ws) == WithWords(b', w + 1, ws[1..]);
    }
  }

  lemma SameWords(c: Block, w: int, ws: seq<word>)
    requires 0 <= w <= WORDS - 16 && |ws| == 16 && forall i :: 0 <= i < 16 ==> Word(c, w + i) == ws[i]
    ensures WordsAt(c, w) == ws
  {
  }

  lemma WordsAtBack(b: Block, w: int, ws: seq<word>, v: int)
    requires 0 <= w <= WORDS - 16 && |ws| == 16 && 0 <= v <= WORDS - 16 && (v == w || v + 16 <= w || w + 16 <= v)
    ensures v == w ==> WordsAt(WithWords(b, w, ws), v) == ws
    ensures v != w ==> WordsAt(WithWords(b, w, ws), v) == WordsAt(b, v)
  {
    var c, want := WithWords(b, w, ws), if v == w then ws else WordsAt(b, v);
    forall i | 0 <= i < 16 ensures Word(c, v + i) == want[i] {
      WordsBack(b, w, ws, v + i);
    }
    SameWords(c, v, want);
  }

  lemma InodeWordsBack(n: Inode)
    ensures InodeOf(InodeWords(n)) == n
  {
    assert InodeWords(n)[3..] == n.addrs;
  }

  /** iupdate and ilock are inverse, and no other inode of the block changes. */
  lemma InodeBack(b: Block, slot: int, n: Inode, s: int)
    requires 0 <= slot < IPB && 0 <= s < IPB
    ensures WordsInode(WithInode(b, slot, n), s) == if s == slot then n else WordsInode(b, s)
  {
    WordsAtBack(b, 16 * slot, InodeWords(n), 16 * s);
    InodeWordsBack(n);
  }

  // ------------------------------------------------------------------
  // The file system
  // ------------------------------------------------------------------

  /** `cur` is the inode that the caller has locked and `ip` its copy in memory;
      `held` are the copies of inodes that others have locked.  `owner` says which
      reference holds each data block in use; `loose` are blocks marked in use that no
      reference holds, for the moment. */
  datatype Volume = Volume(sb: Super, blocks: seq<Block>, cur: int, ip: Inode, held: map<int, Inode>,
                   owner: map<int, (int, int)>, loose: set<int>)

  ghost predicate Shape(f: Volume) { f.sb.Ok() && |f.blocks| == f.sb.size && 0 <= f.cur < f.sb.ninodes }

  ghost function DiskInode(f: Volume, i: int): Inode
    requires Shape(f) && 0 <= i < f.sb.ninodes
  {
    WordsInode(f.blocks[f.sb.IBlock(i)], i % IPB)
  }

  /** The inode that counts: a locked one as it is in memory. */
  ghost function Ino(f: Volume, i: int): Inode
    requires Shape(f) && 0 <= i < f.sb.ninodes
  {
    if i == f.cur then f.ip else if i in f.held then f.held[i] else DiskInode(f, i)
  }

  function Entry(blocks: seq<Block>, a: int, j: int): word
    requires 0 <= j < WORDS
  {
    if 0 <= a < |blocks| then Word(blocks[a], j) else 0
  }

  /** Reference k of an inode: 0 when there is none. */
  function RefOf(blocks: seq<Block>, n: Inode, k: int): word
    requires 0 <= k < SLOTS
  {
    if k <= NDIRECT then n.addrs[k]
    else if n.addrs[NDIRECT] == 0 then 0
    else Entry(blocks, n.addrs[NDIRECT], k - NDIRECT - 1)
  }

  ghost predicate IsSlot(f: Volume, i: int, k: int) { 0 <= i < f.sb.ninodes && 0 <= k < SLOTS }

  ghost function Ref(f: Volume, i: int, k: int): word
    requires Shape(f) && IsSlot(f, i, k)
  {
    RefOf(f.blocks, Ino(f, i), k)
  }

  ghost predicate Marked(f: Volume, b: int)
    requires Shape(f) && 0 <= b < f.sb.size
  {
    Bit(f.blocks[f.sb.BBlock(b)], b % BPB)
  }

  /** The set bits of the free map are the metadata and the blocks in use. */
  ghost predicate BitsOk(f: Volume)
    requires Shape(f)
  {
    forall b :: 0 <= b < f.sb.size ==> (Marked(f, b) <==> b < f.sb.datastart || b in f.owner || b in f.loose)
  }

  ghost predicate LooseOk(f: Volume)
  {
    forall b :: b in f.loose ==> f.sb.datastart <= b < f.sb.size && b !in f.owner
  }

  /** Every block in use is held by the reference that owns it, ... */
  ghost predicate OwnersOk(f: Volume)
    requires Shape(f)
  {
    forall b :: b in f.owner ==>
      && f.sb.datastart <= b < f.sb.size && IsSlot(f, f.owner[b].0, f.owner[b].1)
      && Ref(f, f.owner[b].0, f.owner[b].1) == b
  }

  /** ... and every reference owns its block: no block is referenced twice. */
  ghost predicate RefsOk(f: Volume)
    requires Shape(f)
  {
    forall i, k {:trigger Ref(f, i, k)} :: IsSlot(f, i, k) && Ref(f, i, k) != 0 ==>
      Ref(f, i, k) in f.owner && f.owner[Ref(f, i, k)] == (i, k)
  }

  // ------------------------------------------------------------------
  // File contents
  // ------------------------------------------------------------------

  /** The reference of file block n. */
  function SlotOf(n: int): int { if n < NDIRECT then n else n + 1 }

  function ByteOf(blocks: seq<Block>, n: Inode, o: int): byte
    requires 0 <= o < MAXFILE * BSIZE
  {
    var a := RefOf(blocks, n, SlotOf(o / BSIZE));
    if 0 < a < |blocks| then blocks[a][o % BSIZE] else 0
  }

  /** The bytes of a file. */
  ghost function File(f: Volume, i: int): seq<byte>
    requires Shape(f) && 0 <= i < f.sb.ninodes && Ino(f, i).size <= MAXFILE * BSIZE
  {
    seq(Ino(f, i).size, o requires 0 <= o < Ino(f, i).size => ByteOf(f.blocks, Ino(f, i), o))
  }

  /** No holes: every block below the size is allocated. */
  ghost predicate NoHoles(blocks: seq<Block>, n: Inode)
  {
    n.size <= MAXFILE * BSIZE && forall k :: 0 <= k < MAXFILE && k * BSIZE < n.size ==> RefOf(blocks, n, SlotOf(k)) != 0
  }

  // ------------------------------------------------------------------
  // Changes
  // ------------------------------------------------------------------

  /** The free map with the bit of b set or cleared. */
  function Mark(sb: Super, blocks: seq<Block>, b: int, on: bool): seq<Block>
    requires 0 <= b && 0 <= sb.BBlock(b) < |blocks|
  {
    blocks[sb.BBlock(b) := WithBit(blocks[sb.BBlock(b)], b % BPB, on)]
  }

  function PutInode(sb: Super, blocks: seq<Block>, i: int, n: Inode): seq<Block>
    requires 0 <= i && 0 <= sb.IBlock(i) < |blocks|
  {
    blocks[sb.IBlock(i) := WithInode(blocks[sb.IBlock(i)], i % IPB, n)]
  }

  function WithAddr(n: Inode, k: int, b: word): Inode
    requires 0 <= k <= NDIRECT
  {
    Inode(n.typ, n.major, n.minor, n.nlink, n.size, n.addrs[k := b])
  }

  function WithSize(n: Inode, size: word): Inode { Inode(n.typ, n.major, n.minor, n.nlink, size, n.addrs) }

  /** The first half of balloc: mark b. */
  ghost function Reserve(f: Volume, b: int): Volume
    requires Shape(f) && 0 <= b < f.sb.size
  {
    Volume(f.sb, Mark(f.sb, f.blocks, b, true), f.cur, f.ip, f.held, f.owner, f.loose + {b})
  }

  /** bzero. */
  ghost function Wipe(f: Volume, b: int): Volume
    requires 0 <= b < |f.blocks|
  {
    Volume(f.sb, f.blocks[b := Zero()], f.cur, f.ip, f.held, f.owner, f.loose)
  }

  /** balloc: mark b and zero it. */
  ghost function Alloc(f: Volume, b: int): Volume
    requires Shape(f) && 0 <= b < f.sb.size
  {
    Wipe(Reserve(f, b), b)
  }

  /** bfree: clear the mark. */
  ghost function Free(f: Volume, b: int): Volume
    requires Shape(f) && 0 <= b < f.sb.size
  {
    Volume(f.sb, Mark(f.sb, f.blocks, b, false), f.cur, f.ip, f.held, f.owner, f.loose - {b})
  }

  /** A reference of the inode itself is set. */
  ghost function Attach(f: Volume, k: int, b: word): Volume
    requires 0 <= k <= NDIRECT
  {
    Volume(f.sb, f.blocks, f.cur, WithAddr(f.ip, k, b), f.held, f.owner[b := (f.cur, k)], f.loose - {b})
  }

  /** An entry of the indirect block is set. */
  ghost function AttachEntry(f: Volume, j: int, b: word): Volume
    requires 0 <= j < NINDIRECT && 0 <= f.ip.addrs[NDIRECT] < |f.blocks|
  {
    Volume(f.sb, f.blocks[f.ip.addrs[NDIRECT] := WithWord(f.blocks[f.ip.addrs[NDIRECT]], j, b)], f.cur, f.ip, f.held,
       f.owner[b := (f.cur, NDIRECT + 1 + j)], f.loose - {b})
  }

  /** A reference of the inode is cleared; its block is loose. */
  ghost function Detach(f: Volume, k: int): Volume
    requires 0 <= k <= NDIRECT
  {
    Volume(f.sb, f.blocks, f.cur, WithAddr(f.ip, k, 0), f.held, f.owner - {f.ip.addrs[k]}, f.loose + {f.ip.addrs[k]})
  }

  ghost predicate InTree(f: Volume, b: int) { b in f.owner && f.owner[b].0 == f.cur && f.owner[b].1 >= NDIRECT }

  /** The indirect block and all it lists are given up. */
  ghost function DetachTree(f: Volume): Volume
  {
    Volume(f.sb, f.blocks, f.cur, WithAddr(f.ip, NDIRECT, 0), f.held,
           map b | b in f.owner && !InTree(f, b) :: f.owner[b], f.loose + set b | b in f.owner && InTree(f, b))
  }

  /** Bytes of one block change. */
  ghost function Poke(f: Volume, b: int, o: int, d: seq<byte>): Volume
    requires 0 <= b < |f.blocks| && 0 <= o && o + |d| <= BSIZE
  {
    Volume(f.sb, f.blocks[b := WithBytes(f.blocks[b], o, d)], f.cur, f.ip, f.held, f.owner, f.loose)
  }

  /** iupdate. */
  ghost function Sync(f: Volume): Volume
    requires Shape(f)
  {
    Volume(f.sb, PutInode(f.sb, f.blocks, f.cur, f.ip), f.cur, f.ip, f.held, f.owner, f.loose)
  }

  ghost function Resize(f: Volume, n: word): Volume { Volume(f.sb, f.blocks, f.cur, WithSize(f.ip, n), f.held, f.owner, f.loose) }
}

/** The disk while lab2/mkfs.c builds it.  The free map is written last, so until then
    a block is taken when it is below `freeblock`; Taken is the disk as the free map
    will describe it. */
module MkfsModel {
  import opened FsBytes
  import opened FsModel
  import opened FsProofs
  import opened FsWrite
  import opened FsLocked

  ghost predicate Sized(sb: Super, blocks: seq<Block>) { sb.Ok() && |blocks| == sb.size }

  /** The loop of balloc over a bitmap: bits below n are set. */
  ghost function Taken(sb: Super, blocks: seq<Block>, n: int): (r: seq<Block>)
    requires Sized(sb, blocks) && 0 <= n <= sb.size
    ensures |r| == sb.size
  {
    if n == 0 then blocks else Mark(sb, Taken(sb, blocks, n - 1), n - 1, true)
  }

  predicate InMap(sb: Super, m: int) { sb.bmapstart <= m < sb.datastart }

  lemma BitPlace(sb: Super, b: int)
    requires sb.Ok() && 0 <= b < sb.size
    ensures InMap(sb, sb.BBlock(b)) && sb.BBlock(b) < sb.size
  {
    assert sb.BBlock(b) <= sb.BBlock(sb.size - 1);
  }

  lemma MarkPut(sb: Super, blocks: seq<Block>, b: int, a: int, v: Block)
    requires Sized(sb, blocks) && 0 <= b < sb.size && 0 <= a < sb.size && !InMap(sb, a)
    ensures 0 <= sb.BBlock(b) < sb.size && Mark(sb, blocks, b, true)[a] == blocks[a]
    ensures Mark(sb, blocks[a := v], b, true) == Mark(sb, blocks, b, true)[a := v]
  {
    BitPlace(sb, b);
  }

  /** Nothing outside the free map depends on it. */
  lemma {:induction false} TakenPut(sb: Super, blocks: seq<Block>, n: int, a: int, v: Block)
    requires Sized(sb, blocks) && 0 <= n <= sb.size && 0 <= a < sb.size && !InMap(sb, a)
    ensures Taken(sb, blocks, n)[a] == blocks[a]
    ensures Taken(sb, blocks[a := v], n) == Taken(sb, blocks, n)[a := v]
  {
    if n > 0 {
      TakenPut(sb, blocks, n - 1, a, v);
      MarkPut(sb, Taken(sb, blocks, n - 1), n - 1, a, v);
    }
  }

  lemma MarkBit(sb: Super, blocks: seq<Block>, b: int, c: int)
    requires Sized(sb, blocks) && 0 <= b < sb.size && 0 <= c < sb.size
    ensures 0 <= sb.BBlock(b) < sb.size && 0 <= sb.BBlock(c) < sb.size
    ensures Bit(Mark(sb, blocks, b, true)[sb.BBlock(c)], c % BPB) == (c == b || Bit(blocks[sb.BBlock(c)], c % BPB))
  {
    BitPlace(sb, b);
    BitPlace(sb, c);
    BitBack(blocks[sb.BBlock(b)], b % BPB, true);
  }

  lemma TakenBit(sb: Super, blocks: seq<Block>, n: int, c: int)
    requires Sized(sb, blocks) && 0 <= n <= sb.size && 0 <= c < sb.size
    ensures 0 <= sb.BBlock(c) < sb.size
    ensures Bit(Taken(sb, blocks, n)[sb.BBlock(c)], c % BPB) == (c < n || Bit(blocks[sb.BBlock(c)], c % BPB))
  {
    BitPlace(sb, c);
    TakenBitAt(sb, blocks, n, c, sb.BBlock(c), c % BPB);
  }

  lemma {:induction false} TakenBitAt(sb: Super, blocks: seq<Block>, n: int, c: int, q: int, r: int)
    requires Sized(sb, blocks) && 0 <= n <= sb.size && 0 <= c < sb.size && q == sb.BBlock(c) && r == c % BPB && 0 <= q < sb.size
    ensures Bit(Taken(sb, blocks, n)[q], r) == (c < n || Bit(blocks[q], r))
  {
    if n > 0 {
      TakenBitAt(sb, blocks, n - 1, c, q, r);
      TakenBitStep(sb, blocks, n, c, q, r);
    }
  }

  lemma TakenBitStep(sb: Super, blocks: seq<Block>, n: int, c: int, q: int, r: int)
    requires Sized(sb, blocks) && 0 < n <= sb.size && 0 <= c < sb.size && q == sb.BBlock(c) && r == c % BPB && 0 <= q < sb.size
    ensures Bit(Taken(sb, blocks, n)[q], r) == (c == n - 1 || Bit(Taken(sb, blocks, n - 1)[q], r))
  {
    MarkBit(sb, Taken(sb, blocks, n - 1), n - 1, c);
  }

  /** Before balloc: an empty free map, and zeroes from the first free block on. */
  ghost predicate Laid(sb: Super, blocks: seq<Block>, n: int)
  {
    && Sized(sb, blocks) && sb.datastart <= n <= sb.size
    && (forall m :: InMap(sb, m) ==> blocks[m] == Zero())
    && (forall b :: n <= b < sb.size ==> blocks[b] == Zero())
  }

  lemma ZeroBits()
    ensures forall k :: 0 <= k < BPB ==> !Bit(Zero(), k)
  {
    forall k | 0 <= k < BPB ensures !Bit(Zero(), k) {
      assert Zero()[k / 8] == 0;
    }
  }

  ghost function Seen(sb: Super, blocks: seq<Block>, n: int, inum: int, din: Inode, owner: map<int, (int, int)>): Volume
    requires Sized(sb, blocks) && 0 <= n <= sb.size
  {
    Volume(sb, Taken(sb, blocks, n), inum, din, map[], owner, {})
  }

  lemma SeenMarks(sb: Super, blocks: seq<Block>, n: int, inum: int, din: Inode, owner: map<int, (int, int)>, c: int)
    requires Laid(sb, blocks, n) && 0 <= inum < sb.ninodes && 0 <= c < sb.size
    ensures Shape(Seen(sb, blocks, n, inum, din, owner)) && (Marked(Seen(sb, blocks, n, inum, din, owner), c) <==> c < n)
  {
    TakenBit(sb, blocks, n, c);
    BitPlace(sb, c);
    ZeroBits();
  }

  lemma TakenNext(sb: Super, blocks: seq<Block>, n: int)
    requires Laid(sb, blocks, n) && n < sb.size
    ensures 0 <= sb.BBlock(n) < sb.size && Mark(sb, Taken(sb, blocks, n), n, true)[n := Zero()] == Taken(sb, blocks, n + 1)
  {
    BitPlace(sb, n);
    var t := Taken(sb, blocks, n + 1);
    assert t[n] == Zero() by { TakenPut(sb, blocks, n + 1, n, Zero()); }
    assert t == Mark(sb, Taken(sb, blocks, n), n, true);
    assert t[n := Zero()] == t;
  }

  /** freeblock++ is an allocation. */
  lemma SeenAlloc(sb: Super, blocks: seq<Block>, n: int, inum: int, din: Inode, owner: map<int, (int, int)>)
    requires Laid(sb, blocks, n) && n < sb.size && 0 <= inum < sb.ninodes
    ensures var f := Seen(sb, blocks, n, inum, din, owner);
            && Shape(f) && !Marked(f, n)
            && Alloc(f, n) == Volume(sb, Taken(sb, blocks, n + 1), inum, din, map[], owner, {n})
  {
    var f := Seen(sb, blocks, n, inum, din, owner);
    SeenMarks(sb, blocks, n, inum, din, owner, n);
    TakenNext(sb, blocks, n);
    assert f.loose + {n} == {n};
  }

  /** din.addrs[k] = freeblock++. */
  lemma SeenRef(sb: Super, blocks: seq<Block>, n: int, inum: int, din: Inode, owner: map<int, (int, int)>, k: int)
    requires Laid(sb, blocks, n) && n < sb.size && 0 <= inum < sb.ninodes && 0 <= k <= NDIRECT
    ensures var f := Seen(sb, blocks, n, inum, din, owner);
            && Shape(f) && !Marked(f, n) && Laid(sb, blocks, n + 1)
            && Attach(Alloc(f, n), k, n) == Seen(sb, blocks, n + 1, inum, WithAddr(din, k, n), owner[n := (inum, k)])
  {
    SeenAlloc(sb, blocks, n, inum, din, owner);
    assert {n} - {n} == {};
  }

  /** indirect[j] = freeblock++. */
  lemma SeenEntry(sb: Super, blocks: seq<Block>, n: int, inum: int, din: Inode, owner: map<int, (int, int)>, j: int)
    requires Laid(sb, blocks, n) && n < sb.size && 0 <= inum < sb.ninodes && 0 <= j < NINDIRECT
    requires sb.datastart <= din.addrs[NDIRECT] < n
    ensures var f, a := Seen(sb, blocks, n, inum, din, owner), din.addrs[NDIRECT];
            var more := blocks[a := WithWord(blocks[a], j, n)];
            && Shape(f) && !Marked(f, n) && Laid(sb, more, n + 1)
            && AttachEntry(Alloc(f, n), j, n) == Seen(sb, more, n + 1, inum, din, owner[n := (inum, NDIRECT + 1 + j)])
  {
    var a := din.addrs[NDIRECT];
    SeenAlloc(sb, blocks, n, inum, din, owner);
    EntryPut(sb, blocks, n + 1, inum, din, owner, n, j);
    assert Laid(sb, blocks[a := WithWord(blocks[a], j, n)], n + 1);
  }

  lemma EntryPut(sb: Super, blocks: seq<Block>, n: int, inum: int, din: Inode, owner: map<int, (int, int)>, b: word, j: int)
    requires Sized(sb, blocks) && 0 <= n <= sb.size && 0 <= j < NINDIRECT && sb.datastart <= din.addrs[NDIRECT] < sb.size
    ensures var a, h := din.addrs[NDIRECT], Volume(sb, Taken(sb, blocks, n), inum, din, map[], owner, {b as int});
            AttachEntry(h, j, b) == Seen(sb, blocks[a := WithWord(blocks[a], j, b)], n, inum, din, owner[b := (inum, NDIRECT + 1 + j)])
  {
    var a := din.addrs[NDIRECT];
    TakenPut(sb, blocks, n, a, WithWord(blocks[a], j, b));
    assert {b as int} - {b as int} == {};
  }

  /** Writing a block that is taken. */
  lemma SeenPut(sb: Super, blocks: seq<Block>, n: int, inum: int, din: Inode, owner: map<int, (int, int)>, a: int, v: Block)
    requires Laid(sb, blocks, n) && 0 <= a < n && !InMap(sb, a)
    ensures var f := Seen(sb, blocks, n, inum, din, owner);
            && f.blocks[a] == blocks[a] && Laid(sb, blocks[a := v], n)
            && Seen(sb, blocks[a := v], n, inum, din, owner)
               == Volume(sb, f.blocks[a := v], inum, din, map[], owner, {})
  {
    TakenPut(sb, blocks, n, a, v);
  }

  // ------------------------------------------------------------------
  // The empty disk
  // ------------------------------------------------------------------

  function Empty(): Inode { Inode(0, 0, 0, 0, 0, seq<word>(13, _ => 0)) }

  lemma ZeroSlot(slot: int, ws: seq<word>)
    requires 0 <= slot < IPB && |ws| == 16 && forall i :: 0 <= i < 16 ==> ws[i] == 0
    ensures WordsAt(Zero(), 16 * slot) == ws
  {
    forall i | 0 <= i < 16 ensures Word(Zero(), 16 * slot + i) == ws[i] { ZeroWords(); }
    SameWords(Zero(), 16 * slot, ws);
  }

  lemma ZeroIsEmpty(ws: seq<word>)
    requires |ws| == 16 && forall i :: 0 <= i < 16 ==> ws[i] == 0
    ensures InodeOf(ws) == Empty()
  {
    assert ws[3..] == Empty().addrs;
  }

  lemma ZeroInode(slot: int)
    requires 0 <= slot < IPB
    ensures WordsInode(Zero(), slot) == Empty()
  {
    var ws := seq<word>(16, _ => 0);
    assert WordsAt(Zero(), 16 * slot) == ws by { ZeroSlot(slot, ws); }
    ZeroIsEmpty(ws);
  }

  /** All inode blocks are zero. */
  ghost predicate NoFiles(sb: Super, blocks: seq<Block>)
  {
    Sized(sb, blocks) && forall m :: sb.inodestart <= m < sb.bmapstart ==> blocks[m] == Zero()
  }

  lemma NoFileInode(sb: Super, blocks: seq<Block>, n: int, inum: int, i: int)
    requires Laid(sb, blocks, n) && NoFiles(sb, blocks) && 0 <= inum < sb.ninodes && 0 <= i < sb.ninodes
    ensures Ino(Seen(sb, blocks, n, inum, Empty(), map[]), i) == Empty()
  {
    var m := sb.IBlock(i);
    assert m <= sb.IBlock(sb.ninodes - 1);
    assert Taken(sb, blocks, n)[m] == Zero() by { TakenPut(sb, blocks, n, m, Zero()); }
    assert WordsInode(Zero(), i % IPB) == Empty() by { ZeroInode(i % IPB); }
  }

  lemma NoFileRefs(sb: Super, blocks: seq<Block>, n: int, inum: int, i: int, k: int)
    requires Laid(sb, blocks, n) && NoFiles(sb, blocks) && 0 <= inum < sb.ninodes && 0 <= i < sb.ninodes && 0 <= k < SLOTS
    ensures Ref(Seen(sb, blocks, n, inum, Empty(), map[]), i, k) == 0
  {
    NoFileInode(sb, blocks, n, inum, i);
  }

  /** The disk with which mkfs begins is in order: no file, and only metadata taken. */
  lemma BlankOk(sb: Super, blocks: seq<Block>, inum: int)
    requires Laid(sb, blocks, sb.datastart) && NoFiles(sb, blocks) && 0 <= inum < sb.ninodes
    ensures FsOk(Seen(sb, blocks, sb.datastart, inum, Empty(), map[]))
  {
    var f := Seen(sb, blocks, sb.datastart, inum, Empty(), map[]);
    forall c | 0 <= c < sb.size ensures Marked(f, c) <==> c < sb.datastart {
      SeenMarks(sb, blocks, sb.datastart, inum, Empty(), map[], c);
    }
    forall i, k | IsSlot(f, i, k) ensures Ref(f, i, k) == 0 {
      NoFileRefs(sb, blocks, sb.datastart, inum, i, k);
    }
  }

  lemma BlankSynced(sb: Super, blocks: seq<Block>)
    requires Laid(sb, blocks, sb.datastart) && NoFiles(sb, blocks)
    ensures Shape(Seen(sb, blocks, sb.datastart, 0, Empty(), map[])) && Synced(Seen(sb, blocks, sb.datastart, 0, Empty(), map[]))
  {
    var m := sb.IBlock(0);
    assert m <= sb.IBlock(sb.ninodes - 1);
    TakenPut(sb, blocks, sb.datastart, m, Zero());
    ZeroInode(0 % IPB);
  }
}

/** A volume whose only free blocks, up to a point, lie in different blocks of the free
    map.  It is built from the disk that mkfs begins with, by allocations alone. */
module FsFill {
  import opened FsBytes
  import opened FsModel
  import opened FsProofs
  import opened MkfsModel

  /** 2048 inodes, and room for five blocks of free map. */
  function Wide(): Super { Super(20480, 2048, 2, 258, 263) }

  const DATA: int := 263
  const TOP: int := 16385

  /** The blocks left free: one in each of four blocks of the free map, and block 11 of
      the first file when it is to be a hole. */
  predicate Spare(c: int, hole: bool)
  {
    c == 4097 || c == 8193 || c == 12289 || c >= TOP || (hole && c == DATA + 11)
  }

  /** Block c goes to the direct references of the inodes in turn. */
  function At(i: int, k: int): int { DATA + 12 * i + k }

  predicate Used(c: int, b: int, hole: bool) { DATA <= c < b && !Spare(c, hole) }

  /** Inode i when the blocks below b have been given out. */
  function Stage(i: int, b: int, hole: bool): (n: Inode)
    requires 0 <= i < 2048 && b <= TOP
    ensures |n.addrs| == 13
    ensures forall k :: 0 <= k < 13 ==> n.addrs[k] == if k < 12 && Used(At(i, k), b, hole) then At(i, k) else 0
  {
    Inode(0, 0, 0, 0, 0, seq<word>(13, k requires 0 <= k < 13 => if k < 12 && Used(At(i, k), b, hole) then At(i, k) else 0))
  }

  ghost predicate MarksAre(f: Volume, b: int, hole: bool)
    requires Shape(f)
  {
    forall c :: 0 <= c < f.sb.size ==> (Marked(f, c) <==> c < DATA || Used(c, b, hole))
  }

  ghost predicate InosAre(f: Volume, b: int, hole: bool)
    requires Shape(f) && f.sb == Wide() && b <= TOP
  {
    forall i :: 0 <= i < f.sb.ninodes ==> Ino(f, i) == Stage(i, b, hole)
  }

  ghost predicate Stocked(f: Volume, b: int, hole: bool)
  {
    && FsOk(f) && f.sb == Wide() && Synced(f) && f.held == map[] && f.loose == {}
    && DATA <= b <= TOP && MarksAre(f, b, hole) && InosAre(f, b, hole)
  }

  lemma BlankStage(sb: Super, blocks: seq<Block>, hole: bool, f: Volume)
    requires sb == Wide() && Laid(sb, blocks, sb.datastart) && NoFiles(sb, blocks)
    requires f == Seen(sb, blocks, sb.datastart, 0, Empty(), map[])
    ensures Shape(f) && InosAre(f, DATA, hole) && MarksAre(f, DATA, hole)
  {
    forall i | 0 <= i < sb.ninodes ensures Ino(f, i) == Stage(i, DATA, hole) {
      NoFileInode(sb, blocks, sb.datastart, 0, i);
      assert Empty().addrs == Stage(i, DATA, hole).addrs;
    }
    forall c | 0 <= c < sb.size ensures Marked(f, c) <==> c < DATA {
      SeenMarks(sb, blocks, sb.datastart, 0, Empty(), map[], c);
    }
  }

  lemma FilledStart(sb: Super, blocks: seq<Block>, hole: bool) returns (f: Volume)
    requires sb == Wide() && Laid(sb, blocks, sb.datastart) && NoFiles(sb, blocks)
    ensures Stocked(f, DATA, hole)
  {
    f := Seen(sb, blocks, sb.datastart, 0, Empty(), map[]);
    BlankOk(sb, blocks, 0);
    BlankStage(sb, blocks, hole, f);
    BlankSynced(sb, blocks);
  }

  lemma ZeroDisk() returns (blocks: seq<Block>)
    ensures Laid(Wide(), blocks, Wide().datastart) && NoFiles(Wide(), blocks)
  {
    blocks := seq<Block>(20480, _ => Zero());
  }

  /** A spare block is passed over. */
  lemma FilledSkip(f: Volume, b: int, hole: bool)
    requires Stocked(f, b, hole) && b < TOP && Spare(b, hole)
    ensures Stocked(f, b + 1, hole)
  {
    forall i | 0 <= i < f.sb.ninodes ensures Ino(f, i) == Stage(i, b + 1, hole) {
      assert Stage(i, b + 1, hole).addrs == Stage(i, b, hole).addrs;
    }
  }

  lemma StageNext(i: int, b: int, hole: bool)
    requires 0 <= i < 2048 && DATA <= b < TOP && !Spare(b, hole)
    ensures i == (b - DATA) / 12 ==> WithAddr(Stage(i, b, hole), (b - DATA) % 12, b) == Stage(i, b + 1, hole)
    ensures i != (b - DATA) / 12 ==> Stage(i, b, hole) == Stage(i, b + 1, hole)
  {
    if i == (b - DATA) / 12 {
      assert WithAddr(Stage(i, b, hole), (b - DATA) % 12, b).addrs == Stage(i, b + 1, hole).addrs;
    } else {
      assert Stage(i, b, hole).addrs == Stage(i, b + 1, hole).addrs;
    }
  }

  /** The holder's inode, one more reference, on disk. */
  ghost function Given1(h: Volume, k: int, b: word): Volume
    requires Shape(h) && 0 <= k <= NDIRECT && b < h.sb.size
  {
    Sync(Attach(Alloc(h, b), k, b))
  }

  lemma Given1Ok(h: Volume, k: int, b: word)
    requires FsOk(h) && h.loose == {} && 0 <= k < NDIRECT && b < h.sb.size && !Marked(h, b) && h.ip.addrs[k] == 0
    ensures var g := Given1(h, k, b);
            && FsOk(g) && OthersKept(h, g) && Synced(g) && g.loose == {} && g.ip == WithAddr(h.ip, k, b)
            && g.owner == h.owner[b := (h.cur, k)]
  {
    AllocOk(h, b);
    var h1 := Alloc(h, b);
    AttachOk(h1, k, b);
    var h2 := Attach(h1, k, b);
    SyncOk(h2);
    OthersKeptTwice(h, h1, h2);
    OthersKeptTwice(h, h2, Sync(h2));
    assert h1.loose - {b as int} == {};
  }

  /** One more owned block is one more mark. */
  lemma OneMoreMark(f: Volume, g: Volume, b: int, c: int)
    requires FsOk(f) && FsOk(g) && g.sb == f.sb && f.loose == g.loose && 0 <= c < f.sb.size
    requires forall x :: x in g.owner <==> x in f.owner || x == b
    ensures Marked(g, c) <==> Marked(f, c) || c == b
  {
  }

  lemma FilledNext(f: Volume, b: int, hole: bool) returns (g: Volume)
    requires Stocked(f, b, hole) && b < TOP && !Spare(b, hole)
    ensures Stocked(g, b + 1, hole)
  {
    var i, k := (b - DATA) / 12, (b - DATA) % 12;
    RelockOk(f, i);
    var h := Relock(f, i);
    assert h.ip == Stage(i, b, hole) && At(i, k) == b;
    g := FilledGive(h, f, b, hole, i, k);
  }

  lemma FilledGive(h: Volume, f: Volume, b: int, hole: bool, i: int, k: int) returns (g: Volume)
    requires Stocked(f, b, hole) && b < TOP && !Spare(b, hole) && i == (b - DATA) / 12 && k == (b - DATA) % 12
    requires FsOk(h) && h == Relock(f, i) && InosAre(h, b, hole) && h.ip == Stage(i, b, hole) && At(i, k) == b
    ensures Stocked(g, b + 1, hole)
  {
    g := Given1(h, k, b);
    assert Marked(h, b) == Marked(f, b);
    assert f.held - {i} == map[];
    Given1Ok(h, k, b);
    GivenMarks(f, h, g, b, hole);
    GivenInos(h, g, b, hole, i, k);
  }

  lemma GivenMarks(f: Volume, h: Volume, g: Volume, b: int, hole: bool)
    requires FsOk(h) && FsOk(g) && Shape(f) && f.sb == h.sb == g.sb && h.blocks == f.blocks && h.loose == g.loose
    requires MarksAre(f, b, hole) && DATA <= b < TOP && !Spare(b, hole) && forall x :: x in g.owner <==> x in h.owner || x == b
    ensures MarksAre(g, b + 1, hole)
  {
    forall c | 0 <= c < f.sb.size ensures Marked(g, c) <==> c < DATA || Used(c, b + 1, hole) {
      OneMoreMark(h, g, b, c);
      assert Marked(h, c) == Marked(f, c);
    }
  }

  lemma GivenInos(h: Volume, g: Volume, b: int, hole: bool, i: int, k: int)
    requires Shape(h) && h.sb == Wide() && DATA <= b < TOP && !Spare(b, hole) && i == (b - DATA) / 12 && k == (b - DATA) % 12
    requires InosAre(h, b, hole) && OthersKept(h, g) && h.cur == i && g.ip == WithAddr(h.ip, k, b) && h.ip == Stage(i, b, hole)
    ensures InosAre(g, b + 1, hole)
  {
    forall x | 0 <= x < g.sb.ninodes ensures Ino(g, x) == Stage(x, b + 1, hole) {
      StageNext(x, b, hole);
      assert x != i ==> Ino(g, x) == Ino(h, x);
    }
  }

  /** Blocks up to b, all but the spare ones, are given to files. */
  lemma {:induction false} Fill(b: int, hole: bool) returns (f: Volume)
    requires DATA <= b <= TOP
    ensures Stocked(f, b, hole)
    decreases b
  {
    if b == DATA {
      var blocks := ZeroDisk();
      f := FilledStart(Wide(), blocks, hole);
    } else {
      f := Fill(b - 1, hole);
      if Spare(b - 1, hole) { FilledSkip(f, b - 1, hole); } else { f := FilledNext(f, b - 1, hole); }
    }
  }
}

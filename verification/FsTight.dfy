/** The size of a transaction, MAXOPBLOCKS, is what a chunk of filewrite can need: a
    write that logs that many blocks, and one over a hole that logs one more. */
module FsTight {
  import opened Sealing
  import opened FsBytes
  import opened FsModel
  import opened FsProofs
  import opened FsCost
  import opened FsWrite
  import opened FsLocked
  import opened FsFill

  // ------------------------------------------------------------------
  // Steps of writei, with the blocks that balloc finds
  // ------------------------------------------------------------------

  datatype Act =
    | NewRef(k: int, b: word)
    | NewListed(j: int, b: word)
    | Put(n: int, p: int, e: seq<byte>)
    | Close(size: word)

  /** balloc takes the first block that is not marked. */
  ghost predicate FirstFree(f: Volume, b: int)
    requires Shape(f)
  {
    0 <= b < f.sb.size && !Marked(f, b) && forall c :: 0 <= c < b ==> Marked(f, c)
  }

  /** h is the volume after one step of writei on g. */
  ghost predicate Does(g: Volume, a: Act, h: Volume)
  {
    InOrder(g) &&
    match a
    case NewRef(k, b) => 0 <= k <= NDIRECT && g.ip.addrs[k] == 0 && FirstFree(g, b) && h == NewBlock(g, k, b)
    case NewListed(j, b) =>
      0 <= j < NINDIRECT && HasIndirect(g) && Ref(g, g.cur, NDIRECT + 1 + j) == 0 && FirstFree(g, b) && h == NewEntry(g, j, b)
    case Put(n, p, e) => IsData(g, n) && 0 <= p && p + |e| <= BSIZE && h == PokeFile(g, n, p, e)
    case Close(size) => h == Sync(Resize(g, size))
  }

  ghost predicate IsPath(path: seq<Volume>, acts: seq<Act>)
  {
    |path| == |acts| + 1 && forall k :: 0 <= k < |acts| ==> Does(path[k], acts[k], path[k + 1])
  }

  /** Does, locked. */
  ghost predicate Did(g: Volume, a: Act, h: Volume) { forall x {:trigger Key(x)} :: Key(x) ==> Does(g, a, h) }

  ghost predicate PathTo(path: seq<Volume>, acts: seq<Act>, f: Volume, g: Volume)
  {
    forall x {:trigger Key(x)} :: Key(x) ==> IsPath(path, acts) && path[0] == f && path[|acts|] == g
  }

  lemma PathStart(f: Volume)
    ensures PathTo([f], [], f, f)
  {
  }

  lemma PathOn(path: seq<Volume>, acts: seq<Act>, a: Act, h: Volume)
    requires IsPath(path, acts) && Does(path[|acts|], a, h)
    ensures IsPath(path + [h], acts + [a])
  {
  }

  lemma PathToOn(path: seq<Volume>, acts: seq<Act>, f: Volume, g: Volume, a: Act, h: Volume)
    requires PathTo(path, acts, f, g) && Did(g, a, h)
    ensures PathTo(path + [h], acts + [a], f, h)
  {
    assert Key(0);
    PathOn(path, acts, a, h);
  }

  // ------------------------------------------------------------------
  // Marks along the way
  // ------------------------------------------------------------------

  /** All blocks below TOP are marked but the spare ones, of which those in S are. */
  ghost predicate MarksWith(f: Volume, hole: bool, S: set<int>)
    requires Shape(f)
  {
    f.sb == Wide() && forall c :: 0 <= c < f.sb.size ==> (Marked(f, c) <==> c < DATA || Used(c, TOP, hole) || c in S)
  }

  lemma GrewMarks(f: Volume, g: Volume, b: int, hole: bool, S: set<int>)
    requires InOrder(f) && InOrder(g) && g.sb == f.sb && g.loose == f.loose && MarksWith(f, hole, S)
    requires forall x :: x in g.owner <==> x in f.owner || x == b
    ensures MarksWith(g, hole, S + {b})
  {
    OrderIs(f);
    OrderIs(g);
    forall c | 0 <= c < f.sb.size ensures Marked(g, c) <==> Marked(f, c) || c == b {
      OneMoreMark(f, g, b, c);
    }
  }

  lemma SameMarks(f: Volume, g: Volume, hole: bool, S: set<int>)
    requires InOrder(f) && InOrder(g) && g.sb == f.sb && g.loose == f.loose && g.owner == f.owner && MarksWith(f, hole, S)
    ensures MarksWith(g, hole, S)
  {
    OrderIs(f);
    OrderIs(g);
    forall c | 0 <= c < f.sb.size ensures Marked(g, c) == Marked(f, c) {
    }
  }

  /** A volume on the way, with a given table of references. */
  ghost predicate OnWay(f: Volume, hole: bool, S: set<int>, r: seq<int>)
  {
    && Ok(f) && |r| == SLOTS && f.sb == Wide()
    && forall x {:trigger Key(x)} :: Key(x) ==> MarksWith(f, hole, S) && Refs(f) == r
  }

  /** The first free block on the way. */
  ghost predicate Next(hole: bool, S: set<int>, b: int)
  {
    Spare(b, hole) && b !in S && DATA <= b <= TOP && forall c :: DATA <= c < b && Spare(c, hole) ==> c in S
  }

  lemma NextFree(g: Volume, hole: bool, S: set<int>, b: int)
    requires Shape(g) && MarksWith(g, hole, S) && Next(hole, S, b)
    ensures FirstFree(g, b)
  {
  }

  lemma RefStep(g: Volume, k: int, b: word, hole: bool, S: set<int>, r: seq<int>) returns (h: Volume)
    requires OnWay(g, hole, S, r) && 0 <= k <= NDIRECT && r[k] == 0 && Next(hole, S, b)
    ensures Did(g, NewRef(k, b), h) && Gave(g, h, k, b) && OnWay(h, hole, S + {b as int}, r[k := b])
  {
    assert Key(0);
    assert g.ip.addrs[k] == Ref(g, g.cur, k) == Table(g)[k] == 0;
    NextFree(g, hole, S, b);
    NewBlockOk(g, k, b);
    h := NewBlock(g, k, b);
    assert h.owner == g.owner[b := (g.cur, k)];
    GrewMarks(g, h, b, hole, S);
  }

  lemma ListedStep(g: Volume, j: int, b: word, hole: bool, S: set<int>, r: seq<int>) returns (h: Volume)
    requires OnWay(g, hole, S, r) && 0 <= j < NINDIRECT && r[NDIRECT] != 0 && r[NDIRECT + 1 + j] == 0 && Next(hole, S, b)
    ensures Did(g, NewListed(j, b), h) && Gave(g, h, NDIRECT + 1 + j, b)
    ensures OnWay(h, hole, S + {b as int}, r[NDIRECT + 1 + j := b])
  {
    assert InOrder(g) && MarksWith(g, hole, S) && Table(g) == r by { assert Key(0); }
    h := NewEntryOn(g, j, b, hole, S, r);
  }

  lemma NewEntryOn(g: Volume, j: int, b: word, hole: bool, S: set<int>, r: seq<int>) returns (h: Volume)
    requires InOrder(g) && MarksWith(g, hole, S) && Table(g) == r && g.sb == Wide()
    requires 0 <= j < NINDIRECT && r[NDIRECT] != 0 && r[NDIRECT + 1 + j] == 0 && Next(hole, S, b)
    ensures Does(g, NewListed(j, b), h) && Grew(g, h, NDIRECT + 1 + j, b)
    ensures MarksWith(h, hole, S + {b as int}) && h.sb == Wide()
  {
    assert g.ip.addrs[NDIRECT] == Ref(g, g.cur, NDIRECT) == Table(g)[NDIRECT];
    assert HasIndirect(g) by {
      OrderIs(g);
      assert Ref(g, g.cur, NDIRECT) in g.owner;
    }
    assert Ref(g, g.cur, NDIRECT + 1 + j) == Table(g)[NDIRECT + 1 + j];
    NextFree(g, hole, S, b);
    NewEntryOk(g, j, b);
    h := NewEntry(g, j, b);
    assert h.owner == g.owner[b := (g.cur, NDIRECT + 1 + j)];
    GrewMarks(g, h, b, hole, S);
  }

  lemma WayRefs(g: Volume, hole: bool, S: set<int>, r: seq<int>)
    requires OnWay(g, hole, S, r)
    ensures Refs(g) == r
  {
    assert Key(0);
  }

  lemma PutMarks(h: Volume, n: int, p: int, e: seq<byte>, hole: bool, S: set<int>, r: seq<int>)
    requires OnWay(h, hole, S, r) && IsData(h, n) && 0 <= p && p + |e| <= BSIZE
    ensures Did(h, Put(n, p, e), PokeFile(h, n, p, e)) && OnWay(PokeFile(h, n, p, e), hole, S, r)
  {
    assert Key(0);
    PokeFacts(h, n, p, e);
    SameMarks(h, PokeFile(h, n, p, e), hole, S);
  }

  /** The bytes go in; the loop of writei has made one turn. */
  lemma PutStep(f: Volume, g: Volume, h: Volume, hi: int, lo: int, o: int, d: seq<byte>, p: int, e: seq<byte>, de: seq<byte>,
                L: set<int>, M: set<int>, hole: bool, S: set<int>, r: seq<int>) returns (k: Volume, L': set<int>)
    requires Ok(f) && Doing(f, g, lo, hi, o, d, L) && 0 <= hi < MAXFILE && DidMap(g, h, hi, M) && OnWay(h, hole, S, r)
    requires o + |d| == hi * BSIZE + p && 0 <= p && p + |e| <= BSIZE && de == d + e
    ensures Did(h, Put(hi, p, e), k) && Doing(f, k, lo, hi + 1, o, de, L') && OnWay(k, hole, S, r)
  {
    MappedIsData(g, h, hi, M);
    DoingStep(f, g, h, lo, hi, o, d, p, e, L, M);
    PutMarks(h, hi, p, e, hole, S, r);
    k := PokeFile(h, hi, p, e);
    L' := L + M + {Refs(h)[SlotOf(hi)]};
  }

  // ------------------------------------------------------------------
  // The volume to start from
  // ------------------------------------------------------------------

  /** The references of the first file: twelve blocks, or eleven and a hole. */
  function Before(hole: bool): (r: seq<int>)
    ensures |r| == SLOTS
  {
    seq(SLOTS, k => if 0 <= k < 11 || (k == 11 && !hole) then DATA + k else 0)
  }

  lemma FirstTable(g: Volume, hole: bool)
    requires Stocked(g, TOP, hole) && g.cur == 0
    ensures InOrder(g) && Table(g) == Before(hole)
  {
    assert g.ip == Ino(g, 0) == Stage(0, TOP, hole);
    forall k | 0 <= k < SLOTS ensures Table(g)[k] == Before(hole)[k] {
      assert k <= 11 ==> At(0, k) == DATA + k;
    }
  }

  lemma FirstLocked(f: Volume, hole: bool) returns (g: Volume)
    requires Stocked(f, TOP, hole)
    ensures Stocked(g, TOP, hole) && g.cur == 0
  {
    RelockOk(f, 0);
    g := Relock(f, 0);
    assert f.held - {0} == map[];
    assert DiskInode(g, 0) == DiskInode(f, 0) == Ino(f, 0);
    forall c | 0 <= c < f.sb.size ensures Marked(g, c) == Marked(f, c) {
    }
  }

  ghost predicate Ready0(f: Volume, hole: bool)
  {
    && OnWay(f, hole, {}, Before(hole)) && Synced(f) && f.held == map[] && f.loose == {} && f.cur == 0
    && f.ip.size == 12 * BSIZE && (!hole ==> Clean(f))
  }

  lemma StartReady(hole: bool) returns (f: Volume)
    ensures Ready0(f, hole)
  {
    var e := Fill(TOP, hole);
    var g := FirstLocked(e, hole);
    FirstTable(g, hole);
    f := FirstSized(g, hole);
    assert Ok(f);
  }

  /** The first file gets its size, twelve blocks. */
  lemma FirstSized(g: Volume, hole: bool) returns (f: Volume)
    requires Stocked(g, TOP, hole) && g.cur == 0 && InOrder(g) && Table(g) == Before(hole)
    ensures InOrder(f) && f.sb == Wide() && MarksWith(f, hole, {}) && Table(f) == Before(hole) && Synced(f)
    ensures f.held == map[] && f.loose == {} && f.cur == 0 && f.ip.size == 12 * BSIZE && (!hole ==> Settled(f))
  {
    FinishOk(g, 12 * BSIZE);
    f := Sync(Resize(g, 12 * BSIZE));
    assert MarksWith(g, hole, {});
    SameMarks(g, f, hole, {});
    FirstHoles(f, hole);
  }

  lemma FirstHoles(f: Volume, hole: bool)
    requires InOrder(f) && Table(f) == Before(hole) && f.ip.size == 12 * BSIZE
    ensures !hole ==> NoHoles(f.blocks, f.ip)
  {
    NoHolesAre(f);
    assert !hole ==> AllThere(Table(f), 0, 12);
  }

  // ------------------------------------------------------------------
  // The write
  // ------------------------------------------------------------------

  /** The table after the write. */
  function Later(): (r: seq<int>)
    ensures |r| == SLOTS
  {
    Before(false)[12 := 4097][13 := 8193][14 := 12289][15 := 16385]
  }

  function Hole(hole: bool): set<int> { if hole then {DATA + 11} else {} }

  /** Block 11, which is there or is made. */
  lemma Find11(f: Volume, hole: bool) returns (h: Volume, path: seq<Volume>, acts: seq<Act>, M: set<int>)
    requires Ready0(f, hole)
    ensures PathTo(path, acts, f, h) && DidMap(f, h, 11, M) && OnWay(h, hole, Hole(hole), Before(false))
  {
    path, acts, h, M := [f], [], f, {};
    PathStart(f);
    if hole {
      var b := DATA + 11;
      h := RefStep(f, 11, b, hole, {}, Before(hole));
      DirectMade(f, h, 11, b);
      M := {f.sb.BBlock(b), b};
      assert {} + {b} == Hole(hole) && Before(hole)[11 := b] == Before(false);
      PathToOn(path, acts, f, f, NewRef(11, b), h);
      path, acts := path + [h], acts + [NewRef(11, b)];
    } else {
      WayRefs(f, hole, {}, Before(hole));
      Found(f, 11);
    }
  }

  lemma Turn11(f: Volume, hole: bool, d: seq<byte>, o: int) returns (g: Volume, path: seq<Volume>, acts: seq<Act>, L: set<int>)
    requires Ready0(f, hole) && |d| == 511 && o == 11 * BSIZE + 1
    ensures OnWay(g, hole, Hole(hole), Before(false)) && PathTo(path, acts, f, g) && Doing(f, g, 11, 12, o, d, L)
  {
    var h, M;
    h, path, acts, M := Find11(f, hole);
    DoingStart(f, o, 11);
    g, L := PutStep(f, f, h, 11, 11, o, [], 1, d, [] + d, {}, M, hole, Hole(hole), Before(false));
    assert [] + d == d;
    PathToOn(path, acts, f, h, Put(11, 1, d), g);
    path, acts := path + [g], acts + [Put(11, 1, d)];
  }

  /** An indirect block and the first block it lists. */
  lemma FindBoth(f: Volume, g: Volume, hole: bool, a: word, b: word, path: seq<Volume>, acts: seq<Act>, S: set<int>, r: seq<int>)
    returns (i: Volume, path': seq<Volume>, acts': seq<Act>, M: set<int>)
    requires OnWay(g, hole, S, r) && PathTo(path, acts, f, g) && r[12] == 0 && r[13] == 0
    requires Next(hole, S, a) && Next(hole, S + {a as int}, b)
    ensures OnWay(i, hole, S + {a as int} + {b as int}, r[12 := a][13 := b]) && PathTo(path', acts', f, i) && DidMap(g, i, 12, M)
  {
    var h := RefStep(g, 12, a, hole, S, r);
    PathToOn(path, acts, f, g, NewRef(12, a), h);
    path', acts' := path + [h], acts + [NewRef(12, a)];
    i := ListedStep(h, 0, b, hole, S + {a as int}, r[12 := a]);
    PathToOn(path', acts', f, h, NewListed(0, b), i);
    path', acts' := path' + [i], acts' + [NewListed(0, b)];
    BothMade(g, h, i, 12, a, b);
    M := {g.sb.BBlock(a), a as int, g.sb.BBlock(b), b as int};
  }

  lemma Turn12(f: Volume, g: Volume, hole: bool, a: word, b: word, d: seq<byte>, e: seq<byte>, path: seq<Volume>, acts: seq<Act>,
               L: set<int>, S: set<int>, r: seq<int>, o: int)
    returns (k: Volume, path': seq<Volume>, acts': seq<Act>, L': set<int>)
    requires Ok(f) && Doing(f, g, 11, 12, o, d, L) && o + |d| == 12 * BSIZE && |e| == 512
    requires OnWay(g, hole, S, r) && PathTo(path, acts, f, g) && r[12] == 0 && r[13] == 0
    requires Next(hole, S, a) && Next(hole, S + {a as int}, b)
    ensures OnWay(k, hole, S + {a as int} + {b as int}, r[12 := a][13 := b]) && PathTo(path', acts', f, k)
    ensures Doing(f, k, 11, 13, o, d + e, L')
  {
    var i, M;
    i, path', acts', M := FindBoth(f, g, hole, a, b, path, acts, S, r);
    k, L' := PutStep(f, g, i, 12, 11, o, d, 0, e, d + e, L, M, hole, S + {a as int} + {b as int}, r[12 := a][13 := b]);
    PathToOn(path', acts', f, i, Put(12, 0, e), k);
    path', acts' := path' + [k], acts' + [Put(12, 0, e)];
  }

  /** Blocks 13 and 14: one more block that the indirect block lists. */
  lemma TurnListed(f: Volume, g: Volume, hole: bool, n: int, b: word, d: seq<byte>, e: seq<byte>, path: seq<Volume>, acts: seq<Act>,
                   L: set<int>, S: set<int>, r: seq<int>, o: int)
    returns (k: Volume, path': seq<Volume>, acts': seq<Act>, L': set<int>)
    requires Ok(f) && Doing(f, g, 11, n, o, d, L) && 13 <= n < 15 && Next(hole, S, b)
    requires OnWay(g, hole, S, r) && PathTo(path, acts, f, g) && r[NDIRECT] != 0 && r[n + 1] == 0
    requires o + |d| == n * BSIZE && |e| <= 512
    ensures OnWay(k, hole, S + {b as int}, r[n + 1 := b]) && PathTo(path', acts', f, k)
    ensures Doing(f, k, 11, n + 1, o, d + e, L')
  {
    var i := ListedStep(g, n - NDIRECT, b, hole, S, r);
    PathToOn(path, acts, f, g, NewListed(n - NDIRECT, b), i);
    path', acts' := path + [i], acts + [NewListed(n - NDIRECT, b)];
    WayRefs(g, hole, S, r);
    EntryMade(g, i, n, b);
    k, L' := PutStep(f, g, i, n, 11, o, d, 0, e, d + e, L, {g.sb.BBlock(b), b as int, Refs(g)[NDIRECT]}, hole, S + {b as int}, r[n + 1 := b]);
    PathToOn(path', acts', f, i, Put(n, 0, e), k);
    path', acts' := path' + [k], acts' + [Put(n, 0, e)];
  }

  // ------------------------------------------------------------------
  // The whole
  // ------------------------------------------------------------------

  lemma FourParts(d: seq<byte>)
    requires |d| == CHUNK
    ensures d[..511] + d[511..1023] + d[1023..1535] + d[1535..] == d
  {
  }

  /** The free blocks in the order in which balloc finds them. */
  lemma NextAre(hole: bool)
    ensures Next(hole, Hole(hole), 4097) && Next(hole, Hole(hole) + {4097}, 8193)
    ensures Next(hole, Hole(hole) + {4097} + {8193}, 12289) && Next(hole, Hole(hole) + {4097} + {8193} + {12289}, 16385)
  {
  }

  /** Blocks 13 and 14, with the next two free blocks. */
  lemma LastTurns(f: Volume, g: Volume, hole: bool, a: word, b: word, d: seq<byte>, e0: seq<byte>, e1: seq<byte>,
                  path: seq<Volume>, acts: seq<Act>, L: set<int>, S: set<int>, r: seq<int>, o: int)
    returns (k: Volume, path': seq<Volume>, acts': seq<Act>, L': set<int>)
    requires Ok(f) && Doing(f, g, 11, 13, o, d, L) && Next(hole, S, a) && Next(hole, S + {a as int}, b)
    requires OnWay(g, hole, S, r) && PathTo(path, acts, f, g) && r[NDIRECT] != 0 && r[14] == 0 && r[15] == 0
    requires o + |d| == 13 * BSIZE && |e0| == 512 && |e1| <= 512
    ensures Ok(k) && Refs(k) == r[14 := a][15 := b] && PathTo(path', acts', f, k)
    ensures Doing(f, k, 11, 15, o, d + e0 + e1, L')
  {
    var i := g;
    i, path', acts', L' := TurnListed(f, g, hole, 13, a, d, e0, path, acts, L, S, r, o);
    k, path', acts', L' := TurnListed(f, i, hole, 14, b, d + e0, e1, path', acts', L', S + {a as int}, r[14 := a], o);
    WayRefs(k, hole, S + {a as int} + {b as int}, r[14 := a][15 := b]);
  }

  /** The loop of writei, in four turns. */
  lemma FourTurns(f: Volume, hole: bool, d: seq<byte>, o: int) returns (k: Volume, path: seq<Volume>, acts: seq<Act>, L: set<int>)
    requires Ready0(f, hole) && |d| == CHUNK && o == 11 * BSIZE + 1
    ensures Ok(k) && Refs(k) == Later() && PathTo(path, acts, f, k) && Doing(f, k, 11, 15, o, d, L)
  {
    NextAre(hole);
    FourParts(d);
    var d0, d1, d2, d3 := d[..511], d[511..1023], d[1023..1535], d[1535..];
    var g;
    g, path, acts, L := FirstTurns(f, hole, d0, d1, 4097, 8193, o);
    k, path, acts, L := LastTurns(f, g, hole, 12289, 16385, d0 + d1, d2, d3, path, acts, L,
                                  Hole(hole) + {4097} + {8193}, Before(false)[12 := 4097][13 := 8193], o);
  }

  /** Blocks 11 and 12. */
  lemma FirstTurns(f: Volume, hole: bool, d: seq<byte>, e: seq<byte>, a: word, b: word, o: int)
    returns (k: Volume, path: seq<Volume>, acts: seq<Act>, L: set<int>)
    requires Ready0(f, hole) && |d| == 511 && |e| == 512 && o == 11 * BSIZE + 1
    requires Next(hole, Hole(hole), a) && Next(hole, Hole(hole) + {a as int}, b)
    ensures OnWay(k, hole, Hole(hole) + {a as int} + {b as int}, Before(false)[12 := a][13 := b]) && PathTo(path, acts, f, k)
    ensures Doing(f, k, 11, 13, o, d + e, L)
  {
    var g;
    g, path, acts, L := Turn11(f, hole, d, o);
    k, path, acts, L := Turn12(f, g, hole, a, b, d, e, path, acts, L, Hole(hole), Before(false), o);
  }

  lemma TightBlock(hole: bool, n: int)
    requires 11 <= n < 15
    ensures BlockCost(Wide(), Before(hole), Later(), n) ==
      if n == 11 then {274} + (if hole then {258} else {}) else {(n - 10) * 4096 + 1, n + 248, 4097, 259}
  {
    var q := Later();
    assert q[SlotOf(n)] == if n == 11 then 274 else (n - 10) * 4096 + 1;
    assert Before(hole)[SlotOf(n)] == if n == 11 && !hole then 274 else 0;
  }

  lemma TightCost(hole: bool)
    ensures WriteCost(Wide(), Before(hole), Later(), 11, 15) ==
      {274, 4097, 259, 8193, 260, 12289, 261, 16385, 262} + if hole then {258} else {}
  {
    TightBlock(hole, 11);
    TightBlock(hole, 12);
    TightBlock(hole, 13);
    TightBlock(hole, 14);
    FourCosts(Wide(), Before(hole), Later(), 11, 12, 13, 14, 15);
    FourSets(hole, BlockCost(Wide(), Before(hole), Later(), 11), BlockCost(Wide(), Before(hole), Later(), 12),
             BlockCost(Wide(), Before(hole), Later(), 13), BlockCost(Wide(), Before(hole), Later(), 14));
  }

  lemma FourSets(hole: bool, a: set<int>, b: set<int>, c: set<int>, d: set<int>)
    requires a == {274} + (if hole then {258} else {}) && b == {8193, 260, 4097, 259}
    requires c == {12289, 261, 4097, 259} && d == {16385, 262, 4097, 259}
    ensures a + b + c + d == {274, 4097, 259, 8193, 260, 12289, 261, 16385, 262} + if hole then {258} else {}
  {
  }

  lemma FourCosts(sb: Super, r: seq<int>, q: seq<int>, a: int, b: int, c: int, d: int, e: int)
    requires |r| == SLOTS && |q| == SLOTS && 0 <= a && b == a + 1 && c == b + 1 && d == c + 1 && e == d + 1 <= MAXFILE
    ensures WriteCost(sb, r, q, a, e) == BlockCost(sb, r, q, a) + BlockCost(sb, r, q, b) + BlockCost(sb, r, q, c) + BlockCost(sb, r, q, d)
  {
    assert WriteCost(sb, r, q, a, a) == {};
    assert WriteCost(sb, r, q, a, b) == BlockCost(sb, r, q, a);
    assert WriteCost(sb, r, q, a, c) == WriteCost(sb, r, q, a, b) + BlockCost(sb, r, q, b);
    assert WriteCost(sb, r, q, a, d) == WriteCost(sb, r, q, a, c) + BlockCost(sb, r, q, c);
    assert WriteCost(sb, r, q, a, e) == WriteCost(sb, r, q, a, d) + BlockCost(sb, r, q, d);
  }

  lemma SizeOfTen(s: set<int>)
    requires s == {274, 4097, 259, 8193, 260, 12289, 261, 16385, 262, 2}
    ensures |s| == 10
  {
  }

  lemma TightCount(hole: bool, s: set<int>)
    requires s == {274, 4097, 259, 8193, 260, 12289, 261, 16385, 262} + if hole then {258} else {}
    ensures |s + {2}| == if hole then MAXOPBLOCKS + 1 else MAXOPBLOCKS
  {
    var ten := {274, 4097, 259, 8193, 260, 12289, 261, 16385, 262, 2};
    SizeOfTen(ten);
    assert s + {2} == if hole then ten + {258} else ten;
  }

  lemma LastWritten(f: Volume, g: Volume, k: Volume, d: seq<byte>, o: int, lo: int, hi: int, L: set<int>)
    requires Ok(f) && Ok(g) && 0 <= o <= f.ip.size < o + |d| <= MAXFILE * BSIZE && Spans(o, |d|, lo, hi)
    requires Doing(f, g, lo, hi, o, d, L) && Closed(g, k, o + |d|)
    ensures Clean(f) ==> Wrote(f, k, o, d)
    ensures Ok(k) && L + {f.sb.IBlock(f.cur)} == Cost(f, k, o, |d|)
  {
    CostPast(f, g, k, o, d, lo, hi, L);
    if Clean(f) { WrotePast(f, g, k, o, d, lo, hi, L); }
  }

  lemma LogIsCost(f: Volume, g: Volume, hole: bool, d: seq<byte>, o: int, L: set<int>)
    requires Ready0(f, hole) && Doing(f, g, 11, 15, o, d, L) && Refs(g) == Later()
    ensures L == WriteCost(Wide(), Before(hole), Later(), 11, 15)
  {
    assert Key(0);
  }

  lemma TightSpan(o: int)
    requires o == 11 * BSIZE + 1
    ensures Spans(o, CHUNK, 11, 15) && o <= 12 * BSIZE < o + CHUNK <= MAXFILE * BSIZE
  {
  }

  lemma TightLog(f: Volume, k: Volume, hole: bool, d: seq<byte>, o: int, L: set<int>)
    requires Ready0(f, hole) && Doing(f, k, 11, 15, o, d, L) && Refs(k) == Later()
    ensures |L + {2}| == if hole then MAXOPBLOCKS + 1 else MAXOPBLOCKS
  {
    LogIsCost(f, k, hole, d, o, L);
    TightCost(hole);
    TightCount(hole, L);
  }

  lemma ReadyIs(f: Volume, hole: bool)
    requires Ready0(f, hole)
    ensures Ok(f) && Synced(f) && f.held == map[] && f.loose == {} && f.ip.size == 12 * BSIZE && f.sb.IBlock(f.cur) == 2
    ensures !hole ==> Clean(f)
  {
  }

  /** The bound on a transaction is met: there is a volume, made from an empty disk, in
      which writing a chunk, step by step as the code does it and with the blocks that
      balloc finds, logs exactly MAXOPBLOCKS blocks.  Over a hole it logs one more. */
  lemma BoundIsTight(hole: bool, d: seq<byte>, o: int) returns (f: Volume, g: Volume, path: seq<Volume>, acts: seq<Act>)
    requires |d| == CHUNK && o == 11 * BSIZE + 1
    ensures Ok(f) && Ok(g) && Synced(f) && f.held == map[] && f.loose == {} && o <= f.ip.size
    ensures IsPath(path, acts) && path[0] == f && path[|acts|] == g
    ensures |Cost(f, g, o, CHUNK)| == if hole then MAXOPBLOCKS + 1 else MAXOPBLOCKS
    ensures !hole ==> Clean(f) && Wrote(f, g, o, d)
  {
    f := StartReady(hole);
    var k, L;
    k, path, acts, L := FourTurns(f, hole, d, o);
    TightLog(f, k, hole, d, o, L);
    ReadyIs(f, hole);
    TightSpan(o);
    g, path, acts := LastAct(f, k, d, o, path, acts, L);
  }

  lemma LastAct(f: Volume, k: Volume, d: seq<byte>, o: int, path: seq<Volume>, acts: seq<Act>, L: set<int>)
    returns (g: Volume, path': seq<Volume>, acts': seq<Act>)
    requires Ok(f) && Ok(k) && 0 <= o <= f.ip.size < o + |d| <= MAXFILE * BSIZE && Spans(o, |d|, 11, 15)
    requires Doing(f, k, 11, 15, o, d, L) && PathTo(path, acts, f, k)
    ensures IsPath(path', acts') && path'[0] == f && path'[|acts'|] == g
    ensures Clean(f) ==> Wrote(f, g, o, d)
    ensures Ok(g) && L + {f.sb.IBlock(f.cur)} == Cost(f, g, o, |d|)
  {
    g := CloseStep(k, o + |d|);
    LastWritten(f, k, g, d, o, 11, 15, L);
    PathToOn(path, acts, f, k, Close(o + |d|), g);
    path', acts' := path + [g], acts + [Close(o + |d|)];
    PathIs(path', acts', f, g);
  }

  lemma CloseStep(k: Volume, size: word) returns (g: Volume)
    requires Ok(k)
    ensures Closed(k, g, size) && Did(k, Close(size), g)
  {
    CloseOk(k, size);
    g := Sync(Resize(k, size));
    assert Key(0);
  }

  lemma PathIs(path: seq<Volume>, acts: seq<Act>, f: Volume, g: Volume)
    requires PathTo(path, acts, f, g)
    ensures IsPath(path, acts) && path[0] == f && path[|acts|] == g
  {
    assert Key(0);
  }
}

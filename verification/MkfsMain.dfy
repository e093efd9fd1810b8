/** main of lab2/mkfs.c: a file system with a root directory and one file for each
    argument. */
module MkfsMain {
  import opened Sealing
  import opened FsBytes
  import opened FsModel
  import opened FsProofs
  import opened FsWrite
  import opened FsLocked
  import opened MkfsModel
  import opened Mkfs
  import R = FsRuns

  const ROOTINO: int := 1
  const T_DIR: half := 1
  const T_FILE: half := 2
  const DIRSIZ: int := 14

  /** An argument of mkfs: the name, and the contents as read returns them. */
  datatype UserFile = UserFile(name: seq<byte>, parts: seq<seq<byte>>)

  /** struct dirent: a little-endian inode number and 14 bytes of name, which strncpy pads
      with zeros. */
  function Dirent(inum: half, name: seq<byte>): (d: seq<byte>)
    ensures |d| == 16 && (d[0] as int) + 0x100 * (d[1] as int) == inum
    ensures forall k :: 0 <= k < 14 ==> d[2 + k] == if k < |name| then name[k] else 0
  {
    [(inum % 0x100) as byte, (inum / 0x100) as byte] +
    seq(DIRSIZ, k requires 0 <= k < DIRSIZ => if k < |name| then name[k] else 0)
  }

  function Joined(ds: seq<seq<byte>>): seq<byte>
  {
    if ds == [] then [] else Joined(ds[..|ds| - 1]) + ds[|ds| - 1]
  }

  /** The entries of the root directory for files in inodes from 2 on. */
  function Entries(files: seq<UserFile>): (d: seq<byte>)
    requires |files| + 2 <= 0x1_0000
    ensures |d| == 16 * (|files| + 2)
  {
    if files == [] then Dirent(ROOTINO, [46]) + Dirent(ROOTINO, [46, 46])
    else Entries(files[..|files| - 1]) + Dirent(|files| + 1, files[|files| - 1].name)
  }

  // ------------------------------------------------------------------
  // How much room there is
  // ------------------------------------------------------------------

  /** Blocks that appending n bytes may take. */
  function Need(n: nat): nat { 2 * (n / BSIZE + 2) }

  function NeedParts(ds: seq<seq<byte>>): nat
  {
    if ds == [] then 0 else NeedParts(ds[..|ds| - 1]) + Need(|ds[|ds| - 1]|)
  }

  function NeedFiles(files: seq<UserFile>): nat
  {
    if files == [] then 2 * Need(16)
    else NeedFiles(files[..|files| - 1]) + Need(16) + NeedParts(files[|files| - 1].parts)
  }

  lemma {:induction false} NeedLess(ds: seq<seq<byte>>, k: nat)
    requires k <= |ds|
    ensures NeedParts(ds[..k]) <= NeedParts(ds) && |Joined(ds[..k])| <= |Joined(ds)|
    decreases |ds|
  {
    if k < |ds| {
      NeedLess(ds[..|ds| - 1], k);
      assert ds[..|ds| - 1][..k] == ds[..k];
    } else {
      assert ds[..k] == ds;
    }
  }

  lemma {:induction false} NeedLessFiles(files: seq<UserFile>, k: nat)
    requires k <= |files|
    ensures NeedFiles(files[..k]) <= NeedFiles(files)
    decreases |files|
  {
    if k < |files| {
      NeedLessFiles(files[..|files| - 1], k);
      assert files[..|files| - 1][..k] == files[..k];
    } else {
      assert files[..k] == files;
    }
  }

  /** No file is larger than a file can be. */
  ghost predicate SizesOk(files: seq<UserFile>)
  {
    && 16 * (|files| + 2) <= MAXFILE * BSIZE
    && forall k :: 0 <= k < |files| ==> |Joined(files[k].parts)| <= MAXFILE * BSIZE
  }

  // ------------------------------------------------------------------
  // What the files hold
  // ------------------------------------------------------------------

  ghost function FileAt(v: Volume, i: int): seq<byte>
    requires Shape(v) && 0 <= i < v.sb.ninodes
  {
    if Ino(v, i).size <= MAXFILE * BSIZE then File(v, i) else []
  }

  /** The file of inode i is d; sealed. */
  ghost predicate FileIs(v: Volume, i: int, d: seq<byte>)
  {
    Shape(v) && 0 <= i < v.sb.ninodes && forall x {:trigger Seal(x)} :: Seal(x) ==> FileAt(v, i) == d
  }

  lemma FileIsFile(v: Volume, i: int, d: seq<byte>)
    requires FileIs(v, i, d)
    ensures FileAt(v, i) == d
  {
    assert Seal(0);
  }

  lemma RelockFile(v: Volume, i: int, j: int, d: seq<byte>)
    requires Tidy(v) && 0 <= i < v.sb.ninodes && FileIs(v, j, d)
    ensures FileIs(Relock(v, i), j, d)
  {
    FileIsFile(v, j, d);
    assert FsOk(v) && Synced(v) by { assert Key(0); }
    RelockOk(v, i);
  }

  lemma OtherIs(f: Volume, g: Volume, j: int, d: seq<byte>)
    requires FsOk(f) && OthersKept(f, g) && j != f.cur && FileIs(f, j, d)
    ensures FileIs(g, j, d)
  {
    FileIsFile(f, j, d);
    OtherFileAt(f, g, j);
  }

  lemma OtherFileAt(f: Volume, g: Volume, j: int)
    requires FsOk(f) && OthersKept(f, g) && 0 <= j < f.sb.ninodes && j != f.cur
    ensures FileAt(g, j) == FileAt(f, j)
  {
    assert Ino(g, j) == Ino(f, j);
    if Ino(f, j).size <= MAXFILE * BSIZE { OtherFile(f, g, j); }
  }

  lemma AppendedFile(f: Volume, g: Volume, src: seq<byte>, d: seq<byte>)
    requires Clean(f) && Wrote(f, g, f.ip.size, src) && FileIs(f, f.cur, d)
    ensures FileIs(g, f.cur, d + src)
  {
    FileIsFile(f, f.cur, d);
    assert Settled(f) && Written(f, g, f.ip.size, src) by { assert Key(0); }
    SettledFile(f);
    SettledFile(g);
    OverwriteEnd(Bytes(f), f.ip.size, src);
  }

  lemma OverwriteEnd(s: seq<byte>, n: int, d: seq<byte>)
    requires n == |s|
    ensures Overwrite(s, n, d) == s + d
  {
  }

  lemma SettledFile(f: Volume)
    requires Settled(f)
    ensures FileAt(f, f.cur) == Bytes(f) && |Bytes(f)| == f.ip.size
  {
  }

  lemma AppendedAt(v: Volume, g: Volume, inum: int, src: seq<byte>, j: int, d: seq<byte>)
    requires Tidy(v) && 0 <= inum < v.sb.ninodes && FileIs(v, j, d)
    requires var f := Relock(v, inum); Clean(f) && Wrote(f, g, f.ip.size, src)
    ensures FileIs(g, j, if j == inum then d + src else d)
  {
    var f := Relock(v, inum);
    RelockFile(v, inum, j, d);
    if j == inum {
      AppendedFile(f, g, src, d);
    } else {
      WroteKept(f, g, f.ip.size, src);
      OtherIs(f, g, j, d);
    }
  }

  lemma NewAt(v: Volume, g: Volume, inum: int, j: int, d: seq<byte>)
    requires Tidy(v) && 0 <= inum < v.sb.ninodes && j != inum && FileIs(v, j, d) && OthersKept(Relock(v, inum), g)
    ensures FileIs(g, j, d)
  {
    RelockFile(v, inum, j, d);
    assert FsOk(Relock(v, inum)) by {
      TidyLock(v, inum);
      assert Key(0);
    }
    OtherIs(Relock(v, inum), g, j, d);
  }

  /** The files of the inodes from 0 on. */
  ghost predicate Has(v: Volume, data: seq<seq<byte>>)
  {
    |data| <= v.sb.ninodes && forall i :: 0 <= i < |data| ==> FileIs(v, i, data[i])
  }

  lemma HasAppend(v: Volume, g: Volume, inum: int, src: seq<byte>, data: seq<seq<byte>>)
    requires Tidy(v) && Has(v, data) && 0 <= inum < |data|
    requires var f := Relock(v, inum); Clean(f) && Wrote(f, g, f.ip.size, src)
    ensures Has(g, data[inum := data[inum] + src])
  {
    var data' := data[inum := data[inum] + src];
    WroteKept(Relock(v, inum), g, Relock(v, inum).ip.size, src);
    forall i | 0 <= i < |data'| ensures FileIs(g, i, data'[i]) {
      AppendedAt(v, g, inum, src, i, data[i]);
    }
  }

  lemma HasNew(v: Volume, g: Volume, inum: int, data: seq<seq<byte>>)
    requires Tidy(v) && Has(v, data) && inum == |data| < v.sb.ninodes
    requires OthersKept(Relock(v, inum), g) && g.ip.size == 0
    ensures Has(g, data + [[]])
  {
    var data' := data + [[]];
    assert FileIs(g, inum, []);
    forall i | 0 <= i < |data'| ensures FileIs(g, i, data'[i]) {
      if i < |data| { NewAt(v, g, inum, i, data[i]); }
    }
  }

  lemma HasSize(v: Volume, data: seq<seq<byte>>, inum: int)
    requires Tidy(v) && Has(v, data) && 0 <= inum < |data|
    ensures Relock(v, inum).ip.size == |data[inum]| <= MAXFILE * BSIZE
  {
    FileIsFile(v, inum, data[inum]);
    TidyLock(v, inum);
  }

  // ------------------------------------------------------------------
  // Which inodes are free
  // ------------------------------------------------------------------

  /** What ialloc makes of inode i: the root is a directory, the others are files, each with
      one link. */
  predicate KindOk(n: Inode, i: int) { n.typ == (if i == 1 then 1 else 2) && n.nlink == 1 && n.major == 0 && n.minor == 0 }

  /** Inode 0 is never used, and those from 1 to n - 1 are of their kind; sealed. */
  ghost predicate Typed(v: Volume, n: int)
  {
    Shape(v) && forall x {:trigger Seal(x)} :: Seal(x) ==>
      Ino(v, 0) == Empty() && forall i :: 1 <= i < n && i < v.sb.ninodes ==> KindOk(Ino(v, i), i)
  }

  lemma TypedIs(v: Volume, n: int)
    requires Typed(v, n)
    ensures Ino(v, 0) == Empty() && forall i :: 1 <= i < n && i < v.sb.ninodes ==> KindOk(Ino(v, i), i)
  {
    assert Seal(0);
  }

  lemma TypedKept(v: Volume, g: Volume, inum: int, n: int, m: int)
    requires Tidy(v) && Typed(v, n) && 0 < inum < v.sb.ninodes && OthersKept(Relock(v, inum), g) && KindOk(g.ip, inum)
    requires m == n || (m == n + 1 && inum == n)
    ensures Typed(g, m)
  {
    TypedIs(v, n);
    assert FsOk(v) && Synced(v) by { assert Key(0); }
    RelockOk(v, inum);
    forall i | 0 <= i < v.sb.ninodes && i != inum ensures Ino(g, i) == Ino(v, i) {
      assert Ino(g, i) == Ino(Relock(v, inum), i);
    }
  }

  lemma TypedAppend(v: Volume, g: Volume, inum: int, src: seq<byte>, n: int)
    requires Tidy(v) && Typed(v, n) && 0 < inum < n && inum < v.sb.ninodes
    requires var f := Relock(v, inum); Clean(f) && Wrote(f, g, f.ip.size, src)
    ensures Typed(g, n)
  {
    var f := Relock(v, inum);
    TypedIs(v, n);
    WroteKept(f, g, f.ip.size, src);
    WroteSize(f, g, f.ip.size, src);
    TypedKept(v, g, inum, n, n);
  }

  /** Inodes that were never allocated are zero, so no free inode owns a block. */
  lemma TypedBare(v: Volume, n: int)
    requires Typed(v, n) && Unborn(v, n)
    ensures R.NoOrphans(v)
  {
    TypedIs(v, n);
    forall i | 0 <= i < v.sb.ninodes && Ino(v, i).typ == 0 ensures R.Bare(Ino(v, i)) {
      if i > 0 { UnbornIs(v, n, i); }
    }
  }

  // ------------------------------------------------------------------
  // The program
  // ------------------------------------------------------------------

  /** An image under construction, with these files. */
  ghost predicate Making(img: Image, data: seq<seq<byte>>)
    reads img
  {
    img.Valid() && Tidy(img.v) && Unborn(img.v, img.freeinode) && Has(img.v, data) && img.freeinode == |data|
    && Typed(img.v, |data|)
  }

  method Append(img: Image, inum: int, src: seq<byte>, ghost data: seq<seq<byte>>, ghost data': seq<seq<byte>>) returns (ok: bool)
    requires Making(img, data) && 0 < inum < |data| && data' == data[inum := data[inum] + src]
    modifies img
    ensures img.Used(old(img.freeblock), Need(|src|), ok || |data[inum]| + |src| > MAXFILE * BSIZE)
    ensures ok ==> Making(img, data')
  {
    HasSize(img.v, data, inum);
    ghost var v := img.v;
    ok := img.Iappend(inum, src);
    if ok {
      HasAppend(v, img.v, inum, src, data);
      TypedAppend(v, img.v, inum, src, |data|);
    }
  }

  method Create(img: Image, typ: half, ghost data: seq<seq<byte>>) returns (inum: int)
    requires Making(img, data) && 0 < |data| < img.sb.ninodes && typ == if |data| == 1 then 1 else 2
    modifies img
    ensures inum == |data| && img.freeblock == old(img.freeblock) && Making(img, data + [[]])
  {
    ghost var v := img.v;
    inum := img.Ialloc(typ);
    HasNew(v, img.v, inum, data);
    TypedKept(v, img.v, inum, |data|, |data| + 1);
  }

  /** The files, with one more entry in the root directory and one more file. */
  ghost function With(data: seq<seq<byte>>, entry: seq<byte>, d: seq<byte>): (r: seq<seq<byte>>)
    requires |data| >= 2
    ensures |r| == |data| + 1 && r[ROOTINO] == data[ROOTINO] + entry && r[|data|] == d
    ensures forall i :: 0 <= i < |data| && i != ROOTINO ==> r[i] == data[i]
  {
    data[ROOTINO := data[ROOTINO] + entry] + [d]
  }

  lemma WithMore(data: seq<seq<byte>>, entry: seq<byte>, d: seq<byte>, e: seq<byte>)
    requires |data| >= 2
    ensures With(data, entry, d)[|data| := d + e] == With(data, entry, d + e)
  {
  }

  lemma WithEntry(data: seq<seq<byte>>, entry: seq<byte>)
    requires |data| >= 2
    ensures (data + [[]])[ROOTINO := (data + [[]])[ROOTINO] + entry] == With(data, entry, [])
  {
  }

  lemma OneMorePart(ds: seq<seq<byte>>, k: nat)
    requires k < |ds|
    ensures Joined(ds[..k + 1]) == Joined(ds[..k]) + ds[k] && NeedParts(ds[..k + 1]) == NeedParts(ds[..k]) + Need(|ds[k]|)
  {
    assert ds[..k + 1][..k] == ds[..k];
  }

  /** The loop that copies the contents of one argument. */
  method Copy(img: Image, inum: int, parts: seq<seq<byte>>, ghost data: seq<seq<byte>>, ghost entry: seq<byte>) returns (ok: bool)
    requires |data| >= 2 && inum == |data| && Making(img, With(data, entry, []))
    modifies img
    ensures img.Used(old(img.freeblock), NeedParts(parts), ok || |Joined(parts)| > MAXFILE * BSIZE)
    ensures ok ==> Making(img, With(data, entry, Joined(parts)))
  {
    ok := true;
    ghost var d: seq<byte> := [];
    for k := 0 to |parts|
      invariant ok && d == Joined(parts[..k]) && Making(img, With(data, entry, d))
      invariant img.Used(old(img.freeblock), NeedParts(parts[..k]), true)
    {
      OneMorePart(parts, k);
      NeedLess(parts, k + 1);
      WithMore(data, entry, d, parts[k]);
      ok := Append(img, inum, parts[k], With(data, entry, d), With(data, entry, d + parts[k]));
      if !ok { return; }
      d := d + parts[k];
    }
    assert parts[..|parts|] == parts;
  }

  /** One argument of mkfs: an inode, an entry in the root directory, the contents. */
  method AddFile(img: Image, file: UserFile, ghost data: seq<seq<byte>>) returns (ok: bool)
    requires Making(img, data) && 2 <= |data| < img.sb.ninodes <= 0x1_0000
    modifies img
    ensures img.Used(old(img.freeblock), Need(16) + NeedParts(file.parts),
                     ok || |data[ROOTINO]| + 16 > MAXFILE * BSIZE || |Joined(file.parts)| > MAXFILE * BSIZE)
    ensures ok ==> Making(img, With(data, Dirent(|data|, file.name), Joined(file.parts)))
  {
    var inum := Create(img, T_FILE, data);
    var de := Dirent(inum, file.name);
    WithEntry(data, de);
    ok := Append(img, ROOTINO, de, data + [[]], With(data, de, []));
    if !ok { return; }
    ok := Copy(img, inum, file.parts, data, de);
  }

  /** The root directory and the files that the arguments make. */
  ghost function Made(files: seq<UserFile>): (data: seq<seq<byte>>)
    requires |files| + 2 <= 0x1_0000
    ensures |data| == |files| + 2 && data[ROOTINO] == Entries(files)
  {
    if files == [] then [[], Entries([])]
    else With(Made(files[..|files| - 1]), Dirent(|files| + 1, files[|files| - 1].name), Joined(files[|files| - 1].parts))
  }

  lemma {:induction false} MadeAt(files: seq<UserFile>, k: nat)
    requires |files| + 2 <= 0x1_0000 && k < |files|
    ensures Made(files)[2 + k] == Joined(files[k].parts)
    decreases |files|
  {
    if k < |files| - 1 { MadeAt(files[..|files| - 1], k); }
  }

  lemma OneMoreFile(files: seq<UserFile>, k: nat)
    requires k < |files| && |files| + 2 <= 0x1_0000
    ensures Made(files[..k + 1]) == With(Made(files[..k]), Dirent(k + 2, files[k].name), Joined(files[k].parts))
    ensures NeedFiles(files[..k + 1]) == NeedFiles(files[..k]) + Need(16) + NeedParts(files[k].parts)
  {
    assert files[..k + 1][..k] == files[..k];
  }

  /** ".", ".." and the root directory. */
  method MakeRoot(sb: Super, super: Block) returns (ok: bool, img: Image)
    requires sb.Ok() && 1 < sb.inodestart && 2 <= sb.ninodes
    ensures fresh(img) && img.sb == sb && img.Used(sb.datastart, NeedFiles([]), ok)
    ensures ok ==> Making(img, Made([]))
  {
    img := new Image(sb, super);
    NoFilesYet(img.v);
    ghost var zero: seq<seq<byte>>, none: seq<seq<byte>> := [[]], [[], []];
    assert Making(img, zero);
    var root := Create(img, T_DIR, zero);
    assert zero + [[]] == none;
    var dot, dotdot := Dirent(ROOTINO, [46]), Dirent(ROOTINO, [46, 46]);
    assert none[ROOTINO] + dot == dot;
    ok := Append(img, root, dot, none, [[], dot]);
    if !ok { return; }
    ok := Append(img, root, dotdot, [[], dot], [[], dot + dotdot]);
  }

  lemma NoFilesYet(v: Volume)
    requires Shape(v) && Unborn(v, 0)
    ensures FileIs(v, 0, []) && Typed(v, 1)
  {
    UnbornIs(v, 0, 0);
  }

  lemma TooLarge(files: seq<UserFile>, k: nat)
    requires k < |files| && |files| + 2 <= 0x1_0000
    requires |Entries(files[..k])| + 16 > MAXFILE * BSIZE || |Joined(files[k].parts)| > MAXFILE * BSIZE
    ensures !SizesOk(files)
  {
  }

  method AddNext(img: Image, files: seq<UserFile>, k: nat) returns (ok: bool)
    requires k < |files| && |files| + 2 <= img.sb.ninodes <= 0x1_0000 && Making(img, Made(files[..k]))
    requires img.Used(img.sb.datastart, NeedFiles(files[..k]), true)
    modifies img
    ensures img.Used(img.sb.datastart, NeedFiles(files[..k + 1]), ok || !SizesOk(files))
    ensures ok ==> Making(img, Made(files[..k + 1]))
  {
    OneMoreFile(files, k);
    ok := AddFile(img, files[k], Made(files[..k]));
    StillOk(files, k);
  }

  lemma StillOk(files: seq<UserFile>, k: nat)
    requires k < |files| && |files| + 2 <= 0x1_0000
    ensures |Made(files[..k])[ROOTINO]| + 16 > MAXFILE * BSIZE || |Joined(files[k].parts)| > MAXFILE * BSIZE ==> !SizesOk(files)
  {
    if |Entries(files[..k])| + 16 > MAXFILE * BSIZE || |Joined(files[k].parts)| > MAXFILE * BSIZE { TooLarge(files, k); }
  }

  /** All arguments. */
  method AddFiles(img: Image, files: seq<UserFile>) returns (ok: bool)
    requires Making(img, Made([])) && |files| + 2 <= img.sb.ninodes <= 0x1_0000
    requires img.Used(img.sb.datastart, NeedFiles([]), true)
    modifies img
    ensures img.Used(img.sb.datastart, NeedFiles(files), ok || !SizesOk(files))
    ensures ok ==> Making(img, Made(files))
  {
    ok := true;
    assert files[..0] == [];
    for k := 0 to |files|
      invariant ok && Making(img, Made(files[..k])) && img.Used(img.sb.datastart, NeedFiles(files[..k]), true)
    {
      NeedLessFiles(files, k + 1);
      ok := AddNext(img, files, k);
      if !ok { return; }
    }
    assert files[..|files|] == files;
  }

  // ------------------------------------------------------------------
  // The end
  // ------------------------------------------------------------------

  /** The root directory, with a size past its entries, and the other files. */
  ghost predicate Left(v: Volume, data: seq<seq<byte>>)
    requires |data| >= 2
  {
    && Shape(v) && |data| <= v.sb.ninodes && v.cur == ROOTINO
    && v.ip.size == (|data[ROOTINO]| / BSIZE + 1) * BSIZE && Starts(v, data[ROOTINO])
    && forall i :: 0 <= i < |data| && i != ROOTINO ==> FileIs(v, i, data[i])
  }

  /** The locked file starts with d; sealed. */
  ghost predicate Starts(v: Volume, d: seq<byte>)
  {
    |d| <= MAXFILE * BSIZE && forall x {:trigger Seal(x)} :: Seal(x) ==> Content(v)[..|d|] == d
  }

  lemma RootStarts(v: Volume, d: seq<byte>)
    requires Tidy(v) && ROOTINO < v.sb.ninodes && FileIs(v, ROOTINO, d)
    ensures var f := Relock(v, ROOTINO); Clean(f) && f.ip.size == |d| && Starts(f, d)
  {
    TidyLock(v, ROOTINO);
    var f := Relock(v, ROOTINO);
    RelockFile(v, ROOTINO, ROOTINO, d);
    FileIsFile(f, ROOTINO, d);
    FileIsContent(f);
  }

  lemma StillStarts(f: Volume, g: Volume, d: seq<byte>)
    requires Starts(f, d) && Content(g) == Content(f)
    ensures Starts(g, d)
  {
  }

  /** The size of the root directory is rounded up. */
  lemma RoundedLeft(v: Volume, g: Volume, data: seq<seq<byte>>)
    requires Tidy(v) && |data| >= 2 && Has(v, data)
    requires var f := Relock(v, ROOTINO);
             OthersKept(f, g) && g.ip.size == (f.ip.size / BSIZE + 1) * BSIZE && Content(g) == Content(f)
    ensures Left(g, data)
  {
    assert FileIs(v, ROOTINO, data[ROOTINO]);
    RootStarts(v, data[ROOTINO]);
    StillStarts(Relock(v, ROOTINO), g, data[ROOTINO]);
    forall i | 0 <= i < |data| && i != ROOTINO ensures FileIs(g, i, data[i]) {
      NewAt(v, g, ROOTINO, i, data[i]);
    }
  }

  lemma LeftStart(v: Volume, data: seq<seq<byte>>, d: seq<byte>, n: int)
    requires |data| >= 2 && Left(v, data) && d == data[ROOTINO] && |d| == 16 * n
    ensures 16 * n <= MAXFILE * BSIZE && v.ip.size == (n / 32 + 1) * BSIZE && Content(v)[..16 * n] == d
  {
    assert Seal(0);
  }

  lemma RoundedBare(v: Volume, g: Volume, n: int)
    requires Tidy(v) && Typed(v, n) && Unborn(v, n) && ROOTINO < n && ROOTINO < v.sb.ninodes
    requires OthersKept(Relock(v, ROOTINO), g) && SameKind(g.ip, Relock(v, ROOTINO).ip)
    ensures R.NoOrphans(g) && Typed(g, n) && Unborn(g, n)
  {
    TypedIs(v, n);
    UnbornStill(v, ROOTINO, n);
    UnbornKept(Relock(v, ROOTINO), g, n, n);
    TypedKept(v, g, ROOTINO, n, n);
    TypedBare(g, n);
  }

  /** What that means for the arguments of mkfs. */
  lemma LeftRoot(v: Volume, files: seq<UserFile>, data: seq<seq<byte>>, n: int)
    requires n == |files| + 2 <= 0x1_0000 && data == Made(files) && Left(v, data)
    ensures 16 * n <= MAXFILE * BSIZE && v.ip.size == (n / 32 + 1) * BSIZE && Content(v)[..16 * n] == Entries(files)
  {
    LeftStart(v, data, Entries(files), n);
  }

  lemma LeftFile(v: Volume, files: seq<UserFile>, data: seq<seq<byte>>, k: int)
    requires |files| + 2 <= 0x1_0000 && data == Made(files) && Left(v, data) && 0 <= k < |files|
    ensures 2 + k < v.sb.ninodes && FileAt(v, 2 + k) == Joined(files[k].parts)
  {
    LeftFileIs(v, files, data, k);
    FileIsFile(v, 2 + k, Joined(files[k].parts));
  }

  lemma LeftFileIs(v: Volume, files: seq<UserFile>, data: seq<seq<byte>>, k: int)
    requires |files| + 2 <= 0x1_0000 && data == Made(files) && Left(v, data) && 0 <= k < |files|
    ensures FileIs(v, 2 + k, Joined(files[k].parts))
  {
    MadeAt(files, k);
    assert FileIs(v, 2 + k, data[2 + k]);
  }

  /** The image as main leaves it: a volume in order with these files. */
  ghost predicate Complete(img: Image, files: seq<UserFile>)
    requires |files| + 2 <= 0x1_0000
    reads img
  {
    && Ok(img.v) && Synced(img.v) && img.v == Volume(img.sb, img.blocks, ROOTINO, img.v.ip, map[], img.v.owner, {})
    && Left(img.v, Made(files)) && R.NoOrphans(img.v) && Typed(img.v, |files| + 2) && Unborn(img.v, |files| + 2)
  }

  /** It is where the runs of the file system start. */
  lemma CompleteStarts(v: Volume)
    requires Ok(v) && Synced(v) && v.held == map[] && v.loose == {} && R.NoOrphans(v)
    ensures R.SysOk(R.Unlocked(v))
  {
    assert FsOk(v) by { assert Key(0); }
    R.UnlockedOk(v);
  }

  lemma WholeBlocks(n: nat)
    ensures 16 * n % BSIZE != 0 <==> n % 32 != 0
  {
  }

  /** The rest of main: the size of the root, and the free map. */
  method Finish(img: Image, ghost files: seq<UserFile>) returns (ok: bool)
    requires |files| + 2 <= 0x1_0000 && Making(img, Made(files))
    modifies img
    ensures ok <==> img.freeblock < BPB
    ensures img.freeblock == old(img.freeblock)
    ensures ok ==> Complete(img, files) && (NoHoles(img.v.blocks, img.v.ip) <==> (|files| + 2) % 32 != 0)
  {
    ghost var v, data := img.v, Made(files);
    HasSize(v, data, ROOTINO);
    img.FixRoot(ROOTINO);
    RoundedLeft(v, img.v, data);
    RoundedBare(v, img.v, |data|);
    WholeBlocks(|files| + 2);
    ok := img.Balloc();
  }

  /** mkfs: an image with the root directory and the files, which is in order.  It fails
      only when a file or the root directory is too large or the image has too few blocks.
      The root directory has a hole exactly when its entries fill whole blocks. */
  method Make(sb: Super, super: Block, files: seq<UserFile>) returns (ok: bool, img: Image)
    requires sb.Ok() && 1 < sb.inodestart && |files| + 2 <= sb.ninodes <= 0x1_0000
    ensures fresh(img) && img.sb == sb
    ensures SizesOk(files) && sb.datastart + NeedFiles(files) < sb.size && sb.datastart + NeedFiles(files) < BPB ==> ok
    ensures ok ==> Complete(img, files) && (NoHoles(img.v.blocks, img.v.ip) <==> (|files| + 2) % 32 != 0)
  {
    NeedLessFiles(files, 0);
    assert files[..0] == [];
    ok, img := MakeRoot(sb, super);
    if !ok { return; }
    ok := AddFiles(img, files);
    if !ok { return; }
    ok := Finish(img, files);
  }

  /** Such an image: "." and ".." and thirty files without contents. */
  method HoleInRoot(sb: Super, super: Block, names: seq<seq<byte>>) returns (img: Image)
    requires sb.Ok() && 1 < sb.inodestart && 32 <= sb.ninodes <= 0x1_0000 && |names| == 30
    requires sb.datastart + 128 < sb.size && sb.datastart + 128 < BPB
    ensures Ok(img.v) && Synced(img.v) && img.v.cur == ROOTINO && img.v.blocks == img.blocks
    ensures img.v.ip.size == 2 * BSIZE && !NoHoles(img.v.blocks, img.v.ip)
  {
    var files := seq(30, k requires 0 <= k < 30 => UserFile(names[k], []));
    NeedEmpty(files);
    var ok;
    ok, img := Make(sb, super, files);
    LeftRoot(img.v, files, Made(files), 32);
  }

  lemma {:induction false} NeedEmpty(files: seq<UserFile>)
    requires forall k :: 0 <= k < |files| ==> files[k].parts == []
    ensures NeedFiles(files) == 4 * (|files| + 2)
    decreases |files|
  {
    if files != [] { NeedEmpty(files[..|files| - 1]); }
  }
}

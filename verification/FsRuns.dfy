/** The steps of lab2/fs.c by several processes at once.

    ilock is per inode and up to three operations run at a time, so between two
    releases of a buffer the steps of different holders interleave freely.  Each
    holder has its inode in memory, perhaps ahead of the disk, and blocks in hand
    that it has marked and not yet referenced, or no longer references. */
module FsRuns {
  import opened Sealing
  import opened FsBytes
  import opened FsModel
  import opened FsProofs

  /** `mem` are the locked inodes; `loose` says which holder has a block in hand, and
      `zeroed` which of these are. */
  datatype Sys = Sys(sb: Super, blocks: seq<Block>, mem: map<int, Inode>, owner: map<int, (int, int)>,
                     loose: map<int, int>, zeroed: set<int>)

  ghost predicate SysShape(s: Sys)
  {
    s.sb.Ok() && |s.blocks| == s.sb.size && forall i :: i in s.mem ==> 0 <= i < s.sb.ninodes
  }

  ghost function OnDisk(s: Sys, i: int): Inode
    requires SysShape(s) && 0 <= i < s.sb.ninodes
  {
    WordsInode(s.blocks[s.sb.IBlock(i)], i % IPB)
  }

  /** The volume as the holder of inode i sees it. */
  ghost function View(s: Sys, i: int): Volume
    requires SysShape(s) && 0 <= i < s.sb.ninodes
  {
    Volume(s.sb, s.blocks, i, InodeIn(s, i), s.mem - {i}, s.owner, s.loose.Keys)
  }

  /** The inode that counts. */
  ghost function InodeIn(s: Sys, i: int): Inode
    requires SysShape(s) && 0 <= i < s.sb.ninodes
  {
    if i in s.mem then s.mem[i] else OnDisk(s, i)
  }

  // ------------------------------------------------------------------
  // Steps
  // ------------------------------------------------------------------

  /** One step of the process that has inode i locked; ialloc takes an inode that nobody
      has locked, and iput ends by writing a free inode and forgetting it. */
  datatype Step =
    | Lock(i: int)
    | Unlock(i: int)
    | Claim(i: int, typ: half)
    | Drop(i: int)
    | SetKind(i: int, typ: half, major: half, minor: half, nlink: half)
    | TakeBlock(i: int, b: int)
    | ZeroBlock(i: int, b: int)
    | SetRef(i: int, k: int, b: int)
    | SetEntry(i: int, j: int, b: int)
    | WriteBytes(i: int, n: int, o: int, d: seq<byte>)
    | WriteInode(i: int)
    | SetSize(i: int, size: word)
    | ClearRef(i: int, k: int)
    | ClearTree(i: int)
    | GiveBack(i: int, b: int)

  /** A step of the holder on its inode and its blocks. */
  predicate Working(l: Step) { !l.Lock? && !l.Unlock? && !l.Claim? && !l.Drop? }

  /** An inode without blocks and without bytes. */
  predicate Bare(n: Inode) { n.size == 0 && forall k :: 0 <= k <= NDIRECT ==> n.addrs[k] == 0 }

  /** A new inode, as ialloc makes it. */
  function NewInode(typ: half): Inode { Inode(typ, 0, 0, 0, 0, seq<word>(13, _ => 0)) }

  /** What the step needs of the volume. */
  ghost predicate Ready(f: Volume, l: Step)
    requires Shape(f)
  {
    match l
    case Lock(_) => false
    case Unlock(_) => false
    case Claim(_, _) => false
    case Drop(_) => false
    case SetKind(_, typ, _, _, _) => typ == 0 ==> Bare(f.ip)
    case TakeBlock(_, b) => 0 <= b < f.sb.size && !Marked(f, b)
    case ZeroBlock(_, b) => b in f.loose && 0 <= b < f.sb.size
    case SetRef(_, k, b) => 0 <= k <= NDIRECT && f.ip.addrs[k] == 0 && b in f.loose && 0 <= b < f.sb.size && f.blocks[b] == Zero()
    case SetEntry(_, j, b) =>
      0 <= j < NINDIRECT && HasIndirect(f) && Ref(f, f.cur, NDIRECT + 1 + j) == 0
      && b in f.loose && 0 <= b < f.sb.size && f.blocks[b] == Zero()
    case WriteBytes(_, n, o, d) => IsData(f, n) && 0 <= o && o + |d| <= BSIZE
    case WriteInode(_) => true
    case SetSize(_, _) => true
    case ClearRef(_, k) => 0 <= k < NDIRECT && f.ip.addrs[k] != 0
    case ClearTree(_) => f.ip.addrs[NDIRECT] != 0
    case GiveBack(_, b) => b in f.loose && 0 <= b < f.sb.size
  }

  /** What it does to it. */
  ghost function Changed(f: Volume, l: Step): Volume
    requires Shape(f) && Ready(f, l)
  {
    match l
    case SetKind(_, typ, major, minor, nlink) => Retype(f, Inode(typ, major, minor, nlink, f.ip.size, f.ip.addrs))
    case TakeBlock(_, b) => Reserve(f, b)
    case ZeroBlock(_, b) => Wipe(f, b)
    case SetRef(_, k, b) => Attach(f, k, b)
    case SetEntry(_, j, b) => AttachEntry(f, j, b)
    case WriteBytes(_, n, o, d) => PokeFile(f, n, o, d)
    case WriteInode(_) => Sync(f)
    case SetSize(_, size) => Resize(f, size)
    case ClearRef(_, k) => Detach(f, k)
    case ClearTree(_) => DetachTree(f)
    case GiveBack(_, b) => Free(f, b)
  }

  /** A step needs the lock, and touches only blocks in its own hand.  ilock refuses a free
      inode, and after setting the type to 0 iput only drops the inode. */
  ghost predicate Can(s: Sys, l: Step)
    requires SysShape(s)
  {
    Allows(s, l) == true
  }

  /** By cases; Can is its value, so that a use of Can is one check and not one for each case. */
  ghost predicate Allows(s: Sys, l: Step)
    requires SysShape(s)
  {
    0 <= l.i < s.sb.ninodes &&
    match l
    case Lock(i) => i !in s.mem && OnDisk(s, i).typ != 0
    case Unlock(i) => i in s.mem && s.mem[i] == OnDisk(s, i) && forall b :: b in s.loose ==> s.loose[b] != i
    case Claim(i, typ) => OnDisk(s, i).typ == 0 && typ != 0
    case Drop(i) => i in s.mem && s.mem[i].typ == 0 && forall b :: b in s.loose ==> s.loose[b] != i
    case _ =>
      l.i in s.mem && s.mem[l.i].typ != 0 && Ready(View(s, l.i), l) &&
      match l
      case ZeroBlock(i, b) => InHand(s, i, b)
      case SetRef(i, _, b) => InHand(s, i, b) && b in s.zeroed
      case SetEntry(i, _, b) => InHand(s, i, b) && b in s.zeroed
      case GiveBack(i, b) => InHand(s, i, b)
      case _ => true
  }

  predicate InHand(s: Sys, i: int, b: int) { b in s.loose && s.loose[b] == i }

  ghost function HandsAfter(s: Sys, f: Volume, l: Step): map<int, int>
    requires Shape(f) && Ready(f, l)
  {
    match l
    case TakeBlock(i, b) => s.loose[b := i]
    case SetRef(_, _, b) => s.loose - {b}
    case SetEntry(_, _, b) => s.loose - {b}
    case GiveBack(_, b) => s.loose - {b}
    case ClearRef(i, k) => s.loose[f.ip.addrs[k] as int := i]
    case ClearTree(i) => s.loose + map b | b in f.owner && InTree(f, b) :: i
    case _ => s.loose
  }

  function ZeroedAfter(s: Sys, l: Step): set<int>
  {
    match l
    case TakeBlock(_, b) => s.zeroed - {b}
    case ZeroBlock(_, b) => s.zeroed + {b}
    case SetRef(_, _, b) => s.zeroed - {b}
    case SetEntry(_, _, b) => s.zeroed - {b}
    case GiveBack(_, b) => s.zeroed - {b}
    case _ => s.zeroed
  }

  ghost function Apply(s: Sys, l: Step): Sys
    requires SysShape(s) && Can(s, l)
  {
    match l
    case Lock(i) => Sys(s.sb, s.blocks, s.mem[i := OnDisk(s, i)], s.owner, s.loose, s.zeroed)
    case Unlock(i) => Sys(s.sb, s.blocks, s.mem - {i}, s.owner, s.loose, s.zeroed)
    case Claim(i, typ) => Sys(s.sb, PutInode(s.sb, s.blocks, i, NewInode(typ)), s.mem, s.owner, s.loose, s.zeroed)
    case Drop(i) => Sys(s.sb, PutInode(s.sb, s.blocks, i, s.mem[i]), s.mem - {i}, s.owner, s.loose, s.zeroed)
    case _ =>
      var g := Changed(View(s, l.i), l);
      Sys(s.sb, g.blocks, s.mem[l.i := g.ip], g.owner, HandsAfter(s, View(s, l.i), l), ZeroedAfter(s, l))
  }

  // ------------------------------------------------------------------
  // One step on a volume
  // ------------------------------------------------------------------

  /** Every step keeps the volume in order, and the files of all others. */
  lemma ChangedOk(f: Volume, l: Step)
    requires FsOk(f) && Ready(f, l)
    ensures FsOk(Changed(f, l)) && OthersKept(f, Changed(f, l))
  {
    match l
    case SetKind(_, typ, major, minor, nlink) => RetypeOk(f, Inode(typ, major, minor, nlink, f.ip.size, f.ip.addrs));
    case TakeBlock(_, b) => ReserveOk(f, b);
    case ZeroBlock(_, b) => WipeOk(f, b);
    case SetRef(_, k, b) => AttachOk(f, k, b);
    case SetEntry(_, j, b) => AttachEntryOk(f, j, b);
    case WriteBytes(_, n, o, d) => PokeOk(f, n, o, d);
    case WriteInode(_) => SyncOk(f);
    case SetSize(_, size) => ResizeOk(f, size);
    case ClearRef(_, k) => DetachOk(f, k);
    case ClearTree(_) => DetachTreeOk(f);
    case GiveBack(_, b) => FreeOk(f, b);
  }

  predicate Truncates(l: Step) { l.ClearRef? || l.ClearTree? }

  function Spliced(c: seq<byte>, l: Step): (r: seq<byte>)
    requires |c| == MAXFILE * BSIZE
    ensures |r| == |c|
  {
    if l.WriteBytes? && 0 <= l.o && l.o + |l.d| <= BSIZE && 0 <= l.n < MAXFILE then Splice(c, l.n * BSIZE + l.o, l.d) else c
  }

  lemma BlockContent(f: Volume, l: Step)
    requires FsOk(f) && Ready(f, l) && (l.TakeBlock? || l.ZeroBlock? || l.GiveBack?)
    ensures Content(Changed(f, l)) == Content(f)
  {
    match l
    case TakeBlock(_, b) => ReserveOk(f, b);
    case ZeroBlock(_, b) => WipeOk(f, b);
    case GiveBack(_, b) => FreeContent(f, b);
  }

  lemma FreeContent(f: Volume, b: int)
    requires FsOk(f) && b in f.loose && 0 <= b < f.sb.size
    ensures Content(Free(f, b)) == Content(f)
  {
    FreeRefs(f, b);
    assert f.sb.BBlock(b) <= f.sb.BBlock(f.sb.size - 1);
    assert OwnersOk(f);
    SameContent(f, Free(f, b));
  }

  lemma InodeContent(f: Volume, l: Step)
    requires FsOk(f) && Ready(f, l) && (l.SetKind? || l.SetRef? || l.SetEntry? || l.WriteInode? || l.SetSize?)
    ensures Content(Changed(f, l)) == Content(f)
  {
    match l
    case SetKind(_, typ, major, minor, nlink) => RetypeOk(f, Inode(typ, major, minor, nlink, f.ip.size, f.ip.addrs));
    case SetRef(_, k, b) => AttachOk(f, k, b);
    case SetEntry(_, j, b) => AttachEntryOk(f, j, b);
    case WriteInode(_) => SyncOk(f);
    case SetSize(_, size) => ResizeOk(f, size);
  }

  lemma BytesContent(f: Volume, l: Step)
    requires FsOk(f) && Ready(f, l) && l.WriteBytes?
    ensures Content(Changed(f, l)) == Spliced(Content(f), l)
  {
    PokedContent(f, l.n, l.o, l.d);
  }

  lemma PokedContent(f: Volume, n: int, o: int, d: seq<byte>)
    requires FsOk(f) && IsData(f, n) && 0 <= o && o + |d| <= BSIZE
    ensures Content(PokeFile(f, n, o, d)) == Splice(Content(f), n * BSIZE + o, d)
  {
    PokeOk(f, n, o, d);
  }

  /** Only WriteBytes changes the bytes of the file, unless it is being truncated. */
  lemma ChangedContent(f: Volume, l: Step)
    requires FsOk(f) && Ready(f, l) && !Truncates(l)
    ensures Content(Changed(f, l)) == Spliced(Content(f), l)
  {
    if l.WriteBytes? {
      BytesContent(f, l);
    } else if l.TakeBlock? || l.ZeroBlock? || l.GiveBack? {
      BlockContent(f, l);
    } else {
      InodeContent(f, l);
    }
  }

  /** Blocks in hand are not written, but by ZeroBlock. */
  lemma LooseUntouched(f: Volume, l: Step, b: int)
    requires FsOk(f) && Ready(f, l) && b in f.loose && !(l.ZeroBlock? && l.b == b)
    ensures 0 <= b < f.sb.size == |Changed(f, l).blocks| && Changed(f, l).blocks[b] == f.blocks[b]
  {
    match l
    case WriteBytes(_, n, o, d) => assert Ref(f, f.cur, SlotOf(n)) in f.owner;
    case SetEntry(_, j, c) => assert Ref(f, f.cur, NDIRECT) in f.owner;
    case WriteInode(_) => assert f.sb.IBlock(f.cur) <= f.sb.IBlock(f.sb.ninodes - 1);
    case TakeBlock(_, c) => assert f.sb.BBlock(c) <= f.sb.BBlock(f.sb.size - 1);
    case GiveBack(_, c) => assert f.sb.BBlock(c) <= f.sb.BBlock(f.sb.size - 1);
    case _ =>
  }

  // ------------------------------------------------------------------
  // Every interleaving
  // ------------------------------------------------------------------

  /** FsOk, locked: a proof that needs what it says states Key(0), which is always true. */
  ghost predicate Fine(f: Volume) { Shape(f) && forall x {:trigger Key(x)} :: Key(x) ==> FsOk(f) }

  /** Blocks in hand are in the hand of a holder, and the zeroed ones are zero. */
  ghost predicate HandsOk(s: Sys)
  {
    && (forall b :: b in s.loose ==> s.loose[b] in s.mem)
    && (forall b :: b in s.zeroed ==> b in s.loose && 0 <= b < |s.blocks| && s.blocks[b] == Zero())
  }

  /** A free inode owns no block. */
  ghost predicate Vacant(s: Sys)
    requires SysShape(s)
  {
    forall i :: 0 <= i < s.sb.ninodes && InodeIn(s, i).typ == 0 ==> Bare(InodeIn(s, i))
  }

  /** A locked inode is not free on disk, so ialloc does not take it. */
  ghost predicate InUse(s: Sys)
    requires SysShape(s)
  {
    forall i :: i in s.mem ==> OnDisk(s, i).typ != 0
  }

  ghost predicate SysOk(s: Sys)
  {
    SysShape(s) && Fine(View(s, 0)) && forall x {:trigger Seal(x)} :: Seal(x) ==> HandsOk(s) && Vacant(s) && InUse(s)
  }

  lemma SysHands(s: Sys)
    requires SysOk(s)
    ensures HandsOk(s) && Vacant(s) && InUse(s)
  {
    assert Seal(0);
  }

  lemma SameIno(s: Sys, i: int, j: int)
    requires SysShape(s) && 0 <= i < s.sb.ninodes && 0 <= j < s.sb.ninodes
    ensures Shape(View(s, i)) && Ino(View(s, i), j) == InodeIn(s, j)
  {
  }

  /** Whoever looks, the volume is in order or it is not. */
  lemma SeenBoth(s: Sys, i: int, j: int)
    requires SysShape(s) && 0 <= i < s.sb.ninodes && 0 <= j < s.sb.ninodes && Fine(View(s, i))
    ensures Fine(View(s, j))
  {
    assert Key(0);
    forall x | 0 <= x < s.sb.ninodes ensures Ino(View(s, j), x) == Ino(View(s, i), x) {
      SameIno(s, i, x);
      SameIno(s, j, x);
    }
    SameInodes(View(s, i), View(s, j));
  }

  lemma HandKeys(s: Sys, l: Step)
    requires SysShape(s) && Can(s, l) && Working(l)
    ensures HandsAfter(s, View(s, l.i), l).Keys == Changed(View(s, l.i), l).loose
  {
  }

  /** After a step its holder sees exactly what the step made of the volume. */
  lemma SeenAfter(s: Sys, l: Step)
    requires SysShape(s) && Can(s, l) && Working(l)
    requires var g := Changed(View(s, l.i), l); Shape(g) && g.held == s.mem - {l.i} && g.sb == s.sb && g.cur == l.i
    ensures SysShape(Apply(s, l)) && View(Apply(s, l), l.i) == Changed(View(s, l.i), l)
  {
    HandKeys(s, l);
    var g, s' := Changed(View(s, l.i), l), Apply(s, l);
    assert s'.mem == s.mem[l.i := g.ip] && s'.mem - {l.i} == s.mem - {l.i};
  }

  lemma StepHands(s: Sys, l: Step)
    requires SysShape(s) && FsOk(View(s, if 0 <= l.i < s.sb.ninodes then l.i else 0)) && HandsOk(s) && Can(s, l) && Working(l)
    ensures HandsOk(Apply(s, l))
  {
    var f, s' := View(s, l.i), Apply(s, l);
    forall b | b in s'.zeroed ensures b in s'.loose && 0 <= b < |s'.blocks| && s'.blocks[b] == Zero() {
      if !(l.ZeroBlock? && l.b == b) {
        LooseUntouched(f, l, b);
      }
    }
  }

  /** The step of a holder, seen by itself. */
  lemma HolderStep(s: Sys, l: Step)
    requires SysOk(s) && Can(s, l) && Working(l)
    ensures SysOk(Apply(s, l)) && View(Apply(s, l), l.i) == Changed(View(s, l.i), l)
    ensures FsOk(View(s, l.i)) && OthersKept(View(s, l.i), View(Apply(s, l), l.i))
  {
    SeenBoth(s, 0, l.i);
    assert FsOk(View(s, l.i)) by { assert Key(0); }
    ChangedOk(View(s, l.i), l);
    SeenAfter(s, l);
    SysHands(s);
    StepHands(s, l);
    StepVacant(s, l);
    StepInUse(s, l);
    assert Fine(View(Apply(s, l), l.i));
    SeenBoth(Apply(s, l), l.i, 0);
  }

  lemma StepVacant(s: Sys, l: Step)
    requires SysShape(s) && Vacant(s) && Can(s, l) && Working(l) && SysShape(Apply(s, l))
    requires View(Apply(s, l), l.i) == Changed(View(s, l.i), l) && OthersKept(View(s, l.i), Changed(View(s, l.i), l))
    ensures Vacant(Apply(s, l))
  {
    var s' := Apply(s, l);
    TypeKept(View(s, l.i), l);
    forall i | 0 <= i < s'.sb.ninodes && InodeIn(s', i).typ == 0 ensures Bare(InodeIn(s', i)) {
      SameIno(s', l.i, i);
      SameIno(s, l.i, i);
    }
  }

  lemma StepInUse(s: Sys, l: Step)
    requires SysShape(s) && InUse(s) && Can(s, l) && Working(l) && FsOk(View(s, l.i)) && SysShape(Apply(s, l))
    requires View(Apply(s, l), l.i) == Changed(View(s, l.i), l) && OthersKept(View(s, l.i), Changed(View(s, l.i), l))
    ensures InUse(Apply(s, l))
  {
    var f, s' := View(s, l.i), Apply(s, l);
    var g := Changed(f, l);
    DiskType(f, l);
    forall i | i in s'.mem ensures OnDisk(s', i).typ != 0 {
      assert OnDisk(s', i) == DiskInode(g, i) && OnDisk(s, i) == DiskInode(f, i);
    }
  }

  /** Only iupdate writes to the blocks of inodes. */
  lemma DiskKept(f: Volume, l: Step)
    requires FsOk(f) && Ready(f, l) && !l.WriteInode?
    ensures |Changed(f, l).blocks| == |f.blocks| && forall m :: 0 <= m < f.sb.bmapstart ==> Changed(f, l).blocks[m] == f.blocks[m]
  {
    match l
    case ZeroBlock(_, b) => assert LooseOk(f);
    case SetEntry(_, _, _) => assert Ref(f, f.cur, NDIRECT) in f.owner;
    case WriteBytes(_, n, _, _) => assert Ref(f, f.cur, SlotOf(n)) in f.owner;
    case _ =>
  }

  lemma DiskType(f: Volume, l: Step)
    requires FsOk(f) && Ready(f, l) && f.ip.typ != 0 && DiskInode(f, f.cur).typ != 0 && Shape(Changed(f, l)) && Changed(f, l).sb == f.sb
    ensures DiskInode(Changed(f, l), f.cur).typ != 0
  {
    assert f.sb.IBlock(f.cur) <= f.sb.IBlock(f.sb.ninodes - 1);
    if l.WriteInode? { SyncOk(f); } else { DiskKept(f, l); }
  }

  lemma TypeKept(f: Volume, l: Step)
    requires Shape(f) && Ready(f, l) && f.ip.typ != 0
    ensures Changed(f, l).ip.typ != 0 || Bare(Changed(f, l).ip)
  {
  }

  lemma LockInode(s: Sys, l: Step, j: int)
    requires SysShape(s) && Can(s, l) && (l.Lock? || l.Unlock?) && 0 <= j < s.sb.ninodes
    ensures SysShape(Apply(s, l)) && InodeIn(Apply(s, l), j) == InodeIn(s, j)
    ensures Ino(View(Apply(s, l), 0), j) == Ino(View(s, 0), j)
  {
    SameIno(s, 0, j);
    SameIno(Apply(s, l), 0, j);
  }

  /** ilock and iunlock change no inode that counts. */
  lemma LockStep(s: Sys, l: Step)
    requires SysOk(s) && Can(s, l) && (l.Lock? || l.Unlock?)
    ensures SysOk(Apply(s, l))
    ensures forall j :: 0 <= j < s.sb.ninodes ==> InodeIn(Apply(s, l), j) == InodeIn(s, j)
  {
    LockFine(s, l);
    LockHands(s, l);
    forall j | 0 <= j < s.sb.ninodes ensures InodeIn(Apply(s, l), j) == InodeIn(s, j) {
      LockInode(s, l, j);
    }
  }

  lemma LockFine(s: Sys, l: Step)
    requires SysOk(s) && Can(s, l) && (l.Lock? || l.Unlock?)
    ensures SysShape(Apply(s, l)) && Fine(View(Apply(s, l), 0))
  {
    var s' := Apply(s, l);
    assert FsOk(View(s, 0)) by { assert Key(0); }
    forall j | 0 <= j < s.sb.ninodes ensures Ino(View(s', 0), j) == Ino(View(s, 0), j) {
      LockInode(s, l, j);
    }
    SameInodes(View(s, 0), View(s', 0));
  }

  lemma LockHands(s: Sys, l: Step)
    requires SysOk(s) && Can(s, l) && (l.Lock? || l.Unlock?)
    ensures HandsOk(Apply(s, l)) && Vacant(Apply(s, l)) && InUse(Apply(s, l))
  {
    SysHands(s);
    LockVacant(s, l, Apply(s, l));
  }

  lemma LockVacant(s: Sys, l: Step, s': Sys)
    requires SysShape(s) && Vacant(s) && InUse(s) && Can(s, l) && (l.Lock? || l.Unlock?) && s' == Apply(s, l)
    ensures SysShape(s') && Vacant(s') && InUse(s')
  {
    forall i | 0 <= i < s.sb.ninodes ensures OnDisk(s', i) == OnDisk(s, i) && InodeIn(s', i) == InodeIn(s, i) {
      LockInode(s, l, i);
    }
  }

  /** Every step of every holder keeps the whole in order. */
  lemma StepOk(s: Sys, l: Step)
    requires SysOk(s) && Can(s, l)
    ensures SysOk(Apply(s, l)) && Apply(s, l).sb == s.sb
  {
    if l.Lock? || l.Unlock? {
      LockStep(s, l);
    } else if Working(l) {
      HolderStep(s, l);
    } else {
      DiskStep(s, l);
    }
  }

  /** The inode that ialloc or the end of iput writes. */
  ghost function Written(s: Sys, l: Step): Inode
    requires SysShape(s) && Can(s, l) && (l.Claim? || l.Drop?)
  {
    if l.Claim? then NewInode(l.typ) else s.mem[l.i]
  }

  lemma PutOnDisk(f: Volume, n: Inode)
    requires FsOk(f) && n.addrs == f.ip.addrs
    ensures var g := Sync(Retype(f, n)); FsOk(g) && OthersKept(f, g) && Synced(g) && Content(g) == Content(f)
  {
    RetypeOk(f, n);
    var h := Retype(f, n);
    SyncOk(h);
    OthersKeptTwice(f, h, Sync(h));
  }

  lemma WrittenBare(s: Sys, l: Step)
    requires SysOk(s) && Can(s, l) && (l.Claim? || l.Drop?)
    ensures l.Claim? ==> l.i !in s.mem
    ensures InodeIn(s, l.i).typ == 0 && Bare(InodeIn(s, l.i)) && Bare(Written(s, l)) && Written(s, l).addrs == InodeIn(s, l.i).addrs
  {
    SysHands(s);
  }

  /** Afterwards the inode on disk counts. */
  lemma SeenWritten(s: Sys, l: Step, i: int, s': Sys)
    requires SysOk(s) && Can(s, l) && (l.Claim? || l.Drop?) && i == l.i && s' == Apply(s, l)
    ensures SysShape(s') && s'.sb == s.sb && FsOk(View(s, i)) && FsOk(View(s', i)) && OthersKept(View(s, i), View(s', i))
    ensures Content(View(s', i)) == Content(View(s, i)) && View(s', i).ip == Written(s, l)
  {
    SeenBoth(s, 0, i);
    var f, n := View(s, i), Written(s, l);
    assert FsOk(f) by { assert Key(0); }
    WrittenBare(s, l);
    PutOnDisk(f, n);
    WrittenView(s, l, i, s', n);
  }

  lemma WrittenView(s: Sys, l: Step, i: int, s': Sys, n: Inode)
    requires SysShape(s) && Can(s, l) && (l.Claim? || l.Drop?) && i == l.i && s' == Apply(s, l) && n == Written(s, l)
    requires l.Claim? ==> i !in s.mem
    requires Shape(Sync(Retype(View(s, i), n))) && Synced(Sync(Retype(View(s, i), n)))
    ensures SysShape(s') && s'.sb == s.sb && View(s', i) == Sync(Retype(View(s, i), n))
  {
    var g := Sync(Retype(View(s, i), n));
    assert s'.blocks == g.blocks;
    assert s'.mem - {i} == s.mem - {i};
    assert OnDisk(s', i) == DiskInode(g, i) == n;
  }

  /** The steps of ialloc and of the end of iput. */
  lemma DiskStep(s: Sys, l: Step)
    requires SysOk(s) && Can(s, l) && (l.Claim? || l.Drop?)
    ensures SysOk(Apply(s, l))
  {
    var s' := Apply(s, l);
    SeenWritten(s, l, l.i, s');
    assert Fine(View(s', l.i));
    SeenBoth(s', l.i, 0);
    DiskRest(s, l, s');
  }

  lemma DiskRest(s: Sys, l: Step, s': Sys)
    requires SysOk(s) && Can(s, l) && (l.Claim? || l.Drop?) && s' == Apply(s, l) && SysShape(s')
    requires OthersKept(View(s, l.i), View(s', l.i)) && View(s', l.i).ip == Written(s, l)
    ensures HandsOk(s') && Vacant(s') && InUse(s')
  {
    SysHands(s);
    WrittenBare(s, l);
    assert LooseOk(View(s, 0)) by { assert Key(0); }
    DiskHands(s, l, s');
    DiskVacant(s, l, s');
    DiskInUse(s, l, s');
  }

  lemma DiskInUse(s: Sys, l: Step, s': Sys)
    requires SysShape(s) && InUse(s) && Can(s, l) && (l.Claim? || l.Drop?) && s' == Apply(s, l) && SysShape(s')
    requires OthersKept(View(s, l.i), View(s', l.i))
    ensures InUse(s')
  {
    forall i | i in s'.mem ensures OnDisk(s', i).typ != 0 {
      assert i != l.i;
      assert OnDisk(s', i) == DiskInode(View(s', l.i), i) && OnDisk(s, i) == DiskInode(View(s, l.i), i);
    }
  }

  lemma DiskHands(s: Sys, l: Step, s': Sys)
    requires SysShape(s) && HandsOk(s) && LooseOk(View(s, 0)) && Can(s, l) && (l.Claim? || l.Drop?) && s' == Apply(s, l)
    ensures HandsOk(s')
  {
    assert s.sb.IBlock(l.i) <= s.sb.IBlock(s.sb.ninodes - 1);
    forall b | b in s'.zeroed ensures b in s'.loose && 0 <= b < |s'.blocks| && s'.blocks[b] == Zero() {
      assert b in View(s, 0).loose;
    }
  }

  lemma DiskVacant(s: Sys, l: Step, s': Sys)
    requires SysShape(s) && Vacant(s) && Can(s, l) && SysShape(s') && s'.sb == s.sb
    requires OthersKept(View(s, l.i), View(s', l.i)) && (View(s', l.i).ip.typ == 0 ==> Bare(View(s', l.i).ip))
    ensures Vacant(s')
  {
    forall i | 0 <= i < s'.sb.ninodes && InodeIn(s', i).typ == 0 ensures Bare(InodeIn(s', i)) {
      SameIno(s', l.i, i);
      SameIno(s, l.i, i);
    }
  }

  /** All bytes of the file, holes reading as zero. */
  ghost function BytesIn(s: Sys, i: int): seq<byte>
    requires SysShape(s) && 0 <= i < s.sb.ninodes
  {
    Content(View(s, i))
  }

  lemma OtherContent(f: Volume, g: Volume, s: Sys, s': Sys, j: int)
    requires FsOk(f) && OthersKept(f, g) && SysShape(s) && SysShape(s') && s.sb == s'.sb == f.sb
    requires 0 <= f.cur < s.sb.ninodes && f == View(s, f.cur) && g == View(s', f.cur) && 0 <= j < s.sb.ninodes && j != f.cur
    ensures InodeIn(s', j) == InodeIn(s, j) && BytesIn(s', j) == BytesIn(s, j)
  {
    SameIno(s, f.cur, j);
    SameIno(s', f.cur, j);
    forall o | 0 <= o < MAXFILE * BSIZE ensures BytesIn(s', j)[o] == BytesIn(s, j)[o] {
      OtherByte(f, g, j, o);
    }
  }

  /** A step of one holder leaves the inode and the file of every other as they were,
      locked or not. */
  lemma OthersUnseen(s: Sys, l: Step, j: int)
    requires SysOk(s) && Can(s, l) && 0 <= j < s.sb.ninodes && (j != l.i || l.Lock? || l.Unlock? || l.Drop?)
    ensures SysShape(Apply(s, l)) && InodeIn(Apply(s, l), j) == InodeIn(s, j) && BytesIn(Apply(s, l), j) == BytesIn(s, j)
  {
    if l.Lock? || l.Unlock? {
      LockUnseen(s, l, j);
    } else if Working(l) {
      HolderUnseen(s, l, j);
    } else {
      DiskUnseen(s, l, j, Apply(s, l));
    }
  }

  lemma LockUnseen(s: Sys, l: Step, j: int)
    requires SysOk(s) && Can(s, l) && 0 <= j < s.sb.ninodes && (l.Lock? || l.Unlock?)
    ensures SysShape(Apply(s, l)) && InodeIn(Apply(s, l), j) == InodeIn(s, j) && BytesIn(Apply(s, l), j) == BytesIn(s, j)
  {
    LockInode(s, l, j);
    assert forall o :: 0 <= o < MAXFILE * BSIZE ==> BytesIn(Apply(s, l), j)[o] == BytesIn(s, j)[o];
  }

  lemma HolderUnseen(s: Sys, l: Step, j: int)
    requires SysOk(s) && Can(s, l) && 0 <= j < s.sb.ninodes && Working(l) && j != l.i
    ensures SysShape(Apply(s, l)) && InodeIn(Apply(s, l), j) == InodeIn(s, j) && BytesIn(Apply(s, l), j) == BytesIn(s, j)
  {
    HolderStep(s, l);
    OtherContent(View(s, l.i), View(Apply(s, l), l.i), s, Apply(s, l), j);
  }

  lemma DiskUnseen(s: Sys, l: Step, j: int, s': Sys)
    requires SysOk(s) && Can(s, l) && 0 <= j < s.sb.ninodes && (l.Drop? || (l.Claim? && j != l.i)) && s' == Apply(s, l)
    ensures SysShape(s') && InodeIn(s', j) == InodeIn(s, j) && BytesIn(s', j) == BytesIn(s, j)
  {
    SeenWritten(s, l, l.i, s');
    if j != l.i { OtherContent(View(s, l.i), View(s', l.i), s, s', j); }
  }

  /** A volume with nothing locked and nothing in hand, as mkfs makes it. */
  ghost function Unlocked(f: Volume): Sys { Sys(f.sb, f.blocks, map[], f.owner, map[], {}) }

  /** No free inode owns a block. */
  ghost predicate NoOrphans(f: Volume)
    requires Shape(f)
  {
    forall i :: 0 <= i < f.sb.ninodes && Ino(f, i).typ == 0 ==> Bare(Ino(f, i))
  }

  lemma UnlockedIno(f: Volume, j: int)
    requires Shape(f) && Synced(f) && f.held == map[] && 0 <= j < f.sb.ninodes
    ensures SysShape(Unlocked(f)) && InodeIn(Unlocked(f), j) == Ino(f, j) && Ino(View(Unlocked(f), 0), j) == Ino(f, j)
  {
    var s := Unlocked(f);
    SameIno(s, 0, j);
    assert OnDisk(s, j) == DiskInode(f, j);
  }

  lemma UnlockedOk(f: Volume)
    requires FsOk(f) && Synced(f) && f.held == map[] && f.loose == {} && NoOrphans(f)
    ensures SysOk(Unlocked(f))
  {
    var s := Unlocked(f);
    forall j | 0 <= j < f.sb.ninodes ensures Ino(View(s, 0), j) == Ino(f, j) { UnlockedIno(f, j); }
    SameInodes(f, View(s, 0));
    UnlockedVacant(f);
  }

  lemma UnlockedVacant(f: Volume)
    requires Shape(f) && Synced(f) && f.held == map[] && NoOrphans(f)
    ensures SysShape(Unlocked(f)) && Vacant(Unlocked(f))
  {
    var s := Unlocked(f);
    forall i | 0 <= i < s.sb.ninodes && InodeIn(s, i).typ == 0 ensures Bare(InodeIn(s, i)) { UnlockedIno(f, i); }
  }

  // ------------------------------------------------------------------
  // Runs
  // ------------------------------------------------------------------

  ghost predicate StepAt(run: seq<Sys>, ls: seq<Step>, k: int)
    requires 0 <= k < |ls| < |run|
  {
    SysShape(run[k]) && Can(run[k], ls[k]) && run[k + 1] == Apply(run[k], ls[k])
  }

  ghost predicate IsRun(run: seq<Sys>, ls: seq<Step>)
  {
    |run| == |ls| + 1 && forall k :: 0 <= k < |ls| ==> StepAt(run, ls, k)
  }

  lemma NextOk(run: seq<Sys>, ls: seq<Step>, k: nat)
    requires IsRun(run, ls) && k < |ls| && SysOk(run[k])
    ensures SysOk(run[k + 1]) && run[k + 1].sb == run[k].sb
  {
    assert StepAt(run, ls, k);
    StepOk(run[k], ls[k]);
  }

  /** In every state of every interleaving the volume is in order. */
  lemma {:induction false} RunOk(run: seq<Sys>, ls: seq<Step>, k: nat)
    requires IsRun(run, ls) && SysOk(run[0]) && k < |run|
    ensures SysOk(run[k]) && run[k].sb == run[0].sb
  {
    if k > 0 {
      RunOk(run, ls, k - 1);
      NextOk(run, ls, k - 1);
    }
  }

  /** An inode, locked or not, refers to block b. */
  ghost predicate RefersTo(s: Sys, b: int)
    requires SysShape(s)
  {
    b != 0 && exists i, k {:trigger RefIn(s, i, k)} :: 0 <= i < s.sb.ninodes && 0 <= k < SLOTS && RefIn(s, i, k) == b
  }

  /** Reference k of the inode that counts. */
  ghost function RefIn(s: Sys, i: int, k: int): word
    requires SysShape(s) && 0 <= i < s.sb.ninodes && 0 <= k < SLOTS
  {
    RefOf(s.blocks, InodeIn(s, i), k)
  }

  ghost predicate MarkedIn(s: Sys, b: int)
    requires SysShape(s) && 0 <= b < s.sb.size
  {
    Marked(View(s, 0), b)
  }

  lemma SameRef(s: Sys, i: int, k: int)
    requires SysShape(s) && 0 <= i < s.sb.ninodes && 0 <= k < SLOTS
    ensures Ref(View(s, 0), i, k) == RefIn(s, i, k)
  {
    SameIno(s, 0, i);
  }

  lemma MarksIn(s: Sys, b: int)
    requires SysOk(s) && 0 <= b < s.sb.size
    ensures MarkedIn(s, b) <==> b < s.sb.datastart || RefersTo(s, b) || b in s.loose
    ensures RefersTo(s, b) ==> b !in s.loose && b >= s.sb.datastart
  {
    assert Key(0);
    var f := View(s, 0);
    if b in f.owner {
      assert Ref(f, f.owner[b].0, f.owner[b].1) == b;
      SameRef(s, f.owner[b].0, f.owner[b].1);
    }
    if RefersTo(s, b) {
      var i, k :| 0 <= i < s.sb.ninodes && 0 <= k < SLOTS && RefIn(s, i, k) == b;
      SameRef(s, i, k);
      assert Ref(f, i, k) in f.owner;
    }
  }

  lemma SharingIn(s: Sys, i: int, k: int, j: int, l: int)
    requires SysOk(s) && 0 <= i < s.sb.ninodes && 0 <= j < s.sb.ninodes && 0 <= k < SLOTS && 0 <= l < SLOTS
    requires RefIn(s, i, k) == RefIn(s, j, l) != 0
    ensures i == j && k == l
  {
    assert Key(0);
    SameRef(s, i, k);
    SameRef(s, j, l);
    NoSharing(View(s, 0), i, k, j, l);
  }

  /** In every state of every interleaving: a block is marked exactly when it is
      metadata, or referenced, or in the hand of a holder, and never two of these. */
  lemma MarksAreReferences(run: seq<Sys>, ls: seq<Step>, k: nat, b: int)
    requires IsRun(run, ls) && SysOk(run[0]) && k < |run| && 0 <= b < run[0].sb.size
    ensures SysOk(run[k]) && run[k].sb == run[0].sb
    ensures MarkedIn(run[k], b) <==> b < run[k].sb.datastart || RefersTo(run[k], b) || b in run[k].loose
    ensures RefersTo(run[k], b) ==> b !in run[k].loose && b >= run[k].sb.datastart
  {
    RunOk(run, ls, k);
    MarksIn(run[k], b);
  }

  /** In every state of every interleaving no block is referenced twice, by one inode
      or by two, in memory or on disk. */
  lemma NeverShared(run: seq<Sys>, ls: seq<Step>, k: nat, i: int, m: int, j: int, n: int)
    requires IsRun(run, ls) && SysOk(run[0]) && k < |run| && SysShape(run[k])
    requires 0 <= i < run[k].sb.ninodes && 0 <= j < run[k].sb.ninodes && 0 <= m < SLOTS && 0 <= n < SLOTS
    requires RefIn(run[k], i, m) == RefIn(run[k], j, n) != 0
    ensures i == j && m == n
  {
    RunOk(run, ls, k);
    SharingIn(run[k], i, m, j, n);
  }

  /** In every state of every interleaving a free inode has no bytes and owns no block. */
  lemma FreeOwnsNone(run: seq<Sys>, ls: seq<Step>, k: nat, i: int, b: int)
    requires IsRun(run, ls) && SysOk(run[0]) && k < |run| && SysShape(run[k]) && 0 <= i < run[k].sb.ninodes
    requires InodeIn(run[k], i).typ == 0
    ensures InodeIn(run[k], i).size == 0 && forall m :: 0 <= m < SLOTS ==> RefIn(run[k], i, m) == 0
    ensures b in run[k].owner ==> run[k].owner[b].0 != i
  {
    RunOk(run, ls, k);
    FreeIn(run[k], i, b);
  }

  lemma FreeIn(s: Sys, i: int, b: int)
    requires SysOk(s) && 0 <= i < s.sb.ninodes && InodeIn(s, i).typ == 0
    ensures InodeIn(s, i).size == 0 && forall m :: 0 <= m < SLOTS ==> RefIn(s, i, m) == 0
    ensures b in s.owner ==> s.owner[b].0 != i
  {
    SysHands(s);
    var n := InodeIn(s, i);
    assert n.addrs[NDIRECT] == 0;
    if b in s.owner && s.owner[b].0 == i {
      assert FsOk(View(s, 0)) by { assert Key(0); }
      SameRef(s, i, s.owner[b].1);
      assert Ref(View(s, 0), i, s.owner[b].1) == b;
    }
  }

  /** With no inode locked the disk alone is in order: its marks are its references. */
  lemma QuietDisk(s: Sys, b: int)
    requires SysOk(s) && s.mem == map[] && 0 <= b < s.sb.size
    ensures s.loose == map[] && (MarkedIn(s, b) <==> b < s.sb.datastart || RefersTo(s, b))
    ensures forall i :: 0 <= i < s.sb.ninodes ==> InodeIn(s, i) == OnDisk(s, i)
  {
    MarksIn(s, b);
    SysHands(s);
    assert forall c :: c !in s.loose;
  }

  /** The bytes of file i after the steps that write to it. */
  function Writes(c: seq<byte>, ls: seq<Step>, i: int): (r: seq<byte>)
    requires |c| == MAXFILE * BSIZE
    ensures |r| == |c|
    decreases |ls|
  {
    if ls == [] then c
    else
      var d := Writes(c, ls[..|ls| - 1], i);
      if ls[|ls| - 1].i == i then Spliced(d, ls[|ls| - 1]) else d
  }

  lemma ContentStep(s: Sys, l: Step, i: int)
    requires SysOk(s) && Can(s, l) && 0 <= i < s.sb.ninodes && (l.i == i ==> !Truncates(l))
    ensures SysShape(Apply(s, l)) && BytesIn(Apply(s, l), i) == if l.i == i then Spliced(BytesIn(s, i), l) else BytesIn(s, i)
  {
    if l.i != i || l.Lock? || l.Unlock? || l.Drop? {
      OthersUnseen(s, l, i);
    } else if l.Claim? {
      SeenWritten(s, l, l.i, Apply(s, l));
    } else {
      HolderStep(s, l);
      ChangedContent(View(s, i), l);
    }
  }

  lemma ContentNext(run: seq<Sys>, ls: seq<Step>, i: int, k: nat)
    requires IsRun(run, ls) && k < |ls| && SysOk(run[k]) && 0 <= i < run[k].sb.ninodes && (ls[k].i == i ==> !Truncates(ls[k]))
    ensures SysOk(run[k + 1]) && run[k + 1].sb == run[k].sb
    ensures BytesIn(run[k + 1], i) == if ls[k].i == i then Spliced(BytesIn(run[k], i), ls[k]) else BytesIn(run[k], i)
  {
    NextOk(run, ls, k);
    assert StepAt(run, ls, k);
    ContentStep(run[k], ls[k], i);
  }

  lemma WritesOneMore(c: seq<byte>, ls: seq<Step>, i: int, k: nat)
    requires |c| == MAXFILE * BSIZE && k < |ls|
    ensures Writes(c, ls[..k + 1], i) ==
            if ls[k].i == i then Spliced(Writes(c, ls[..k], i), ls[k]) else Writes(c, ls[..k], i)
  {
    assert ls[..k + 1][..k] == ls[..k];
  }

  /** Whatever others do in between: the bytes of a file change by the writes of its own
      holder and by nothing else, in the order in which it makes them. */
  lemma {:induction false} ContentRun(run: seq<Sys>, ls: seq<Step>, i: int, k: nat)
    requires IsRun(run, ls) && SysOk(run[0]) && 0 <= i < run[0].sb.ninodes && k < |run|
    requires forall m :: 0 <= m < k && ls[m].i == i ==> !Truncates(ls[m])
    ensures SysShape(run[k]) && run[k].sb == run[0].sb && BytesIn(run[k], i) == Writes(BytesIn(run[0], i), ls[..k], i)
  {
    if k == 0 {
      assert ls[..0] == [];
    } else {
      ContentRun(run, ls, i, k - 1);
      RunOk(run, ls, k - 1);
      ContentNext(run, ls, i, k - 1);
      WritesOneMore(BytesIn(run[0], i), ls, i, k - 1);
    }
  }

  /** The size of file i after the steps that set it. */
  function Sizes(size: int, ls: seq<Step>, i: int): int
    decreases |ls|
  {
    if ls == [] then size
    else if ls[|ls| - 1].i == i && ls[|ls| - 1].SetSize? then ls[|ls| - 1].size
    else Sizes(size, ls[..|ls| - 1], i)
  }

  lemma SizeStep(s: Sys, l: Step, i: int)
    requires SysOk(s) && Can(s, l) && 0 <= i < s.sb.ninodes
    ensures SysShape(Apply(s, l))
    ensures InodeIn(Apply(s, l), i).size == if l.i == i && l.SetSize? then l.size else InodeIn(s, i).size
  {
    if l.i != i || l.Lock? || l.Unlock? || l.Drop? {
      OthersUnseen(s, l, i);
    } else if l.Claim? {
      ClaimSize(s, l, i, Apply(s, l));
    } else {
      OwnSizeStep(s, l, i, Apply(s, l));
    }
  }

  lemma ClaimSize(s: Sys, l: Step, i: int, s': Sys)
    requires SysOk(s) && Can(s, l) && l.Claim? && l.i == i && s' == Apply(s, l)
    ensures SysShape(s') && InodeIn(s', i).size == InodeIn(s, i).size
  {
    SeenWritten(s, l, i, s');
    WrittenBare(s, l);
    SameIno(s', i, i);
  }

  lemma OwnSizeStep(s: Sys, l: Step, i: int, s': Sys)
    requires SysOk(s) && Can(s, l) && Working(l) && l.i == i && s' == Apply(s, l)
    ensures SysShape(s') && InodeIn(s', i).size == if l.SetSize? then l.size else InodeIn(s, i).size
  {
    HolderStep(s, l);
    SizeChanged(View(s, i), l);
    assert InodeIn(s', i) == View(s', i).ip;
  }

  lemma SizeChanged(f: Volume, l: Step)
    requires Shape(f) && Ready(f, l)
    ensures Changed(f, l).ip.size == if l.SetSize? then l.size else f.ip.size
  {
  }

  lemma SizeNext(run: seq<Sys>, ls: seq<Step>, i: int, k: nat)
    requires IsRun(run, ls) && k < |ls| && SysOk(run[k]) && 0 <= i < run[k].sb.ninodes
    ensures SysOk(run[k + 1]) && run[k + 1].sb == run[k].sb
    ensures InodeIn(run[k + 1], i).size == if ls[k].i == i && ls[k].SetSize? then ls[k].size else InodeIn(run[k], i).size
  {
    NextOk(run, ls, k);
    assert StepAt(run, ls, k);
    SizeStep(run[k], ls[k], i);
  }

  /** So the size and the bytes of a file depend on the steps of its own holder alone. */
  lemma {:induction false} SizeRun(run: seq<Sys>, ls: seq<Step>, i: int, k: nat)
    requires IsRun(run, ls) && SysOk(run[0]) && 0 <= i < run[0].sb.ninodes && k < |run|
    ensures SysShape(run[k]) && run[k].sb == run[0].sb && InodeIn(run[k], i).size == Sizes(InodeIn(run[0], i).size, ls[..k], i)
  {
    if k == 0 {
      assert ls[..0] == [];
    } else {
      var j: nat := k - 1;
      SizeRun(run, ls, i, j);
      RunOk(run, ls, j);
      SizeNext(run, ls, i, j);
      SizesOneMore(InodeIn(run[0], i).size, ls, i, j);
      assert run[j + 1] == run[k];
    }
  }

  lemma SizesOneMore(size: int, ls: seq<Step>, i: int, k: nat)
    requires k < |ls|
    ensures Sizes(size, ls[..k + 1], i) == if ls[k].i == i && ls[k].SetSize? then ls[k].size else Sizes(size, ls[..k], i)
  {
    assert ls[..k + 1][..k] == ls[..k];
  }
}

/** What one process does between ilock and iunlock, as steps of the machine of
    interleaved holders. */
module FsSteps {
  import opened Sealing
  import opened FsBytes
  import opened FsModel
  import opened FsProofs
  import opened FsRuns
  import Runs

  /** The volume as the process sees it, the blocks in its hand, and which of these it
      has zeroed. */
  datatype Mine = Mine(f: Volume, hand: set<int>, zeroed: set<int>)

  ghost predicate Able(x: Mine, l: Step)
  {
    && Shape(x.f) && l.i == x.f.cur && Ready(x.f, l) && !l.SetKind?
    && match l
       case ZeroBlock(_, b) => b in x.hand
       case SetRef(_, _, b) => b in x.hand && b in x.zeroed
       case SetEntry(_, _, b) => b in x.hand && b in x.zeroed
       case GiveBack(_, b) => b in x.hand
       case _ => true
  }

  ghost function HandAfter(x: Mine, l: Step): set<int>
    requires Able(x, l)
  {
    match l
    case TakeBlock(_, b) => x.hand + {b}
    case SetRef(_, _, b) => x.hand - {b}
    case SetEntry(_, _, b) => x.hand - {b}
    case GiveBack(_, b) => x.hand - {b}
    case ClearRef(_, k) => x.hand + {x.f.ip.addrs[k] as int}
    case ClearTree(_) => x.hand + set b | b in x.f.owner && InTree(x.f, b)
    case _ => x.hand
  }

  function CleanAfter(zeroed: set<int>, l: Step): set<int>
  {
    match l
    case TakeBlock(_, b) => zeroed - {b}
    case ZeroBlock(_, b) => zeroed + {b}
    case SetRef(_, _, b) => zeroed - {b}
    case SetEntry(_, _, b) => zeroed - {b}
    case GiveBack(_, b) => zeroed - {b}
    case _ => zeroed
  }

  ghost function Do(x: Mine, l: Step): Mine
    requires Able(x, l)
  {
    Mine(Changed(x.f, l), HandAfter(x, l), CleanAfter(x.zeroed, l))
  }

  ghost predicate StepTo(x: Mine, l: Step, y: Mine) { Able(x, l) && y == Do(x, l) }

  /** The steps lead from x to y. */
  ghost predicate Leads(x: Mine, ls: seq<Step>, y: Mine) { Runs.Leads(StepTo, x, ls, y) }

  lemma LeadsThen(x: Mine, ls: seq<Step>, y: Mine, ms: seq<Step>, z: Mine)
    requires Leads(x, ls, y) && Leads(y, ms, z)
    ensures Leads(x, ls + ms, z)
  {
    Runs.LeadsThen(StepTo, x, ls, y, ms, z);
  }

  /** Turned: the steps lead from f, with nothing in hand, to g, with what g has loose and f
      has not. */
  ghost predicate Steps(f: Volume, ls: seq<Step>, g: Volume)
  {
    forall x {:trigger Turn(x)} :: Turn(x) ==> Leads(Mine(f, {}, {}), ls, Mine(g, g.loose - f.loose, {}))
  }

  lemma StepsAre(f: Volume, ls: seq<Step>, g: Volume)
    requires Steps(f, ls, g)
    ensures Leads(Mine(f, {}, {}), ls, Mine(g, g.loose - f.loose, {}))
  {
    assert Turn(0);
  }

  lemma NoSteps(f: Volume)
    ensures Steps(f, [], f)
  {
    assert f.loose - f.loose == {};
    Runs.LeadsNowhere(StepTo, Mine(f, {}, {}));
  }

  lemma StepsThen(f: Volume, ls: seq<Step>, g: Volume, ms: seq<Step>, h: Volume)
    requires Steps(f, ls, g) && g.loose == f.loose && Steps(g, ms, h)
    ensures Steps(f, ls + ms, h)
  {
    StepsAre(f, ls, g);
    StepsAre(g, ms, h);
    assert g.loose - f.loose == {};
    LeadsThen(Mine(f, {}, {}), ls, Mine(g, {}, {}), ms, Mine(h, h.loose - f.loose, {}));
  }

  lemma OneStep(x: Mine, l: Step)
    requires Able(x, l)
    ensures Leads(x, [l], Do(x, l))
  {
    Runs.LeadsOnce(StepTo, x, l, Do(x, l));
  }

  lemma TwoSteps(x: Mine, l: Step, m: Step)
    requires Able(x, l) && Able(Do(x, l), m)
    ensures Leads(x, [l, m], Do(Do(x, l), m))
  {
    OneStep(x, l);
    OneStep(Do(x, l), m);
    LeadsThen(x, [l], Do(x, l), [m], Do(Do(x, l), m));
    assert [l] + [m] == [l, m];
  }

  // ------------------------------------------------------------------
  // The steps that the methods of fs.c make
  // ------------------------------------------------------------------

  function Gives(i: int, b: int): seq<Step> { [TakeBlock(i, b), ZeroBlock(i, b)] }

  /** balloc. */
  lemma BallocSteps(f: Volume, b: int)
    requires Shape(f) && 0 <= b < f.sb.size && !Marked(f, b)
    ensures Leads(Mine(f, {}, {}), Gives(f.cur, b), Mine(Alloc(f, b), {b}, {b}))
  {
    var x := Mine(f, {}, {});
    TwoSteps(x, TakeBlock(f.cur, b), ZeroBlock(f.cur, b));
    assert {} + {b} == {b} && ({} - {b}) + {b} == {b};
  }

  /** A new block in a reference of the inode. */
  lemma RefSteps(f: Volume, k: int, b: word)
    requires Shape(f) && 0 <= b < f.sb.size && !Marked(f, b) && 0 <= k <= NDIRECT && f.ip.addrs[k] == 0 && b as int !in f.loose
    ensures Steps(f, Gives(f.cur, b) + [SetRef(f.cur, k, b)], Attach(Alloc(f, b), k, b))
  {
    BallocSteps(f, b);
    var y := Mine(Alloc(f, b), {b as int}, {b as int});
    OneStep(y, SetRef(f.cur, k, b));
    var g := Attach(Alloc(f, b), k, b);
    assert g.loose - f.loose == {};
    LeadsThen(Mine(f, {}, {}), Gives(f.cur, b), y, [SetRef(f.cur, k, b)], Mine(g, {}, {}));
  }

  lemma EntrySteps(f: Volume, j: int, b: word)
    requires FsOk(f) && 0 <= b < f.sb.size && !Marked(f, b) && 0 <= j < NINDIRECT && HasIndirect(f)
    requires Ref(f, f.cur, NDIRECT + 1 + j) == 0
    ensures Steps(f, Gives(f.cur, b) + [SetEntry(f.cur, j, b)], AttachEntry(Alloc(f, b), j, b))
  {
    BallocSteps(f, b);
    EntryAble(f, j, b);
    var y := Mine(Alloc(f, b), {b as int}, {b as int});
    OneStep(y, SetEntry(f.cur, j, b));
    var g := AttachEntry(Alloc(f, b), j, b);
    assert g.loose - f.loose == {};
    LeadsThen(Mine(f, {}, {}), Gives(f.cur, b), y, [SetEntry(f.cur, j, b)], Mine(g, {}, {}));
  }

  lemma EntryAble(f: Volume, j: int, b: word)
    requires FsOk(f) && 0 <= b < f.sb.size && !Marked(f, b) && 0 <= j < NINDIRECT && HasIndirect(f)
    requires Ref(f, f.cur, NDIRECT + 1 + j) == 0
    ensures Able(Mine(Alloc(f, b), {b as int}, {b as int}), SetEntry(f.cur, j, b)) && b as int !in f.loose
  {
    AllocOk(f, b);
    var h := Alloc(f, b);
    assert Ref(h, h.cur, NDIRECT + 1 + j) == Ref(f, f.cur, NDIRECT + 1 + j);
  }

  lemma BytesSteps(f: Volume, n: int, o: int, d: seq<byte>)
    requires Shape(f) && IsData(f, n) && 0 <= o && o + |d| <= BSIZE
    ensures Steps(f, [WriteBytes(f.cur, n, o, d)], PokeFile(f, n, o, d))
  {
    OneStep(Mine(f, {}, {}), WriteBytes(f.cur, n, o, d));
    assert PokeFile(f, n, o, d).loose - f.loose == {};
  }

  /** A new size, and iupdate. */
  lemma SizeSteps(f: Volume, size: word)
    requires Shape(f)
    ensures Steps(f, [SetSize(f.cur, size), WriteInode(f.cur)], Sync(Resize(f, size)))
  {
    TwoSteps(Mine(f, {}, {}), SetSize(f.cur, size), WriteInode(f.cur));
    assert Sync(Resize(f, size)).loose - f.loose == {};
  }

  /** A direct reference is given up, and its block freed. */
  lemma DropSteps(f: Volume, k: int)
    requires Shape(f) && 0 <= k < NDIRECT && f.ip.addrs[k] != 0 && f.ip.addrs[k] < f.sb.size && f.ip.addrs[k] as int !in f.loose
    ensures Steps(f, [ClearRef(f.cur, k), GiveBack(f.cur, f.ip.addrs[k])], Free(Detach(f, k), f.ip.addrs[k]))
  {
    var b: int := f.ip.addrs[k];
    TwoSteps(Mine(f, {}, {}), ClearRef(f.cur, k), GiveBack(f.cur, b));
    assert ({} + {b}) - {b} == {} && {} - {b} == {};
    assert Free(Detach(f, k), b).loose - f.loose == {};
  }

  /** The indirect block and all it lists are in hand. */
  lemma TreeSteps(f: Volume)
    requires Shape(f) && f.ip.addrs[NDIRECT] != 0 && forall b :: b in f.owner ==> b !in f.loose
    ensures Steps(f, [ClearTree(f.cur)], DetachTree(f))
  {
    OneStep(Mine(f, {}, {}), ClearTree(f.cur));
    var tree := set b | b in f.owner && InTree(f, b);
    assert DetachTree(f).loose - f.loose == tree && {} + tree == tree;
  }

  /** One of the blocks in hand is freed. */
  lemma GiveSteps(f: Volume, ls: seq<Step>, g: Volume, b: int)
    requires Steps(f, ls, g) && Shape(g) && b in g.loose && b !in f.loose && 0 <= b < g.sb.size
    ensures Steps(f, ls + [GiveBack(g.cur, b)], Free(g, b))
  {
    StepsAre(f, ls, g);
    var y := Mine(g, g.loose - f.loose, {});
    OneStep(y, GiveBack(g.cur, b));
    assert Free(g, b).loose - f.loose == y.hand - {b};
    LeadsThen(Mine(f, {}, {}), ls, y, [GiveBack(g.cur, b)], Mine(Free(g, b), Free(g, b).loose - f.loose, {}));
  }

  // ------------------------------------------------------------------
  // What a sequence of steps writes
  // ------------------------------------------------------------------

  /** The bytes written, in order. */
  function Put(ls: seq<Step>): seq<byte>
  {
    if ls == [] then [] else Put(ls[..|ls| - 1]) + if ls[|ls| - 1].WriteBytes? then ls[|ls| - 1].d else []
  }

  /** Each write goes on where the one before has stopped. */
  ghost predicate InTurn(ls: seq<Step>, off: int)
  {
    forall m :: 0 <= m < |ls| && ls[m].WriteBytes? ==> GoesOn(ls[m], off + |Put(ls[..m])|)
  }

  predicate GoesOn(l: Step, at: int)
    requires l.WriteBytes?
  {
    0 <= l.n < MAXFILE && 0 <= l.o && l.o + |l.d| <= BSIZE && l.n * BSIZE + l.o == at
  }

  /** Steps that neither write bytes nor set the size nor truncate: those of bmap. */
  predicate Quiet(ls: seq<Step>)
  {
    forall m :: 0 <= m < |ls| ==> !ls[m].WriteBytes? && !ls[m].SetSize? && !Truncates(ls[m])
  }

  function Sized(size: int, ls: seq<Step>): int
  {
    if ls == [] then size else if ls[|ls| - 1].SetSize? then ls[|ls| - 1].size else Sized(size, ls[..|ls| - 1])
  }

  /** The loop of writei: d is written from off on, and the size is as it was; turned. */
  ghost predicate Writes(ls: seq<Step>, off: int, d: seq<byte>)
  {
    forall x {:trigger Turn(x)} :: Turn(x) ==>
      InTurn(ls, off) && Put(ls) == d && forall m :: 0 <= m < |ls| ==> !ls[m].SetSize? && !Truncates(ls[m])
  }

  lemma WritesNone(off: int)
    ensures Writes([], off, [])
  {
  }

  lemma PutOn(ls: seq<Step>, l: Step)
    ensures Put(ls + [l]) == Put(ls) + if l.WriteBytes? then l.d else []
  {
    assert (ls + [l])[..|ls|] == ls;
  }

  lemma InTurnOn(ls: seq<Step>, off: int, l: Step)
    requires InTurn(ls, off) && (l.WriteBytes? ==> GoesOn(l, off + |Put(ls)|))
    ensures InTurn(ls + [l], off)
  {
    var ms := ls + [l];
    forall m | 0 <= m < |ms| && ms[m].WriteBytes? ensures GoesOn(ms[m], off + |Put(ms[..m])|) {
      assert ms[..m] == ls[..m];
      if m == |ls| { assert ls[..m] == ls; }
    }
  }

  lemma WritesOn(ls: seq<Step>, off: int, d: seq<byte>, l: Step, d': seq<byte>)
    requires Writes(ls, off, d) && !l.SetSize? && !Truncates(l)
    requires if l.WriteBytes? then GoesOn(l, off + |d|) && d' == d + l.d else d' == d
    ensures Writes(ls + [l], off, d')
  {
    assert Turn(0);
    PutOn(ls, l);
    InTurnOn(ls, off, l);
    assert d + [] == d;
  }

  lemma {:induction false} WritesQuiet(ls: seq<Step>, off: int, d: seq<byte>, ms: seq<Step>)
    requires Writes(ls, off, d) && Quiet(ms)
    ensures Writes(ls + ms, off, d)
    decreases |ms|
  {
    if ms == [] {
      assert ls + ms == ls;
    } else {
      var n := |ms| - 1;
      WritesQuiet(ls, off, d, ms[..n]);
      WritesOn(ls + ms[..n], off, d, ms[n], d);
      assert ls + ms[..n] + [ms[n]] == ls + ms;
    }
  }

  /** writei of d at off, in a file of the given size. */
  ghost predicate WriteiSteps(ls: seq<Step>, off: int, d: seq<byte>, size: int)
  {
    && 0 <= off <= size && off + |d| <= MAXFILE * BSIZE
    && InTurn(ls, off) && Put(ls) == d && Sized(size, ls) == (if off + |d| > size then off + |d| else size)
    && forall m :: 0 <= m < |ls| ==> !Truncates(ls[m])
  }

  lemma {:induction false} SizedSame(size: int, ls: seq<Step>)
    requires forall m :: 0 <= m < |ls| ==> !ls[m].SetSize?
    ensures Sized(size, ls) == size
    decreases |ls|
  {
    if ls != [] { SizedSame(size, ls[..|ls| - 1]); }
  }

  /** Inside the file. */
  lemma WriteiInside(ls: seq<Step>, off: int, d: seq<byte>, size: int)
    requires Writes(ls, off, d) && 0 <= off && off + |d| <= size <= MAXFILE * BSIZE
    ensures WriteiSteps(ls, off, d, size)
  {
    assert Turn(0);
    SizedSame(size, ls);
  }

  /** Past its end. */
  lemma WriteiPast(ls: seq<Step>, off: int, d: seq<byte>, size: int, i: int, n: word)
    requires Writes(ls, off, d) && 0 <= off <= size < off + |d| == n <= MAXFILE * BSIZE
    ensures WriteiSteps(ls + [SetSize(i, n), WriteInode(i)], off, d, size)
  {
    assert Turn(0);
    var l, m := SetSize(i, n), WriteInode(i);
    PutOn(ls, l);
    InTurnOn(ls, off, l);
    PutOn(ls + [l], m);
    InTurnOn(ls + [l], off, m);
    var ms := ls + [l] + [m];
    assert ls + [l, m] == ms && ms[..|ms| - 1] == ls + [l] && d + [] == d;
  }

  // ------------------------------------------------------------------
  // Such steps are a run of the machine
  // ------------------------------------------------------------------

  /** The process that has inode i locked in s sees x. */
  ghost predicate Sees(s: Sys, i: int, x: Mine)
  {
    && SysOk(s) && i in s.mem && 0 <= i < s.sb.ninodes && View(s, i) == x.f && x.f.ip.typ != 0
    && (forall b :: b in x.hand <==> InHand(s, i, b)) && x.zeroed <= s.zeroed
  }

  lemma SeesStep(s: Sys, i: int, x: Mine, l: Step)
    requires Sees(s, i, x) && Able(x, l)
    ensures Can(s, l) && Sees(Apply(s, l), i, Do(x, l))
  {
    HolderStep(s, l);
    HandStep(s, i, x, l);
    SameType(x.f, l);
  }

  lemma SameType(f: Volume, l: Step)
    requires Shape(f) && Ready(f, l) && !l.SetKind?
    ensures Changed(f, l).ip.typ == f.ip.typ
  {
  }

  lemma HandStep(s: Sys, i: int, x: Mine, l: Step)
    requires SysShape(s) && 0 <= i < s.sb.ninodes && i in s.mem && View(s, i) == x.f && Able(x, l) && Can(s, l)
    requires (forall b :: b in x.hand <==> InHand(s, i, b)) && x.zeroed <= s.zeroed
    ensures i in Apply(s, l).mem && Do(x, l).zeroed <= Apply(s, l).zeroed
    ensures forall b :: b in Do(x, l).hand <==> InHand(Apply(s, l), i, b)
  {
  }

  lemma {:induction false} SeesRun(s: Sys, i: int, path: seq<Mine>, ls: seq<Step>, k: nat) returns (run: seq<Sys>)
    requires Runs.IsRunOf(StepTo, path, ls) && Sees(s, i, path[0]) && k <= |ls|
    ensures IsRun(run, ls[..k]) && run[0] == s && Sees(run[k], i, path[k])
  {
    if k == 0 {
      run := [s];
      assert ls[..0] == [];
    } else {
      var j: nat := k - 1;
      var r := SeesRun(s, i, path, ls, j);
      assert StepTo(path[j], ls[j], path[j + 1]);
      SeesStep(r[j], i, path[j], ls[j]);
      run := r + [Apply(r[j], ls[j])];
      RunOn(r, ls, j, run);
      assert path[j + 1] == path[k];
    }
  }

  lemma RunOn(r: seq<Sys>, ls: seq<Step>, j: nat, run: seq<Sys>)
    requires j < |ls| && IsRun(r, ls[..j]) && SysShape(r[j]) && Can(r[j], ls[j]) && run == r + [Apply(r[j], ls[j])]
    ensures IsRun(run, ls[..j + 1])
  {
    var ms := ls[..j + 1];
    forall k | 0 <= k < |ms| ensures StepAt(run, ms, k) {
      if k < j {
        assert StepAt(r, ls[..j], k);
        assert run[k] == r[k] && run[k + 1] == r[k + 1] && ms[k] == ls[..j][k];
      }
    }
  }

  /** The process that has inode i locked has nothing in hand, and the inode is in use. */
  ghost predicate Between(s: Sys, i: int)
  {
    && SysOk(s) && i in s.mem && 0 <= i < s.sb.ninodes && s.mem[i].typ != 0
    && forall b :: b in s.loose ==> s.loose[b] != i
  }

  /** What a method reports as its steps is a run of the machine by this holder, from any
      state of the whole that it sees as f to one that it sees as g. */
  lemma MethodIsRun(s: Sys, i: int, ls: seq<Step>, g: Volume) returns (run: seq<Sys>)
    requires Between(s, i) && Steps(View(s, i), ls, g) && g.loose == View(s, i).loose
    ensures IsRun(run, ls) && run[0] == s && run[|ls|].sb == s.sb && Between(run[|ls|], i) && View(run[|ls|], i) == g
  {
    StepsAre(View(s, i), ls, g);
    var x, y := Mine(View(s, i), {}, {}), Mine(g, {}, {});
    assert g.loose - View(s, i).loose == {};
    var path: seq<Mine> :| Runs.IsRunOf(StepTo, path, ls) && path[0] == x && path[|ls|] == y;
    run := SeesRun(s, i, path, ls, |ls|);
    assert ls[..|ls|] == ls;
    RunOk(run, ls, |ls|);
  }

  /** The end of iput on an inode without links and without blocks: the type is 0, and
      the inode is forgotten. */
  function Ends(i: int, n: Inode): seq<Step> { [SetKind(i, 0, n.major, n.minor, n.nlink), Drop(i)] }

  lemma DestroyIsRun(s: Sys, i: int, ls: seq<Step>, g: Volume) returns (run: seq<Sys>)
    requires Between(s, i) && Steps(View(s, i), ls, g) && g.loose == View(s, i).loose && Bare(g.ip)
    ensures var all := ls + Ends(i, g.ip);
            && IsRun(run, all) && run[0] == s && SysOk(run[|all|]) && run[|all|].sb == s.sb
            && i !in run[|all|].mem && OnDisk(run[|all|], i).typ == 0
  {
    var r := MethodIsRun(s, i, ls, g);
    var l, m := SetKind(i, 0, g.ip.major, g.ip.minor, g.ip.nlink), Drop(i);
    var u, w := EndStates(r[|ls|], i, l, m);
    RunAnd(r, ls, l, u);
    RunAnd(r + [u], ls + [l], m, w);
    run := r + [u] + [w];
    assert ls + [l] + [m] == ls + Ends(i, g.ip);
  }

  ghost predicate Follows(s: Sys, l: Step, s': Sys) { SysShape(s) && Can(s, l) && s' == Apply(s, l) }

  lemma RunAnd(r: seq<Sys>, ls: seq<Step>, l: Step, u: Sys)
    requires IsRun(r, ls) && Follows(r[|ls|], l, u)
    ensures IsRun(r + [u], ls + [l])
  {
    var ms := ls + [l];
    assert ms[..|ls|] == ls && ms[..|ls| + 1] == ms;
    RunOn(r, ms, |ls|, r + [u]);
  }

  lemma EndStates(t: Sys, i: int, l: Step, m: Step) returns (u: Sys, w: Sys)
    requires Between(t, i) && l.SetKind? && l.i == i && l.typ == 0 && Bare(View(t, i).ip) && m == Drop(i)
    ensures Follows(t, l, u) && Follows(u, m, w) && SysOk(w) && w.sb == t.sb && i !in w.mem && OnDisk(w, i).typ == 0
  {
    KindStep(t, l);
    u := Apply(t, l);
    DropStep(u, m);
    w := Apply(u, m);
  }

  lemma KindStep(s: Sys, l: Step)
    requires Between(s, l.i) && l.SetKind? && l.typ == 0 && Bare(View(s, l.i).ip)
    ensures Can(s, l) && SysOk(Apply(s, l)) && Apply(s, l).sb == s.sb && Can(Apply(s, l), Drop(l.i))
  {
    StepOk(s, l);
  }

  lemma DropStep(s: Sys, l: Step)
    requires SysOk(s) && l.Drop? && Can(s, l)
    ensures SysOk(Apply(s, l)) && Apply(s, l).sb == s.sb && l.i !in Apply(s, l).mem && OnDisk(Apply(s, l), l.i).typ == 0
  {
    StepOk(s, l);
    SeenWritten(s, l, l.i, Apply(s, l));
    SameIno(Apply(s, l), l.i, l.i);
  }
}

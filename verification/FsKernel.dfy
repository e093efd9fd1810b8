/** The file system of lab2/fs.c on the log of lab2/log.c, with crashes.

    Operations of several processes interleave, each between begin_op and end_op; a
    step of fs.c that changes a block gives it to log_write; and the machine may stop
    between any two steps, also while it commits or recovers. */
module FsKernel {
  import opened Sealing
  import opened FsBytes
  import opened FsModel
  import opened FsProofs
  import opened FsRuns
  import Lg = LogMachine
  import Lp = LogProofs

  // ------------------------------------------------------------------
  // Blocks as the log sees them
  // ------------------------------------------------------------------

  /** A block of bytes as the words that the log copies. */
  function AsWords(b: Block): (w: Lg.Block)
    ensures forall j :: 0 <= j < WORDS ==> w[j] == Word(b, j)
  {
    seq(Lg.WORDS, j requires 0 <= j < Lg.WORDS => Word(b, j) as int)
  }

  lemma ComposeInjective(a0: byte, a1: byte, a2: byte, a3: byte, b0: byte, b1: byte, b2: byte, b3: byte)
    requires Compose(a0, a1, a2, a3) == Compose(b0, b1, b2, b3)
    ensures a0 == b0 && a1 == b1 && a2 == b2 && a3 == b3
  {
    LowByte(a0, a1 + 0x100 * (a2 + 0x100 * a3), b0, b1 + 0x100 * (b2 + 0x100 * b3));
    LowByte(a1, a2 + 0x100 * a3, b1, b2 + 0x100 * b3);
    LowByte(a2, a3, b2, b3);
  }

  lemma LowByte(a: byte, x: int, b: byte, y: int)
    requires a + 0x100 * x == b + 0x100 * y
    ensures a == b && x == y
  {
  }

  /** Nothing is lost on the way. */
  lemma AsWordsInjective(a: Block, b: Block)
    requires AsWords(a) == AsWords(b)
    ensures a == b
  {
    forall k | 0 <= k < BSIZE ensures a[k] == b[k] {
      var j := k / 4;
      assert AsWords(a)[j] == AsWords(b)[j];
      ComposeInjective(a[4 * j], a[4 * j + 1], a[4 * j + 2], a[4 * j + 3], b[4 * j], b[4 * j + 1], b[4 * j + 2], b[4 * j + 3]);
    }
  }

  // ------------------------------------------------------------------
  // The block that a step changes
  // ------------------------------------------------------------------

  /** The block that the step gives to log_write, or -1. */
  ghost function Target(f: Volume, l: Step): int
    requires Shape(f) && Ready(f, l)
  {
    match l
    case TakeBlock(_, b) => f.sb.BBlock(b)
    case ZeroBlock(_, b) => b
    case SetEntry(_, _, _) => f.ip.addrs[NDIRECT]
    case WriteBytes(_, n, _, _) => Ref(f, f.cur, SlotOf(n))
    case WriteInode(_) => f.sb.IBlock(f.cur)
    case GiveBack(_, b) => f.sb.BBlock(b)
    case _ => -1
  }

  /** It is one block, and not one of the log. */
  lemma OneBlock(f: Volume, l: Step)
    requires FsOk(f) && Ready(f, l)
    ensures var t := Target(f, l); t == -1 || f.sb.inodestart <= t < f.sb.size
    ensures var t, g := Target(f, l), Changed(f, l);
            |g.blocks| == |f.blocks| && forall b :: 0 <= b < |f.blocks| && b != t ==> g.blocks[b] == f.blocks[b]
  {
    match l
    case TakeBlock(_, b) => assert f.sb.BBlock(b) <= f.sb.BBlock(f.sb.size - 1);
    case GiveBack(_, b) => assert f.sb.BBlock(b) <= f.sb.BBlock(f.sb.size - 1);
    case WriteInode(_) => assert f.sb.IBlock(f.cur) <= f.sb.IBlock(f.sb.ninodes - 1);
    case SetEntry(_, _, _) => assert Ref(f, f.cur, NDIRECT) in f.owner;
    case WriteBytes(_, n, _, _) => assert Ref(f, f.cur, SlotOf(n)) in f.owner;
    case _ =>
  }

  ghost function Wrote(s: Sys, l: Step): int
    requires SysShape(s) && Can(s, l)
  {
    if l.Lock? || l.Unlock? then -1 else if Working(l) then Target(View(s, l.i), l) else s.sb.IBlock(l.i)
  }

  lemma OneBlockIn(s: Sys, l: Step)
    requires SysOk(s) && Can(s, l)
    ensures var t := Wrote(s, l); t == -1 || s.sb.inodestart <= t < s.sb.size
    ensures var t, s' := Wrote(s, l), Apply(s, l);
            |s'.blocks| == |s.blocks| == s.sb.size && forall b :: 0 <= b < |s.blocks| && b != t ==> s'.blocks[b] == s.blocks[b]
  {
    if Working(l) {
      HolderStep(s, l);
      OneBlock(View(s, l.i), l);
    } else {
      assert s.sb.IBlock(l.i) <= s.sb.IBlock(s.sb.ninodes - 1);
    }
  }

  // ------------------------------------------------------------------
  // The machine
  // ------------------------------------------------------------------

  /** `fs` is the file system as the kernel sees it, `stable` as it was at the last
      commit; `op` says inside which operation an inode was locked. */
  datatype Kernel = Kernel(log: Lg.State, fs: Sys, stable: Sys, op: map<int, nat>)

  datatype Act = OfLog(l: Lg.Label) | OfFs(p: nat, s: Step)

  /** The log_write that a step of the file system makes. */
  ghost function LogWrite(k: Kernel, p: nat, l: Step): Lg.Label
    requires SysOk(k.fs) && Can(k.fs, l) && Wrote(k.fs, l) != -1
  {
    OneBlockIn(k.fs, l);
    Lg.Write(p, Wrote(k.fs, l), AsWords(Apply(k.fs, l).blocks[Wrote(k.fs, l)]))
  }

  ghost predicate Able(L: Lg.Layout, k: Kernel, a: Act)
    requires SysOk(k.fs)
  {
    match a
    case OfLog(l) =>
      !l.Write? && Lg.Enabled(L, k.log, l) && (l.End? ==> forall i :: i in k.op ==> k.op[i] != l.p)
    case OfFs(p, l) =>
      && k.log.phase == Lg.Running && p < |k.log.ops| && k.log.ops[p].Active? && Can(k.fs, l)
      && (l.Lock? || l.Claim? || (l.i in k.op && k.op[l.i] == p))
      && (Wrote(k.fs, l) != -1 ==> Lg.Enabled(L, k.log, LogWrite(k, p, l)))
  }

  function OpAfter(op: map<int, nat>, p: nat, l: Step): map<int, nat>
  {
    if l.Lock? then op[l.i := p] else if l.Unlock? || l.Drop? then op - {l.i} else op
  }

  ghost function Next(L: Lg.Layout, k: Kernel, a: Act): Kernel
    requires SysOk(k.fs) && Able(L, k, a)
  {
    match a
    case OfLog(l) =>
      var log := Lg.Apply(L, k.log, l);
      if l == Lg.HeadWrite then Kernel(log, k.fs, k.fs, k.op)
      else if l == Lg.Crash then Kernel(log, k.stable, k.stable, map[])
      else Kernel(log, k.fs, k.stable, k.op)
    case OfFs(p, l) =>
      Kernel(if Wrote(k.fs, l) == -1 then k.log else Lg.Apply(L, k.log, LogWrite(k, p, l)),
             Apply(k.fs, l), k.stable, OpAfter(k.op, p, l))
  }

  // ------------------------------------------------------------------
  // Invariant
  // ------------------------------------------------------------------

  /** Every home block of m is the block of the file system. */
  ghost predicate Matches(L: Lg.Layout, m: map<int, Lg.Block>, blocks: seq<Block>)
  {
    |blocks| == L.total && forall b :: L.IsHome(b) ==> b in m && m[b] == AsWords(blocks[b])
  }

  ghost predicate LogOk(L: Lg.Layout, s: Lg.State)
  {
    Lg.DiskOk(L, s.disk) && forall x {:trigger Key(x)} :: Key(x) ==> Lp.Inv(L, s)
  }

  ghost predicate Placed(L: Lg.Layout, sb: Super) { L.total == sb.size && L.start + L.size <= sb.inodestart }

  /** What recovery would find is the file system of the last commit. */
  ghost predicate Recoverable(L: Lg.Layout, k: Kernel)
    requires Lg.DiskOk(L, k.log.disk)
  {
    Matches(L, Lg.Image(L, k.log.disk), k.stable.blocks)
  }

  /** The kernel sees the image under the pending writes. */
  ghost predicate Current(L: Lg.Layout, k: Kernel)
    requires Lg.DiskOk(L, k.log.disk)
  {
    var a := Lg.Abstract(L, k.log);
    Matches(L, a.image + a.pending, k.fs.blocks)
  }

  /** Locked inodes belong to operations in progress. */
  ghost predicate OpsOk(k: Kernel)
  {
    k.op.Keys == k.fs.mem.Keys && forall i :: i in k.op ==> k.op[i] < |k.log.ops| && k.log.ops[k.op[i]].Active?
  }

  ghost predicate KernelOk(L: Lg.Layout, k: Kernel)
  {
    && LogOk(L, k.log) && SysOk(k.fs) && SysOk(k.stable) && k.stable.mem == map[] && k.stable.sb == k.fs.sb && Placed(L, k.fs.sb)
    && Recoverable(L, k) && Current(L, k) && OpsOk(k)
  }

  // ------------------------------------------------------------------
  // Steps of the file system
  // ------------------------------------------------------------------

  lemma WriteStep(L: Lg.Layout, s: Lg.State, l: Lg.Label)
    requires LogOk(L, s) && l.Write? && Lg.Enabled(L, s, l) && Lg.Fits(L, Lg.Apply(L, s, l))
    ensures var s' := Lg.Apply(L, s, l);
            && LogOk(L, s') && Lg.Image(L, s'.disk) == Lg.Image(L, s.disk)
            && Lg.Abstract(L, s').image + Lg.Abstract(L, s').pending
               == (Lg.Abstract(L, s).image + Lg.Abstract(L, s).pending)[l.b := l.v]
  {
    assert Lp.Inv(L, s) by { assert Key(0); }
    Lp.Refines(L, s, l);
    var a := Lg.Abstract(L, s);
    assert a.image + a.pending[l.b := l.v] == (a.image + a.pending)[l.b := l.v];
  }

  lemma MatchesPut(L: Lg.Layout, m: map<int, Lg.Block>, blocks: seq<Block>, blocks': seq<Block>, t: int)
    requires Matches(L, m, blocks) && |blocks'| == |blocks| && 0 <= t < |blocks|
    requires forall b :: 0 <= b < |blocks| && b != t ==> blocks'[b] == blocks[b]
    ensures Matches(L, m[t := AsWords(blocks'[t])], blocks')
  {
  }

  lemma FsStepOk(L: Lg.Layout, k: Kernel, p: nat, l: Step)
    requires KernelOk(L, k) && Able(L, k, OfFs(p, l)) && Lg.Fits(L, Next(L, k, OfFs(p, l)).log)
    ensures KernelOk(L, Next(L, k, OfFs(p, l)))
  {
    StepOk(k.fs, l);
    FsLogStep(L, k, p, l, Next(L, k, OfFs(p, l)));
    OpsStep(L, k, p, l);
  }

  /** The log gets the one block that the step changes. */
  lemma FsLogStep(L: Lg.Layout, k: Kernel, p: nat, l: Step, k': Kernel)
    requires LogOk(L, k.log) && SysOk(k.fs) && Placed(L, k.fs.sb) && Recoverable(L, k) && Current(L, k)
    requires Able(L, k, OfFs(p, l)) && k' == Next(L, k, OfFs(p, l)) && Lg.Fits(L, k'.log)
    ensures LogOk(L, k'.log) && Recoverable(L, k') && Current(L, k')
  {
    OneBlockIn(k.fs, l);
    var t := Wrote(k.fs, l);
    if t != -1 {
      WriteStep(L, k.log, LogWrite(k, p, l));
      var a := Lg.Abstract(L, k.log);
      MatchesPut(L, a.image + a.pending, k.fs.blocks, k'.fs.blocks, t);
    } else {
      assert k'.fs.blocks == k.fs.blocks;
    }
  }

  lemma MemAfter(s: Sys, l: Step)
    requires SysShape(s) && Can(s, l)
    ensures Apply(s, l).mem.Keys == if l.Lock? then s.mem.Keys + {l.i} else if l.Unlock? || l.Drop? then s.mem.Keys - {l.i} else s.mem.Keys
  {
  }

  lemma OpsStep(L: Lg.Layout, k: Kernel, p: nat, l: Step)
    requires SysOk(k.fs) && OpsOk(k) && Able(L, k, OfFs(p, l))
    ensures OpsOk(Next(L, k, OfFs(p, l)))
  {
    MemAfter(k.fs, l);
  }

  // ------------------------------------------------------------------
  // Steps of the log
  // ------------------------------------------------------------------

  predicate Plain(l: Lg.Label) { !l.Write? && l != Lg.HeadWrite && l != Lg.Crash }

  /** Steps that neither commit nor crash leave the image and the pending writes alone. */
  lemma PlainStep(L: Lg.Layout, s: Lg.State, l: Lg.Label)
    requires LogOk(L, s) && Plain(l) && Lg.Enabled(L, s, l) && Lg.Fits(L, Lg.Apply(L, s, l))
    ensures var s' := Lg.Apply(L, s, l);
            && LogOk(L, s') && Lg.Image(L, s'.disk) == Lg.Image(L, s.disk)
            && Lg.Abstract(L, s').image + Lg.Abstract(L, s').pending == Lg.Abstract(L, s).image + Lg.Abstract(L, s).pending
  {
    assert Lp.Inv(L, s) by { assert Key(0); }
    Lp.Refines(L, s, l);
  }

  lemma StillActive(L: Lg.Layout, s: Lg.State, l: Lg.Label, p: nat)
    requires Plain(l) && Lg.Enabled(L, s, l) && p < |s.ops| && s.ops[p].Active? && l != Lg.End(p)
    ensures var ops := Lg.Apply(L, s, l).ops; p < |ops| && ops[p].Active?
  {
  }

  lemma PlainOk(L: Lg.Layout, k: Kernel, l: Lg.Label)
    requires KernelOk(L, k) && Able(L, k, OfLog(l)) && Plain(l) && Lg.Fits(L, Next(L, k, OfLog(l)).log)
    ensures KernelOk(L, Next(L, k, OfLog(l)))
  {
    PlainStep(L, k.log, l);
    forall i | i in k.op ensures k.op[i] < |Lg.Apply(L, k.log, l).ops| && Lg.Apply(L, k.log, l).ops[k.op[i]].Active? {
      StillActive(L, k.log, l, k.op[i]);
    }
  }

  lemma HeadQuiet(L: Lg.Layout, s: Lg.State)
    requires LogOk(L, s) && Lg.Enabled(L, s, Lg.HeadWrite)
    ensures Lg.Quiet(s.ops) && Lg.Apply(L, s, Lg.HeadWrite).ops == s.ops
  {
    assert Key(0);
  }

  lemma AddNothing(m: map<int, Lg.Block>)
    ensures m + map[] == m
  {
  }

  lemma HeadStore(L: Lg.Layout, s: Lg.State)
    requires Lp.Inv(L, s) && Lg.Enabled(L, s, Lg.HeadWrite)
    ensures var s', a := Lg.Apply(L, s, Lg.HeadWrite), Lg.Abstract(L, s);
            Lp.Inv(L, s') && Lg.Abstract(L, s').image == a.image + a.pending && Lg.Abstract(L, s').pending == map[]
  {
    Lp.HeadWriteRefines(L, s);
  }

  lemma HeadStep(L: Lg.Layout, s: Lg.State)
    requires LogOk(L, s) && Lg.Enabled(L, s, Lg.HeadWrite)
    ensures var s', a := Lg.Apply(L, s, Lg.HeadWrite), Lg.Abstract(L, s);
            && LogOk(L, s') && Lg.Image(L, s'.disk) == a.image + a.pending
            && Lg.Abstract(L, s').image + Lg.Abstract(L, s').pending == a.image + a.pending
  {
    assert Lp.Inv(L, s) by { assert Key(0); }
    HeadStore(L, s);
    AddNothing(Lg.Abstract(L, s).image + Lg.Abstract(L, s).pending);
  }

  /** The commit point: with no operation in progress no inode is locked, and what
      recovery will find is the file system of this moment. */
  lemma CommitOk(L: Lg.Layout, k: Kernel)
    requires KernelOk(L, k) && Able(L, k, OfLog(Lg.HeadWrite)) && Lg.Fits(L, Next(L, k, OfLog(Lg.HeadWrite)).log)
    ensures KernelOk(L, Next(L, k, OfLog(Lg.HeadWrite))) && k.fs.mem == map[]
  {
    HeadQuiet(L, k.log);
    HeadStep(L, k.log);
    assert forall i :: i !in k.op;
    assert k.fs.mem.Keys == {};
  }

  lemma CrashStep(L: Lg.Layout, s: Lg.State)
    requires LogOk(L, s)
    ensures var s' := Lg.Apply(L, s, Lg.Crash);
            && LogOk(L, s') && Lg.Image(L, s'.disk) == Lg.Image(L, s.disk)
            && Lg.Abstract(L, s').image + Lg.Abstract(L, s').pending == Lg.Image(L, s.disk)
  {
    assert Lp.Inv(L, s) by { assert Key(0); }
    Lp.CrashRefines(L, s);
    var a := Lg.Abstract(L, Lg.Apply(L, s, Lg.Crash));
    assert a.image + map[] == a.image;
  }

  lemma CrashOk(L: Lg.Layout, k: Kernel)
    requires KernelOk(L, k) && Able(L, k, OfLog(Lg.Crash))
    ensures KernelOk(L, Next(L, k, OfLog(Lg.Crash)))
  {
    CrashStep(L, k.log);
  }

  /** Every step of the kernel, its log and its failures. */
  lemma KernelStep(L: Lg.Layout, k: Kernel, a: Act)
    requires KernelOk(L, k) && Able(L, k, a) && Lg.Fits(L, Next(L, k, a).log)
    ensures KernelOk(L, Next(L, k, a))
  {
    match a
    case OfFs(p, l) => FsStepOk(L, k, p, l);
    case OfLog(l) =>
      if l == Lg.HeadWrite { CommitOk(L, k); } else if l == Lg.Crash { CrashOk(L, k); } else { PlainOk(L, k, l); }
  }
}

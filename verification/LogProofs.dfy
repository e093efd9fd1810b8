/** Proofs that the log machine refines the atomic store, step by step and over
    whole runs, and of when the log stays inside its region. */
module LogProofs {
  import opened LogMachine

  ghost predicate Inv(L: Layout, s: State)
  {
    DiskOk(L, s.disk) && ListOk(L, s.lh) && Reservation(s.lh, s.ops) && PhaseInv(L, s)
  }

  /** The step keeps the invariant and is the same step of the atomic store. */
  ghost predicate Refined(L: Layout, s: State, l: Label)
    requires Inv(L, s) && Enabled(L, s, l)
  {
    var s' := Apply(L, s, l);
    && Inv(L, s')
    && StoreAllows(Abstract(L, s), l)
    && Abstract(L, s') == StoreStep(Abstract(L, s), l)
  }

  lemma BeginRefines(L: Layout, s: State, p: nat)
    requires Inv(L, s) && Enabled(L, s, Begin(p))
    ensures Refined(L, s, Begin(p))
  {
    ReservedBounds(s.ops);
    ReservedUpdate(s.ops, p, Active({}, false));
    assert Apply(L, s, Begin(p)).ops[p].Active?;
  }

  lemma CheckRefines(L: Layout, s: State, p: nat)
    requires Inv(L, s) && Enabled(L, s, Check(p))
    ensures Refined(L, s, Check(p))
  {
    ReservedUpdate(s.ops, p, Active(s.ops[p].blocks, true));
    assert Apply(L, s, Check(p)).ops[p].Active?;
  }

  /** An absorbed or a new block: the reservation of `p` pays for it. */
  lemma WriteKeepsReservation(L: Layout, s: State, p: nat, b: int, v: Block)
    requires Reservation(s.lh, s.ops) && Enabled(L, s, Write(p, b, v))
    ensures var s' := Apply(L, s, Write(p, b, v)); Reservation(s'.lh, s'.ops)
    ensures |Append(s.lh, b)| <= LOGSIZE
  {
    var ops' := s.ops[p := Active(s.ops[p].blocks + {b}, false)];
    ReservedUpdate(s.ops, p, ops'[p]);
    if b in s.ops[p].blocks {
      assert s.ops[p].blocks + {b} == s.ops[p].blocks;
    } else {
      assert |s.ops[p].blocks + {b}| == |s.ops[p].blocks| + 1;
    }
    ReservedBounds(ops');
  }

  lemma WriteRefines(L: Layout, s: State, p: nat, b: int, v: Block)
    requires Inv(L, s) && Enabled(L, s, Write(p, b, v))
    requires |Append(s.lh, b)| <= L.size - 1
    ensures Refined(L, s, Write(p, b, v))
  {
    WriteKeepsReservation(L, s, p, b, v);
    WriteKeepsPhase(L, s, p, b, v);
    WriteIsStoreWrite(L, s, p, b, v);
  }

  lemma WriteKeepsPhase(L: Layout, s: State, p: nat, b: int, v: Block)
    requires Inv(L, s) && Enabled(L, s, Write(p, b, v)) && |Append(s.lh, b)| <= LOGSIZE
    requires |Append(s.lh, b)| <= L.size - 1
    ensures var s' := Apply(L, s, Write(p, b, v)); DiskOk(L, s'.disk) && ListOk(L, s'.lh) && PhaseInv(L, s')
  {
    assert Apply(L, s, Write(p, b, v)).ops[p].Active?;
  }

  lemma WriteIsStoreWrite(L: Layout, s: State, p: nat, b: int, v: Block)
    requires Inv(L, s) && Enabled(L, s, Write(p, b, v))
    ensures StoreAllows(Abstract(L, s), Write(p, b, v))
    ensures var s' := Apply(L, s, Write(p, b, v)); Abstract(L, s') == StoreStep(Abstract(L, s), Write(p, b, v))
  {
    var s' := Apply(L, s, Write(p, b, v));
    ImageAt(L, s.disk);
    assert Busy(s'.ops) == Busy(s.ops);
  }

  lemma EndRefines(L: Layout, s: State, p: nat)
    requires Inv(L, s) && Enabled(L, s, End(p))
    ensures Refined(L, s, End(p))
  {
    var ops' := s.ops[p := Idle];
    EndReservation(s.lh, s.ops, p);
    NoneOutstanding(ops');
    if Outstanding(ops') == 0 && |s.lh| == 0 {
      assert s.lh == [];
      assert forall b :: b !in s.cache;
    }
    assert Busy(ops') == Busy(s.ops) - {p};
  }

  lemma EndReservation(lh: seq<int>, ops: seq<Op>, p: nat)
    requires Reservation(lh, ops) && p < |ops| && ops[p].Active?
    ensures Reservation(lh, ops[p := Idle])
  {
    ReservedUpdate(ops, p, Idle);
  }

  lemma LogBlockWriteRefines(L: Layout, s: State)
    requires Inv(L, s) && Enabled(L, s, LogBlockWrite)
    ensures Refined(L, s, LogBlockWrite)
  {
    var s' := Apply(L, s, LogBlockWrite);
    assert s.lh[s.phase.tail] in s.lh;
    assert s'.disk[L.start] == s.disk[L.start];
    ImageAt(L, s.disk);
    ImageIs(L, s'.disk, Image(L, s.disk));
  }

  lemma HeadWriteImage(L: Layout, s: State)
    requires Inv(L, s) && Enabled(L, s, HeadWrite)
    ensures var d' := s.disk[L.start := WithHead(s.disk[L.start], s.lh)];
            DiskOk(L, d') && Image(L, d') == Image(L, s.disk) + s.cache
  {
    var d' := s.disk[L.start := WithHead(s.disk[L.start], s.lh)];
    assert HeadNums(d'[L.start]) == s.lh;
    ImageAt(L, s.disk);
    ImageIs(L, d', Image(L, s.disk) + s.cache);
  }

  lemma HeadWritePhase(L: Layout, s: State)
    requires Inv(L, s) && Enabled(L, s, HeadWrite)
    ensures var s' := Apply(L, s, HeadWrite); DiskOk(L, s'.disk) && PhaseInv(L, s')
  {
    var s' := Apply(L, s, HeadWrite);
    assert HeadNums(s'.disk[L.start]) == s.lh;
    forall i | 0 <= i < |s.lh|
      ensures s.lh[i] in s'.cache && s'.cache[s.lh[i]] == s'.disk[Slot(L, i)]
    {
      assert s.lh[i] in s.lh;
    }
    assert s.lh[0..] == s.lh;
  }

  lemma QuietIsIdle(ops: seq<Op>)
    requires Quiet(ops)
    ensures Busy(ops) == {}
  {
  }

  lemma HeadWriteStore(L: Layout, s: State)
    requires DiskOk(L, s.disk) && Quiet(s.ops) && Enabled(L, s, HeadWrite) && DiskOk(L, Apply(L, s, HeadWrite).disk)
    requires Image(L, Apply(L, s, HeadWrite).disk) == Image(L, s.disk) + s.cache
    ensures StoreAllows(Abstract(L, s), HeadWrite)
    ensures Abstract(L, Apply(L, s, HeadWrite)) == StoreStep(Abstract(L, s), HeadWrite)
  {
    QuietIsIdle(s.ops);
  }

  /** The commit point: one block write moves the whole transaction. */
  lemma HeadWriteRefines(L: Layout, s: State)
    requires Inv(L, s) && Enabled(L, s, HeadWrite)
    ensures Refined(L, s, HeadWrite)
  {
    HeadWriteImage(L, s);
    HeadWritePhase(L, s);
    HeadWriteStore(L, s);
  }

  lemma InstallOneKeepsImage(L: Layout, d: Disk, t: nat)
    requires DiskOk(L, d) && t < HeadCount(d[L.start])
    ensures var nums := HeadNums(d[L.start]);
            var d' := InstallOne(L, d, nums[t], t);
            DiskOk(L, d') && d'[L.start] == d[L.start] && Image(L, d') == Image(L, d)
            && d'[nums[t]] == d'[Slot(L, t)]
            && forall b :: 0 <= b < |d| && b != nums[t] ==> d'[b] == d[b]
  {
    var nums := HeadNums(d[L.start]);
    var d' := InstallOne(L, d, nums[t], t);
    assert L.IsHome(nums[t]) && d'[L.start] == d[L.start];
    ImageAt(L, d);
    forall i | 0 <= i < |nums| ensures Image(L, d)[nums[i]] == d'[Slot(L, i)] {
      assert L.InLog(Slot(L, i));
    }
    ImageIs(L, d', Image(L, d));
  }

  lemma InTail(nums: seq<int>, t: nat, b: int)
    requires t < |nums| && b in nums[t..] && b != nums[t]
    ensures b in nums[t + 1..]
  {
    assert nums[t..] == [nums[t]] + nums[t + 1..];
  }

  lemma InstallWritePhase(L: Layout, s: State)
    requires Inv(L, s) && Enabled(L, s, InstallWrite)
    ensures var s' := Apply(L, s, InstallWrite);
            DiskOk(L, s'.disk) && PhaseInv(L, s')
  {
    var t := s.phase.tail;
    var s' := Apply(L, s, InstallWrite);
    InstallOneAt(L, s.disk, s.lh, t);
    DropCached(s.lh, s.cache, t);
  }

  lemma DropCached(lh: seq<int>, cache: map<int, Block>, t: nat)
    requires t < |lh| && Distinct(lh) && forall b :: b in cache ==> b in lh[t..]
    ensures forall b :: b in cache - {lh[t]} ==> b in lh[t + 1..]
    ensures forall i :: t < i < |lh| && lh[i] in cache ==> lh[i] in cache - {lh[t]}
  {
    forall b | b in cache - {lh[t]} ensures b in lh[t + 1..] {
      InTail(lh, t, b);
    }
  }

  /** One more block is home; the log and its header are as before. */
  lemma InstallOneAt(L: Layout, d: Disk, lh: seq<int>, t: nat)
    requires DiskOk(L, d) && ListOk(L, lh) && t < |lh| && Installed(L, d, lh, t)
    ensures var d' := InstallOne(L, d, lh[t], t);
            |d'| == |d| && d'[L.start] == d[L.start] && Installed(L, d', lh, t + 1)
            && forall i :: 0 <= i < |lh| ==> d'[Slot(L, i)] == d[Slot(L, i)]
  {
    var d' := InstallOne(L, d, lh[t], t);
    assert L.IsHome(lh[t]) && d'[L.start] == d[L.start];
    forall i | 0 <= i < |lh| ensures d'[Slot(L, i)] == d[Slot(L, i)] {
      assert L.InLog(Slot(L, i));
    }
  }

  lemma InstallWriteRefines(L: Layout, s: State)
    requires Inv(L, s) && Enabled(L, s, InstallWrite)
    ensures Refined(L, s, InstallWrite)
  {
    InstallOneKeepsImage(L, s.disk, s.phase.tail);
    InstallWritePhase(L, s);
  }

  /** Dropping the header keeps the image once every block is home. */
  lemma ClearKeepsImage(L: Layout, d: Disk)
    requires DiskOk(L, d)
    requires var nums := HeadNums(d[L.start]); forall i :: 0 <= i < |nums| ==> d[nums[i]] == d[Slot(L, i)]
    ensures var d' := d[L.start := WithHead(d[L.start], [])];
            DiskOk(L, d') && HeadCount(d'[L.start]) == 0 && Image(L, d') == Image(L, d)
  {
    var d' := d[L.start := WithHead(d[L.start], [])];
    ImageAt(L, d);
    ImageIs(L, d', Image(L, d));
  }

  lemma HeadClearRefines(L: Layout, s: State)
    requires Inv(L, s) && Enabled(L, s, HeadClear)
    ensures Refined(L, s, HeadClear)
  {
    ClearKeepsImage(L, s.disk);
    assert s.cache == map[];
    assert Quiet(s.ops) ==> Reserved(s.ops) == 0 by { NoneOutstanding(s.ops); ReservedBounds(s.ops); }
  }

  lemma CrashRefines(L: Layout, s: State)
    requires Inv(L, s)
    ensures Refined(L, s, Crash)
  {
    var s' := Apply(L, s, Crash);
    NoneOutstanding(s'.ops);
    ReservedBounds(s'.ops);
    assert Busy(s'.ops) == {};
  }

  lemma ReadHeadRefines(L: Layout, s: State)
    requires Inv(L, s) && Enabled(L, s, ReadHead)
    ensures Refined(L, s, ReadHead)
  {
    NoneOutstanding(s.ops);
    ReservedBounds(s.ops);
  }

  lemma RecoverWritePhase(L: Layout, s: State)
    requires DiskOk(L, s.disk) && ListOk(L, s.lh) && PhaseInv(L, s) && Enabled(L, s, RecoverWrite)
    ensures var s' := Apply(L, s, RecoverWrite); DiskOk(L, s'.disk) && PhaseInv(L, s')
  {
    InstallOneAt(L, s.disk, s.lh, s.phase.tail);
  }

  lemma RecoverWriteRefines(L: Layout, s: State)
    requires Inv(L, s) && Enabled(L, s, RecoverWrite)
    ensures Refined(L, s, RecoverWrite)
  {
    InstallOneKeepsImage(L, s.disk, s.phase.tail);
    RecoverWritePhase(L, s);
  }

  lemma RecoverClearRefines(L: Layout, s: State)
    requires Inv(L, s) && Enabled(L, s, RecoverClear)
    ensures Refined(L, s, RecoverClear)
  {
    ClearKeepsImage(L, s.disk);
    NoneOutstanding(s.ops);
    ReservedBounds(s.ops);
  }

  /** Forward simulation: each enabled step is the same step of the atomic store. */
  lemma Refines(L: Layout, s: State, l: Label)
    requires Inv(L, s) && Enabled(L, s, l) && Fits(L, Apply(L, s, l))
    ensures Refined(L, s, l)
  {
    match l
    case Begin(p) => BeginRefines(L, s, p);
    case Check(p) => CheckRefines(L, s, p);
    case Write(p, b, v) => WriteRefines(L, s, p, b, v);
    case End(p) => EndRefines(L, s, p);
    case LogBlockWrite => LogBlockWriteRefines(L, s);
    case HeadWrite => HeadWriteRefines(L, s);
    case InstallWrite => InstallWriteRefines(L, s);
    case HeadClear => HeadClearRefines(L, s);
    case Finish =>
    case Crash => CrashRefines(L, s);
    case ReadHead => ReadHeadRefines(L, s);
    case RecoverWrite => RecoverWriteRefines(L, s);
    case RecoverClear => RecoverClearRefines(L, s);
  }

  // ------------------------------------------------------------------
  // Whole runs
  // ------------------------------------------------------------------

  ghost predicate Legal(L: Layout, s: State, ls: seq<Label>)
    decreases |ls|
  {
    ls == [] || (Enabled(L, s, ls[0]) && Legal(L, Apply(L, s, ls[0]), ls[1..]))
  }

  ghost function After(L: Layout, s: State, ls: seq<Label>): State
    requires Legal(L, s, ls)
    decreases |ls|
  {
    if ls == [] then s else After(L, Apply(L, s, ls[0]), ls[1..])
  }

  /** No state of the run has more logged blocks than the region holds. */
  ghost predicate AllFit(L: Layout, s: State, ls: seq<Label>)
    requires Legal(L, s, ls)
    decreases |ls|
  {
    Fits(L, s) && (ls == [] || AllFit(L, Apply(L, s, ls[0]), ls[1..]))
  }

  ghost function StoreRun(a: Store, ls: seq<Label>): Store
    decreases |ls|
  {
    if ls == [] then a else StoreRun(StoreStep(a, ls[0]), ls[1..])
  }

  /** Whatever the interleaving and wherever the crashes, also inside recovery,
      the image on the disk is what the atomic store holds after the same labels. */
  lemma {:induction false} RunRefines(L: Layout, s: State, ls: seq<Label>)
    requires Inv(L, s) && Legal(L, s, ls) && AllFit(L, s, ls)
    ensures Inv(L, After(L, s, ls))
    ensures Abstract(L, After(L, s, ls)) == StoreRun(Abstract(L, s), ls)
    decreases |ls|
  {
    if ls != [] {
      var s' := Apply(L, s, ls[0]);
      assert Fits(L, s') by { assert AllFit(L, s', ls[1..]); }
      Refines(L, s, ls[0]);
      RunRefines(L, s', ls[1..]);
    }
  }

  /** The transactions committed by a run: the writes pending at each HeadWrite;
      a crash drops the pending ones. */
  function Committed(pending: map<int, Block>, ls: seq<Label>): seq<map<int, Block>>
    decreases |ls|
  {
    if ls == [] then []
    else match ls[0]
      case Write(_, b, v) => Committed(pending[b := v], ls[1..])
      case HeadWrite => [pending] + Committed(map[], ls[1..])
      case Crash => Committed(map[], ls[1..])
      case _ => Committed(pending, ls[1..])
  }

  function Overlay(m: map<int, Block>, txns: seq<map<int, Block>>): map<int, Block>
    decreases |txns|
  {
    if txns == [] then m else Overlay(m + txns[0], txns[1..])
  }

  lemma {:induction false} StoreImage(a: Store, ls: seq<Label>)
    ensures StoreRun(a, ls).image == Overlay(a.image, Committed(a.pending, ls))
    decreases |ls|
  {
    if ls != [] {
      StoreImage(StoreStep(a, ls[0]), ls[1..]);
    }
  }

  /** Durability: at every moment, the image that recovery yields is the first
      image under a whole number of committed transactions, none lost or split. */
  lemma Durable(L: Layout, s: State, ls: seq<Label>)
    requires Inv(L, s) && Legal(L, s, ls) && AllFit(L, s, ls)
    ensures DiskOk(L, After(L, s, ls).disk)
    ensures Image(L, After(L, s, ls).disk)
            == Overlay(Image(L, s.disk), Committed(Abstract(L, s).pending, ls))
  {
    RunRefines(L, s, ls);
    StoreImage(Abstract(L, s), ls);
  }

  /** While operations run, a read sees the image under the pending writes. */
  lemma ReadsLatest(L: Layout, s: State, b: int)
    requires Inv(L, s) && s.phase == Running && L.IsHome(b)
    ensures b in (Abstract(L, s).image + Abstract(L, s).pending)
    ensures Read(s, b) == (Abstract(L, s).image + Abstract(L, s).pending)[b]
  {
    ImageAt(L, s.disk);
  }

  /** log.committing implies log.outstanding == 0, so the panic in end_op is
      unreachable and no commit can split an operation. */
  lemma CommittingMeansNoneOutstanding(L: Layout, s: State)
    requires Inv(L, s) && s.phase != Running
    ensures Outstanding(s.ops) == 0
  {
    NoneOutstanding(s.ops);
  }

  /** A begin_op that has to wait has someone to wake it: a commit that is under way, or
      an operation that is outstanding and will end. */
  lemma RefusedHasWaker(L: Layout, s: State, p: nat)
    requires Inv(L, s) && p < |s.ops| && s.ops[p].Idle? && !Enabled(L, s, Begin(p))
    ensures s.phase != Running || exists q :: 0 <= q < |s.ops| && q != p && s.ops[q].Active?
  {
    if s.phase == Running && Quiet(s.ops) {
      NoneOutstanding(s.ops);
    }
  }

  /** The writes of one operation go to one transaction: from its begin_op to its
      end_op there is no commit point. */
  lemma {:induction false} OperationNotSplit(L: Layout, s: State, ls: seq<Label>, p: nat)
    requires Inv(L, s) && Legal(L, s, ls) && AllFit(L, s, ls)
    requires p < |s.ops| && s.ops[p].Active?
    requires End(p) !in ls && Crash !in ls
    ensures HeadWrite !in ls
    decreases |ls|
  {
    if ls != [] {
      var s' := Apply(L, s, ls[0]);
      assert Fits(L, s') by { assert AllFit(L, s', ls[1..]); }
      Refines(L, s, ls[0]);
      assert p in Busy(s.ops);
      assert p in Busy(s'.ops) by {
        assert ls[0] != End(p) && ls[0] != Crash;
      }
      OperationNotSplit(L, s', ls[1..], p);
    }
  }

  /** A region larger than LOGSIZE holds every log that the reservations allow. */
  lemma {:induction false} LargeRegionFits(L: Layout, s: State, ls: seq<Label>)
    requires Inv(L, s) && Legal(L, s, ls) && L.size > LOGSIZE
    ensures AllFit(L, s, ls)
    decreases |ls|
  {
    if ls != [] {
      if ls[0].Write? {
        WriteKeepsReservation(L, s, ls[0].p, ls[0].b, ls[0].v);
      }
      Refines(L, s, ls[0]);
      LargeRegionFits(L, Apply(L, s, ls[0]), ls[1..]);
    }
  }
}

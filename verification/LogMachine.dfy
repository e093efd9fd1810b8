/** The redo log of lab2/log.c as a step machine.

    A step is either one locked section of begin_op, log_write or end_op, or one
    single-block disk write of commit or recover_from_log, or a crash.  Steps of
    different processes interleave freely, and a crash may come between any two
    steps, also during recovery.

    The main results are `Refines` (every step of the machine is a step of an
    atomic store, or changes nothing there), `RunRefines` (the same for whole
    runs) and `RegionSafeIff` (when the log can outgrow its region). */
module LogMachine {
  import FsBytes

  const MAXOPBLOCKS: int := 10
  const LOGSIZE: int := MAXOPBLOCKS * 3
  /** A block of BSIZE (512) bytes is 128 words of four bytes. */
  const WORDS: int := FsBytes.WORDS

  type Block = b: seq<int> | |b| == WORDS witness seq(WORDS, _ => 0)
  type Disk = seq<Block>

  /** log.start, log.size and the number of blocks on the disk. */
  datatype Layout = Layout(start: nat, size: nat, total: nat) {
    predicate Ok() { 2 <= size && start + size <= total }
    predicate InLog(b: int) { start <= b < start + size }
    predicate IsHome(b: int) { 0 <= b < total && !InLog(b) }
  }

  /** One slot of the process table: idle, or inside an operation.  `blocks` are
      the block numbers the operation has logged; `mayLog` holds between the
      unlocked test at the top of log_write and the locked append. */
  datatype Op = Idle | Active(blocks: set<int>, mayLog: bool)

  datatype Phase =
    | Running
    | WritingLog(tail: nat)
    | Installing(tail: nat)
    | Finishing
    | Off
    | Recovering(tail: nat)

  /** `lh` is log.lh.block[0..lh.n]; `cache` holds the dirty buffers, which the
      cache may not evict; `ops` has one entry for each process slot. */
  datatype State = State(disk: Disk, lh: seq<int>, cache: map<int, Block>, phase: Phase, ops: seq<Op>)

  datatype Label =
    | Begin(p: nat)
    | Check(p: nat)
    | Write(p: nat, b: int, v: Block)
    | End(p: nat)
    | LogBlockWrite
    | HeadWrite
    | InstallWrite
    | HeadClear
    | Finish
    | Crash
    | ReadHead
    | RecoverWrite
    | RecoverClear

  // ------------------------------------------------------------------
  // Disk format
  // ------------------------------------------------------------------

  function HeadCount(hb: Block): int { hb[0] }

  predicate CountOk(hb: Block) { 0 <= HeadCount(hb) <= LOGSIZE }

  function HeadNums(hb: Block): (nums: seq<int>)
    requires CountOk(hb)
    ensures |nums| == HeadCount(hb)
  {
    hb[1..1 + HeadCount(hb)]
  }

  /** write_head: words past the listed numbers keep what they held. */
  function WithHead(hb: Block, nums: seq<int>): (r: Block)
    requires |nums| <= LOGSIZE
    ensures CountOk(r) && HeadNums(r) == nums
  {
    [|nums|] + nums + hb[1 + |nums|..]
  }

  function Slot(L: Layout, i: nat): int { L.start + 1 + i }

  predicate Distinct(s: seq<int>) { forall i, j :: 0 <= i < j < |s| ==> s[i] != s[j] }

  predicate AllHome(L: Layout, s: seq<int>) { forall i :: 0 <= i < |s| ==> L.IsHome(s[i]) }

  predicate ListOk(L: Layout, nums: seq<int>)
  {
    |nums| <= LOGSIZE && |nums| <= L.size - 1 && Distinct(nums) && AllHome(L, nums)
  }

  predicate DiskOk(L: Layout, d: Disk)
  {
    L.Ok() && |d| == L.total && CountOk(d[L.start]) && ListOk(L, HeadNums(d[L.start]))
  }

  /** The blocks outside the log region. */
  ghost function Home(L: Layout, d: Disk): map<int, Block>
    requires |d| == L.total
  {
    map b | 0 <= b < L.total && L.IsHome(b) :: d[b]
  }

  /** The overlay held by the first k log slots. */
  ghost function LogMap(L: Layout, d: Disk, nums: seq<int>, k: nat): map<int, Block>
    requires |d| == L.total && k <= |nums| && L.start + 1 + |nums| <= L.total
  {
    if k == 0 then map[] else LogMap(L, d, nums, k - 1)[nums[k - 1] := d[Slot(L, k - 1)]]
  }

  /** What the home blocks are taken to hold: the disk under the committed log. */
  ghost function Image(L: Layout, d: Disk): map<int, Block>
    requires DiskOk(L, d)
  {
    var nums := HeadNums(d[L.start]);
    Home(L, d) + LogMap(L, d, nums, |nums|)
  }

  lemma {:induction false} LogMapAt(L: Layout, d: Disk, nums: seq<int>, k: nat)
    requires |d| == L.total && k <= |nums| && L.start + 1 + |nums| <= L.total && Distinct(nums)
    ensures forall i :: 0 <= i < k ==> nums[i] in LogMap(L, d, nums, k) && LogMap(L, d, nums, k)[nums[i]] == d[Slot(L, i)]
    ensures forall b :: b in LogMap(L, d, nums, k) ==> exists i :: 0 <= i < k && nums[i] == b
  {
    if k > 0 {
      LogMapAt(L, d, nums, k - 1);
      forall b | b in LogMap(L, d, nums, k) ensures exists i :: 0 <= i < k && nums[i] == b {
        if b == nums[k - 1] {
        } else {
          var i :| 0 <= i < k - 1 && nums[i] == b;
        }
      }
    }
  }

  /** Image, block by block: a listed block comes from its slot, another from home. */
  lemma ImageAt(L: Layout, d: Disk)
    requires DiskOk(L, d)
    ensures var nums := HeadNums(d[L.start]);
            && (forall b :: b in Image(L, d) <==> L.IsHome(b))
            && (forall i :: 0 <= i < |nums| ==> Image(L, d)[nums[i]] == d[Slot(L, i)])
            && (forall b :: L.IsHome(b) && b !in nums ==> Image(L, d)[b] == d[b])
  {
    var nums := HeadNums(d[L.start]);
    LogMapAt(L, d, nums, |nums|);
  }

  /** Two disks with block-wise equal images have one image. */
  lemma ImageIs(L: Layout, d: Disk, m: map<int, Block>)
    requires DiskOk(L, d)
    requires forall b :: b in m <==> L.IsHome(b)
    requires var nums := HeadNums(d[L.start]); forall i :: 0 <= i < |nums| ==> m[nums[i]] == d[Slot(L, i)]
    requires forall b :: L.IsHome(b) && b !in HeadNums(d[L.start]) ==> m[b] == d[b]
    ensures Image(L, d) == m
  {
    ImageAt(L, d);
    var nums := HeadNums(d[L.start]);
    var image := Image(L, d);
    assert image.Keys == m.Keys;
    forall b | b in m ensures image[b] == m[b] {
      if b in nums {
        var i :| 0 <= i < |nums| && nums[i] == b;
        assert image[nums[i]] == m[nums[i]];
      }
    }
    assert image == m;
  }

  // ------------------------------------------------------------------
  // Reservations
  // ------------------------------------------------------------------

  /** log.outstanding. */
  function Outstanding(ops: seq<Op>): nat
  {
    if ops == [] then 0 else (if ops[0].Active? then 1 else 0) + Outstanding(ops[1..])
  }

  function Unused(o: Op): int { if o.Active? then MAXOPBLOCKS - |o.blocks| else 0 }

  /** Log blocks the outstanding operations may still add. */
  function Reserved(ops: seq<Op>): int
  {
    if ops == [] then 0 else Unused(ops[0]) + Reserved(ops[1..])
  }

  lemma {:induction false} ReservedUpdate(ops: seq<Op>, p: nat, o: Op)
    requires p < |ops|
    ensures Reserved(ops[p := o]) == Reserved(ops) - Unused(ops[p]) + Unused(o)
    ensures Outstanding(ops[p := o]) ==
            Outstanding(ops) - (if ops[p].Active? then 1 else 0) + (if o.Active? then 1 else 0)
  {
    if p == 0 {
      assert ops[p := o][1..] == ops[1..];
    } else {
      assert ops[p := o][1..] == ops[1..][p - 1 := o];
      ReservedUpdate(ops[1..], p - 1, o);
    }
  }

  predicate OpsBounded(ops: seq<Op>)
  {
    forall p :: 0 <= p < |ops| && ops[p].Active? ==> |ops[p].blocks| <= MAXOPBLOCKS
  }

  lemma {:induction false} ReservedBounds(ops: seq<Op>)
    requires OpsBounded(ops)
    ensures 0 <= Reserved(ops) <= Outstanding(ops) * MAXOPBLOCKS
    ensures forall p :: 0 <= p < |ops| ==> Unused(ops[p]) <= Reserved(ops)
  {
    if ops != [] {
      assert forall p :: 0 <= p < |ops| - 1 ==> ops[1..][p] == ops[p + 1];
      ReservedBounds(ops[1..]);
      forall p | 0 <= p < |ops| ensures Unused(ops[p]) <= Reserved(ops) {
        if p > 0 { assert ops[p] == ops[1..][p - 1]; }
      }
    }
  }

  lemma {:induction false} NoneOutstanding(ops: seq<Op>)
    ensures Outstanding(ops) == 0 <==> forall p :: 0 <= p < |ops| ==> ops[p].Idle?
  {
    if ops != [] {
      NoneOutstanding(ops[1..]);
      if Outstanding(ops) == 0 {
        forall p | 0 <= p < |ops| ensures ops[p].Idle? {
          if p > 0 { assert ops[p] == ops[1..][p - 1]; }
        }
      }
    }
  }

  // ------------------------------------------------------------------
  // Steps
  // ------------------------------------------------------------------

  function AllIdle(n: nat): seq<Op> { seq(n, _ => Idle) }

  /** bread: a dirty buffer if there is one, else the disk. */
  function Read(s: State, b: int): Block
    requires 0 <= b < |s.disk|
  {
    if b in s.cache then s.cache[b] else s.disk[b]
  }

  /** The test at the top of log_write; failing it is a panic. */
  predicate RoomToLog(L: Layout, s: State) { |s.lh| < LOGSIZE && |s.lh| < L.size - 1 }

  predicate Enabled(L: Layout, s: State, l: Label)
  {
    match l
    case Begin(p) =>
      s.phase == Running && p < |s.ops| && s.ops[p].Idle?
      && |s.lh| + (Outstanding(s.ops) + 1) * MAXOPBLOCKS <= LOGSIZE
    case Check(p) =>
      s.phase == Running && p < |s.ops| && s.ops[p].Active? && RoomToLog(L, s)
    case Write(p, b, _) =>
      s.phase == Running && p < |s.ops| && s.ops[p].Active? && s.ops[p].mayLog
      && L.IsHome(b) && |s.ops[p].blocks + {b}| <= MAXOPBLOCKS
    case End(p) =>
      s.phase == Running && p < |s.ops| && s.ops[p].Active?
    case LogBlockWrite =>
      s.phase.WritingLog? && s.phase.tail < |s.lh|
      && Slot(L, s.phase.tail) < |s.disk| && 0 <= s.lh[s.phase.tail] < |s.disk|
    case HeadWrite =>
      s.phase.WritingLog? && s.phase.tail == |s.lh| && L.start < |s.disk| && |s.lh| <= LOGSIZE
    case InstallWrite =>
      s.phase.Installing? && s.phase.tail < |s.lh|
      && Slot(L, s.phase.tail) < |s.disk| && 0 <= s.lh[s.phase.tail] < |s.disk|
    case HeadClear =>
      s.phase.Installing? && s.phase.tail == |s.lh| && L.start < |s.disk|
    case Finish => s.phase == Finishing
    case Crash => true
    case ReadHead => s.phase == Off && L.start < |s.disk| && CountOk(s.disk[L.start])
    case RecoverWrite =>
      s.phase.Recovering? && s.phase.tail < |s.lh|
      && Slot(L, s.phase.tail) < |s.disk| && 0 <= s.lh[s.phase.tail] < |s.disk|
    case RecoverClear =>
      s.phase.Recovering? && s.phase.tail == |s.lh| && L.start < |s.disk|
  }

  function Append(lh: seq<int>, b: int): seq<int> { if b in lh then lh else lh + [b] }

  /** end_op: the last operation out sets log.committing and commits. */
  function AfterEnd(s: State, ops: seq<Op>): State
  {
    if Outstanding(ops) != 0 then s.(ops := ops)
    else s.(ops := ops, phase := if |s.lh| > 0 then WritingLog(0) else Finishing)
  }

  /** One block of install_trans. */
  function InstallOne(L: Layout, d: Disk, b: int, t: nat): Disk
    requires Slot(L, t) < |d| && 0 <= b < |d|
  {
    d[b := d[Slot(L, t)]]
  }

  function Apply(L: Layout, s: State, l: Label): State
    requires Enabled(L, s, l)
  {
    match l
    case Begin(p) => s.(ops := s.ops[p := Active({}, false)])
    case Check(p) => s.(ops := s.ops[p := Active(s.ops[p].blocks, true)])
    case Write(p, b, v) =>
      s.(lh := Append(s.lh, b), cache := s.cache[b := v],
         ops := s.ops[p := Active(s.ops[p].blocks + {b}, false)])
    case End(p) => AfterEnd(s, s.ops[p := Idle])
    case LogBlockWrite =>
      s.(disk := s.disk[Slot(L, s.phase.tail) := Read(s, s.lh[s.phase.tail])],
         phase := WritingLog(s.phase.tail + 1))
    case HeadWrite =>
      s.(disk := s.disk[L.start := WithHead(s.disk[L.start], s.lh)], phase := Installing(0))
    case InstallWrite =>
      s.(disk := InstallOne(L, s.disk, s.lh[s.phase.tail], s.phase.tail),
         cache := s.cache - {s.lh[s.phase.tail]}, phase := Installing(s.phase.tail + 1))
    case HeadClear =>
      s.(disk := s.disk[L.start := WithHead(s.disk[L.start], [])], lh := [], phase := Finishing)
    case Finish => s.(phase := Running)
    case Crash => State(s.disk, [], map[], Off, AllIdle(|s.ops|))
    case ReadHead => s.(lh := HeadNums(s.disk[L.start]), phase := Recovering(0))
    case RecoverWrite =>
      s.(disk := InstallOne(L, s.disk, s.lh[s.phase.tail], s.phase.tail),
         phase := Recovering(s.phase.tail + 1))
    case RecoverClear =>
      s.(disk := s.disk[L.start := WithHead(s.disk[L.start], [])], lh := [], phase := Running)
  }

  // ------------------------------------------------------------------
  // The atomic store that the log implements
  // ------------------------------------------------------------------

  /** `image` survives a crash; `pending` are the writes since the last commit. */
  datatype Store = Store(image: map<int, Block>, pending: map<int, Block>, busy: set<nat>)

  /** What each label means for the atomic store.  Only HeadWrite changes the
      image, and it moves every pending write there at once. */
  function StoreStep(a: Store, l: Label): Store
  {
    match l
    case Begin(p) => a.(busy := a.busy + {p})
    case Write(_, b, v) => a.(pending := a.pending[b := v])
    case End(p) => a.(busy := a.busy - {p})
    case HeadWrite => Store(a.image + a.pending, map[], a.busy)
    case Crash => Store(a.image, map[], {})
    case _ => a
  }

  /** When the atomic store allows a label: writes come from operations in
      progress, and a commit only when there are none. */
  predicate StoreAllows(a: Store, l: Label)
  {
    match l
    case Begin(p) => p !in a.busy
    case Write(p, b, _) => p in a.busy && b in a.image
    case End(p) => p in a.busy
    case HeadWrite => a.busy == {}
    case _ => true
  }

  ghost function Busy(ops: seq<Op>): set<nat> { set p: nat | p < |ops| && ops[p].Active? }

  ghost function Abstract(L: Layout, s: State): Store
    requires DiskOk(L, s.disk)
  {
    Store(Image(L, s.disk),
          if s.phase.Running? || s.phase.WritingLog? then s.cache else map[],
          Busy(s.ops))
  }

  // ------------------------------------------------------------------
  // Invariant
  // ------------------------------------------------------------------

  /** The reservation rule: logged blocks and unused reservations fit the log. */
  predicate Reservation(lh: seq<int>, ops: seq<Op>)
  {
    && OpsBounded(ops)
    && |lh| + Reserved(ops) <= LOGSIZE
    && (forall p :: 0 <= p < |ops| && ops[p].Active? ==> forall b :: b in ops[p].blocks ==> b in lh)
  }

  predicate Quiet(ops: seq<Op>) { forall p :: 0 <= p < |ops| ==> ops[p].Idle? }

  predicate Installed(L: Layout, d: Disk, lh: seq<int>, k: nat)
    requires |d| == L.total && L.start + 1 + |lh| <= L.total && AllHome(L, lh)
  {
    forall i :: 0 <= i < |lh| && i < k ==> d[lh[i]] == d[Slot(L, i)]
  }

  ghost predicate PhaseInv(L: Layout, s: State)
    requires DiskOk(L, s.disk) && ListOk(L, s.lh)
  {
    match s.phase
    case Running =>
      && HeadCount(s.disk[L.start]) == 0
      && (forall b :: b in s.cache <==> b in s.lh)
      && (Quiet(s.ops) ==> s.lh == [])
    case WritingLog(t) =>
      && HeadCount(s.disk[L.start]) == 0
      && (forall b :: b in s.cache <==> b in s.lh)
      && t <= |s.lh| && Quiet(s.ops)
      && forall i :: 0 <= i < t ==> s.disk[Slot(L, i)] == s.cache[s.lh[i]]
    case Installing(t) =>
      && HeadNums(s.disk[L.start]) == s.lh
      && t <= |s.lh| && Quiet(s.ops) && Installed(L, s.disk, s.lh, t)
      && (forall i :: t <= i < |s.lh| ==> s.lh[i] in s.cache && s.cache[s.lh[i]] == s.disk[Slot(L, i)])
      && (forall b :: b in s.cache ==> b in s.lh[t..])
    case Finishing =>
      HeadCount(s.disk[L.start]) == 0 && s.lh == [] && s.cache == map[] && Quiet(s.ops)
    case Off =>
      s.lh == [] && s.cache == map[] && Quiet(s.ops)
    case Recovering(t) =>
      && HeadNums(s.disk[L.start]) == s.lh
      && t <= |s.lh| && Quiet(s.ops) && s.cache == map[] && Installed(L, s.disk, s.lh, t)
  }

  /** The list of logged blocks fits the log region, after its header. */
  predicate Fits(L: Layout, s: State) { |s.lh| <= L.size - 1 }
}

/** log.c as a step system: operations begin, log blocks and end in any interleaving, the last one out
    commits one block write at a time, and a crash may strike between any two steps. */
module LogSystem {
  import opened Basics
  import opened LogFormat

  /** One log_write: the operation that made it, the block and its new contents. */
  datatype Record = Record(op: nat, block: int, data: Block)

  datatype Phase =
    | Running
    | Committing(k: nat)  // commit has made k block writes
    | Recovering(k: nat)  // recover_from_log has made k block writes

  datatype State = State(
    lay: Layout,
    disk: Disk,
    cache: map<int, Block>,        // buffers pinned by B_DIRTY
    lh: seq<int>,                  // log.lh.block[..log.lh.n]
    outstanding: int,
    committing: bool,
    phase: Phase,
    ops: map<nat, set<int>>,       // operations in progress and the blocks each has logged
    nextOp: nat,
    history: seq<Record>,          // every surviving log_write since `base`, in order
    durable: nat,                  // history[..durable] has reached the commit point
    base: Disk,
    origin: Disk,                  // the disk when the current commit or recovery began
    vals: map<int, Block>)         // the cache when the current commit began

  datatype Action =
    | Begin
    | Write(op: nat, block: int, data: Block)
    | End(op: nat)
    | CommitWriteBlock
    | CommitDone
    | Crash
    | RecoverWriteBlock
    | RecoverDone

  datatype Outcome = Blocked | Panic | Ok(s: State)

  // ------------------------------------------------------------------ steps

  /** bread: a pinned buffer, or else the disk. */
  function Read(s: State, b: int): Block
    requires 0 <= b < |s.disk|
  {
    if b in s.cache then s.cache[b] else s.disk[b]
  }

  function BeginStep(s: State): Outcome {
    if !s.phase.Running? || s.committing then Blocked
    else if |s.lh| + (s.outstanding + 1) * MAXOPBLOCKS > LOGSIZE then Blocked
    else Ok(s.(outstanding := s.outstanding + 1, ops := s.ops[s.nextOp := {}], nextOp := s.nextOp + 1))
  }

  function WriteStep(s: State, op: nat, b: int, data: Block): Outcome {
    if op !in s.ops then Blocked
    else if |s.lh| >= LOGSIZE || |s.lh| >= s.lay.size - 1 then Panic
    else if s.outstanding < 1 then Panic
    else Ok(s.(lh := if b in s.lh then s.lh else s.lh + [b],
               cache := s.cache[b := data],
               ops := s.ops[op := s.ops[op] + {b}],
               history := s.history + [Record(op, b, data)]))
  }

  function EndStep(s: State, op: nat): Outcome {
    if op !in s.ops then Blocked
    else if s.committing then Panic
    else
      var t := s.(outstanding := s.outstanding - 1, ops := s.ops - {op});
      if t.outstanding == 0
      then Ok(t.(committing := true, phase := Committing(0), origin := s.disk, vals := s.cache))
      else Ok(t)
  }

  /** The next block write of commit. */
  function CommitStep(s: State): Outcome
    requires s.lay.Fits(s.disk) && |s.lh| <= LOGSIZE && |s.lh| < s.lay.size
    requires forall i :: 0 <= i < |s.lh| ==> 0 <= s.lh[i] < |s.disk|
  {
    if !s.phase.Committing? || s.phase.k >= CommitWrites(|s.lh|) then Blocked
    else
      var n, k := |s.lh|, s.phase.k;
      Ok(s.(phase := Committing(k + 1),
            disk := if k < n then s.disk[s.lay.Slot(k) := Read(s, s.lh[k])]
                    else if k == n then s.disk[s.lay.start := PutHeader(s.disk[s.lay.start], s.lh)]
                    else if k <= 2 * n then s.disk[s.lh[k - n - 1] := s.disk[s.lay.Slot(k - n - 1)]]
                    else s.disk[s.lay.start := PutHeader(s.disk[s.lay.start], [])],
            durable := if k == n then |s.history| else s.durable,
            cache := if n < k <= 2 * n then s.cache - {s.lh[k - n - 1]} else s.cache))
  }

  function CommitDoneStep(s: State): Outcome {
    if !s.phase.Committing? || s.phase.k != CommitWrites(|s.lh|) then Blocked
    else Ok(s.(phase := Running, committing := false, lh := []))
  }

  /** Memory is lost, and with it every write that had not reached the commit point. */
  function CrashStep(s: State): Outcome
    requires Recoverable(s.disk, s.lay) && s.durable <= |s.history|
  {
    Ok(s.(cache := map[], lh := GetHeader(s.disk[s.lay.start]), outstanding := 0, committing := false,
          phase := Recovering(0), ops := map[], history := s.history[..s.durable], origin := s.disk))
  }

  function RecoverStep(s: State): Outcome
    requires s.lay.Fits(s.disk) && |s.lh| < s.lay.size
    requires forall i :: 0 <= i < |s.lh| ==> 0 <= s.lh[i] < |s.disk|
  {
    if !s.phase.Recovering? || s.phase.k > |s.lh| then Blocked
    else
      var k := s.phase.k;
      var t := s.(phase := Recovering(k + 1));
      if k < |s.lh| then Ok(t.(disk := s.disk[s.lh[k] := s.disk[s.lay.Slot(k)]]))
      else Ok(t.(disk := s.disk[s.lay.start := PutHeader(s.disk[s.lay.start], [])]))
  }

  function RecoverDoneStep(s: State): Outcome {
    if !s.phase.Recovering? || s.phase.k != |s.lh| + 1 then Blocked
    else Ok(s.(phase := Running, lh := []))
  }

  /** The disk addresses in memory are ones the code can use. */
  predicate Addressable(s: State) {
    && s.lay.Fits(s.disk) && |s.lh| <= LOGSIZE && |s.lh| < s.lay.size
    && (forall i :: 0 <= i < |s.lh| ==> 0 <= s.lh[i] < |s.disk|)
    && Recoverable(s.disk, s.lay) && s.durable <= |s.history|
  }

  function Step(s: State, a: Action): Outcome
    requires Addressable(s)
  {
    match a
    case Begin => BeginStep(s)
    case Write(op, b, data) => WriteStep(s, op, b, data)
    case End(op) => EndStep(s, op)
    case CommitWriteBlock => CommitStep(s)
    case CommitDone => CommitDoneStep(s)
    case Crash => CrashStep(s)
    case RecoverWriteBlock => RecoverStep(s)
    case RecoverDone => RecoverDoneStep(s)
  }

  /** What log.c asks of its callers: log only home blocks, and at most MAXOPBLOCKS different ones per operation. */
  predicate Disciplined(s: State, a: Action) {
    a.Write? && a.op in s.ops ==>
      s.lay.IsHome(s.disk, a.block) && |s.ops[a.op] + {a.block}| <= MAXOPBLOCKS
  }

  // -------------------------------------------------------------- meaning

  /** Every record names a home block. */
  ghost predicate HomeRecords(d: Disk, lay: Layout, h: seq<Record>) {
    forall i :: 0 <= i < |h| ==> lay.IsHome(d, h[i].block)
  }

  /** The contents of the disk blocks when exactly the writes h have taken effect, in order. */
  ghost function Replay(base: Disk, lay: Layout, h: seq<Record>): (e: Disk)
    requires HomeRecords(base, lay, h)
    ensures |e| == |base|
  {
    if h == [] then base
    else
      var r := h[|h| - 1];
      Replay(base, lay, h[..|h| - 1])[r.block := r.data]
  }

  ghost function Elems(bl: seq<int>): set<int> {
    set b | b in bl
  }

  ghost function Logged(m: map<nat, set<int>>): nat {
    if m == map[] then 0 else var op :| op in m; |m[op]| + Logged(m - {op})
  }

  lemma {:induction false} LoggedRemove(m: map<nat, set<int>>, op: nat)
    requires op in m
    ensures Logged(m) == |m[op]| + Logged(m - {op})
    decreases |m|
  {
    var c :| c in m && Logged(m) == |m[c]| + Logged(m - {c});
    if c != op {
      var mc, mo := m - {c}, m - {op};
      assert mc.Keys == m.Keys - {c} && mo.Keys == m.Keys - {op};
      assert |mc.Keys| < |m.Keys|;
      LoggedRemove(mc, op);
      assert |mo.Keys| < |m.Keys|;
      LoggedRemove(mo, c);
      assert mc - {op} == mo - {c};
    }
  }

  lemma LoggedUpdate(m: map<nat, set<int>>, op: nat, bs: set<int>)
    ensures Logged(m[op := bs]) == |bs| + Logged(m - {op})
  {
    var u := m[op := bs];
    LoggedRemove(u, op);
    assert u - {op} == m - {op};
  }

  lemma {:induction false} LoggedBound(m: map<nat, set<int>>)
    requires forall op :: op in m ==> |m[op]| <= MAXOPBLOCKS
    ensures Logged(m) <= MAXOPBLOCKS * |m|
    decreases |m|
  {
    if m != map[] {
      var op :| op in m && Logged(m) == |m[op]| + Logged(m - {op});
      assert (m - {op}).Keys == m.Keys - {op};
      assert |(m - {op}).Keys| == |m.Keys| - 1;
      LoggedBound(m - {op});
    }
  }

  // ------------------------------------------------------------ invariants

  /** outstanding counts the operations in progress; none is in progress during a commit or a recovery;
      lh.n plus the unused part of every reservation fits in the log. */
  ghost predicate InvOps(s: State) {
    && s.outstanding == |s.ops|
    && s.committing == s.phase.Committing?
    && (!s.phase.Running? ==> s.ops == map[])
    && (forall op :: op in s.ops ==> op < s.nextOp && |s.ops[op]| <= MAXOPBLOCKS)
    && (forall op :: op in s.ops ==> forall b :: b in s.ops[op] ==> b in s.lh)
    && |s.lh| + MAXOPBLOCKS * |s.ops| - Logged(s.ops) <= LOGSIZE
  }

  /** The first block of lh whose buffer is still pinned after k writes of commit. */
  function PinFrom(n: nat, k: nat): (m: nat)
    ensures m <= n
  {
    if k <= n then 0 else if k <= 2 * n + 1 then k - n - 1 else n
  }

  /** vals holds the logged blocks; install_trans has released the ones it has written home. */
  ghost predicate Pinned(lh: seq<int>, vals: map<int, Block>, k: nat, cache: map<int, Block>) {
    && vals.Keys == Elems(lh)
    && cache.Keys == Elems(lh[PinFrom(|lh|, k)..])
    && forall b :: b in cache && b in vals ==> cache[b] == vals[b]
  }

  /** The memory header lists distinct home blocks; the pinned buffers are theirs. */
  ghost predicate InvLog(s: State) {
    && Loggable(s.disk, s.lay, s.lh)
    && (s.phase.Running? ==> Clean(s.disk, s.lay) && s.cache.Keys == Elems(s.lh))
    && (s.phase.Committing? ==>
          && s.phase.k <= CommitWrites(|s.lh|)
          && Committable(s.origin, s.lay, s.lh, s.vals)
          && s.disk == CommitDisk(s.origin, s.lay, s.lh, s.vals, s.phase.k)
          && Pinned(s.lh, s.vals, s.phase.k, s.cache))
    && (s.phase.Recovering? ==>
          && s.cache == map[]
          && Recoverable(s.origin, s.lay)
          && s.lh == GetHeader(s.origin[s.lay.start])
          && s.phase.k <= |s.lh| + 1
          && s.disk == RecoveryDisk(s.origin, s.lay, s.phase.k))
  }

  /** What the file system reads is the replay of its history. */
  ghost predicate InvView(s: State)
    requires HomeRecords(s.base, s.lay, s.history) && |s.base| == |s.disk|
  {
    && (s.phase.Running? ==>
          forall b :: s.lay.IsHome(s.disk, b) ==> Read(s, b) == Replay(s.base, s.lay, s.history)[b])
    && (s.phase.Committing? ==>
          && |s.origin| == |s.disk|
          && forall b :: s.lay.IsHome(s.disk, b) ==>
               (if b in s.vals then s.vals[b] else s.origin[b]) == Replay(s.base, s.lay, s.history)[b])
  }

  /** What recovery would produce from the disk as it is now is the replay of the durable prefix. */
  ghost predicate InvDurable(s: State)
    requires HomeRecords(s.base, s.lay, s.history) && |s.base| == |s.disk|
  {
    && s.durable <= |s.history|
    && Recoverable(s.disk, s.lay)
    && SameHome(Recovered(s.disk, s.lay), Replay(s.base, s.lay, s.history[..s.durable]), s.lay)
    && (s.lh == [] || s.phase.Recovering? ==> s.durable == |s.history|)
    && (s.phase.Committing? && |s.lh| < s.phase.k ==> s.durable == |s.history|)
  }

  /** The durable prefix cuts no operation in two, and no operation in progress has a part in it. */
  ghost predicate InvAtomic(s: State)
    requires s.durable <= |s.history|
  {
    && (forall i :: 0 <= i < |s.history| ==> s.history[i].op < s.nextOp)
    && (forall i, j :: 0 <= i < s.durable <= j < |s.history| ==> s.history[i].op != s.history[j].op)
    && (forall i :: 0 <= i < s.durable ==> s.history[i].op !in s.ops)
  }

  ghost predicate Inv(s: State) {
    && s.lay.Fits(s.disk) && |s.base| == |s.disk|
    && HomeRecords(s.base, s.lay, s.history)
    && InvOps(s) && InvLog(s) && InvView(s) && InvDurable(s) && InvAtomic(s)
  }

  /** A freshly formatted file system: empty log, nothing in progress. */
  ghost predicate Init(s: State) {
    && Clean(s.disk, s.lay) && s.base == s.disk
    && s.cache == map[] && s.lh == [] && s.outstanding == 0 && !s.committing && s.phase == Running
    && s.ops == map[] && s.history == [] && s.durable == 0
  }

  lemma InitInv(s: State)
    requires Init(s)
    ensures Inv(s)
  {
    assert GetHeader(s.disk[s.lay.start]) == [];
    RecoveredAt(s.disk, s.lay);
  }

  lemma ReplayExtend(base: Disk, lay: Layout, h: seq<Record>, r: Record)
    requires HomeRecords(base, lay, h) && lay.IsHome(base, r.block)
    ensures HomeRecords(base, lay, h + [r])
    ensures Replay(base, lay, h + [r]) == Replay(base, lay, h)[r.block := r.data]
  {
    assert (h + [r])[..|h|] == h;
  }

  /** A clean disk is its own recovery as far as home blocks go. */
  lemma CleanRecovers(d: Disk, lay: Layout)
    requires Clean(d, lay)
    ensures Recoverable(d, lay) && SameHome(d, Recovered(d, lay), lay)
  {
    assert GetHeader(d[lay.start]) == [];
    RecoveredAt(d, lay);
  }

  lemma ReserveNew(m: map<nat, set<int>>, op: nat)
    requires op !in m && forall o :: o in m ==> |m[o]| <= MAXOPBLOCKS
    ensures |m[op := {}]| == |m| + 1
    ensures Logged(m[op := {}]) == Logged(m) <= MAXOPBLOCKS * |m|
  {
    LoggedUpdate(m, op, {});
    assert m - {op} == m;
    assert m[op := {}].Keys == m.Keys + {op};
    assert |m[op := {}].Keys| == |m.Keys| + 1;
    LoggedBound(m);
  }

  lemma BeginInv(s: State)
    requires Inv(s) && BeginStep(s).Ok?
    ensures Inv(BeginStep(s).s)
  {
    ReserveNew(s.ops, s.nextOp);
  }

  lemma WriteInvOps(s: State, op: nat, b: int, data: Block)
    requires Inv(s) && Disciplined(s, Write(op, b, data)) && WriteStep(s, op, b, data).Ok?
    ensures InvOps(WriteStep(s, op, b, data).s)
  {
    var t := WriteStep(s, op, b, data).s;
    assert t.ops.Keys == s.ops.Keys;
    assert |t.ops.Keys| == |s.ops.Keys|;
    LoggedUpdate(s.ops, op, s.ops[op] + {b});
    LoggedRemove(s.ops, op);
  }

  lemma WriteInvLog(s: State, op: nat, b: int, data: Block)
    requires InvLog(s) && s.phase.Running? && s.lay.IsHome(s.disk, b) && WriteStep(s, op, b, data).Ok?
    ensures InvLog(WriteStep(s, op, b, data).s)
  {
    var t := WriteStep(s, op, b, data).s;
    assert Distinct(t.lh);
    assert t.cache.Keys == s.cache.Keys + {b} == Elems(t.lh);
  }

  lemma WriteInvView(s: State, op: nat, b: int, data: Block)
    requires Inv(s) && s.phase.Running? && s.lay.IsHome(s.disk, b) && WriteStep(s, op, b, data).Ok?
    ensures HomeRecords(s.base, s.lay, WriteStep(s, op, b, data).s.history)
    ensures InvView(WriteStep(s, op, b, data).s) && InvDurable(WriteStep(s, op, b, data).s)
  {
    hide InvOps, InvLog, InvAtomic;
    var t := WriteStep(s, op, b, data).s;
    ReplayExtend(s.base, s.lay, s.history, Record(op, b, data));
    assert t.history[..t.durable] == s.history[..s.durable];
  }

  lemma WriteInv(s: State, op: nat, b: int, data: Block)
    requires Inv(s) && Disciplined(s, Write(op, b, data)) && WriteStep(s, op, b, data).Ok?
    ensures Inv(WriteStep(s, op, b, data).s)
  {
    hide InvLog, InvView, Recovered, Replay;
    WriteInvOps(s, op, b, data);
    WriteInvLog(s, op, b, data);
    WriteInvView(s, op, b, data);
  }

  lemma EndInv(s: State, op: nat)
    requires Inv(s) && EndStep(s, op).Ok?
    ensures Inv(EndStep(s, op).s)
  {
    var t := EndStep(s, op).s;
    assert t.ops.Keys == s.ops.Keys - {op};
    assert |t.ops.Keys| == |s.ops.Keys| - 1;
    LoggedRemove(s.ops, op);
    assert t.phase.Committing? ==> t.ops.Keys == {};
  }

  /** The block write the code makes is the one CommitDisk prescribes. */
  lemma CommitStepDisk(s: State)
    requires Inv(s) && Addressable(s) && CommitStep(s).Ok?
    ensures CommitStep(s).s.disk == CommitDisk(s.origin, s.lay, s.lh, s.vals, s.phase.k + 1)
  {
    hide InvOps, InvView, InvDurable, InvAtomic, Replay, Recovered, GetHeader, PutHeader, Recoverable, Distinct, Elems;
    var k := s.phase.k;
    assert s.disk == CommitDisk(s.origin, s.lay, s.lh, s.vals, k);
    if k < |s.lh| {
      assert s.lh[k] in s.lh;
      assert Read(s, s.lh[k]) == s.vals[s.lh[k]];
    }
  }

  lemma PinnedStep(lh: seq<int>, vals: map<int, Block>, k: nat, cache: map<int, Block>)
    requires Pinned(lh, vals, k, cache) && Distinct(lh) && k < CommitWrites(|lh|)
    ensures Pinned(lh, vals, k + 1, if |lh| < k <= 2 * |lh| then cache - {lh[k - |lh| - 1]} else cache)
  {
    if |lh| < k <= 2 * |lh| {
      var m := k - |lh| - 1;
      assert lh[m..] == [lh[m]] + lh[m + 1..];
      assert lh[m] !in lh[m + 1..];
      assert (cache - {lh[m]}).Keys == cache.Keys - {lh[m]};
    }
  }

  /** Once the header is written, recovery yields what the file system was reading when the commit began. */
  lemma HeaderCommits(d: Disk, lay: Layout, lh: seq<int>, vals: map<int, Block>, k: nat, view: Disk)
    requires Committable(d, lay, lh, vals) && |lh| < k <= CommitWrites(|lh|) && vals.Keys == Elems(lh)
    requires |view| == |d|
    requires forall b :: lay.IsHome(d, b) ==> (if b in vals then vals[b] else d[b]) == view[b]
    ensures Recoverable(CommitDisk(d, lay, lh, vals, k), lay)
    ensures SameHome(Recovered(CommitDisk(d, lay, lh, vals, k), lay), view, lay)
  {
    CommitCut(d, lay, lh, vals, k);
    var e := Recovered(CommitDisk(d, lay, lh, vals, k), lay);
    forall j | lay.IsHome(e, j)
      ensures e[j] == view[j]
    {
      if j in lh { var i :| 0 <= i < |lh| && lh[i] == j; }
    }
  }

  /** Recovery's result moves from the old durable contents to the current ones exactly at the header write. */
  lemma CommitPoint(d: Disk, lay: Layout, lh: seq<int>, vals: map<int, Block>, k: nat, before: Disk, view: Disk)
    requires Committable(d, lay, lh, vals) && k < CommitWrites(|lh|) && vals.Keys == Elems(lh)
    requires |view| == |d|
    requires forall b :: lay.IsHome(d, b) ==> (if b in vals then vals[b] else d[b]) == view[b]
    requires Recoverable(CommitDisk(d, lay, lh, vals, k), lay)
    requires SameHome(Recovered(CommitDisk(d, lay, lh, vals, k), lay), before, lay)
    ensures Recoverable(CommitDisk(d, lay, lh, vals, k + 1), lay)
    ensures SameHome(Recovered(CommitDisk(d, lay, lh, vals, k + 1), lay), if k < |lh| then before else view, lay)
  {
    hide Recoverable, Recovered, CommitDisk, Committable, Applied, Clean;
    if k < |lh| {
      CommitCut(d, lay, lh, vals, k);
      CommitCut(d, lay, lh, vals, k + 1);
    } else {
      HeaderCommits(d, lay, lh, vals, k + 1, view);
    }
  }

  lemma CommitStepFields(s: State)
    requires Inv(s) && Addressable(s) && CommitStep(s).Ok?
    ensures var t, k := CommitStep(s).s, s.phase.k;
            && s.phase.Committing? && k < CommitWrites(|s.lh|)
            && t == s.(phase := Committing(k + 1), disk := t.disk, durable := t.durable, cache := t.cache)
            && t.disk == CommitDisk(s.origin, s.lay, s.lh, s.vals, k + 1)
            && t.durable == (if k < |s.lh| then s.durable else |s.history|)
            && Pinned(s.lh, s.vals, k + 1, t.cache)
  {
    hide InvOps, InvView, InvAtomic, Pinned, CommitDisk, Recovered, Replay, SameHome;
    CommitStepDisk(s);
    PinnedStep(s.lh, s.vals, s.phase.k, s.cache);
  }

  lemma CommitFieldsDurable(s: State, t: State)
    requires Inv(s) && s.phase.Committing? && s.phase.k < CommitWrites(|s.lh|)
    requires t == s.(phase := Committing(s.phase.k + 1), disk := t.disk, durable := t.durable, cache := t.cache)
    requires t.disk == CommitDisk(s.origin, s.lay, s.lh, s.vals, s.phase.k + 1)
    requires t.durable == (if s.phase.k < |s.lh| then s.durable else |s.history|)
    ensures InvDurable(t) && Loggable(t.disk, t.lay, t.lh)
  {
    hide Recovered, CommitDisk, Replay, Committable, SameHome, InvOps, InvAtomic;
    CommitPoint(s.origin, s.lay, s.lh, s.vals, s.phase.k,
                Replay(s.base, s.lay, s.history[..s.durable]), Replay(s.base, s.lay, s.history));
    assert s.history[..|s.history|] == s.history;
  }

  lemma CommitFieldsLog(s: State, t: State)
    requires Inv(s) && s.phase.Committing? && s.phase.k < CommitWrites(|s.lh|)
    requires t == s.(phase := Committing(s.phase.k + 1), disk := t.disk, durable := t.durable, cache := t.cache)
    requires t.disk == CommitDisk(s.origin, s.lay, s.lh, s.vals, s.phase.k + 1)
    requires Pinned(s.lh, s.vals, s.phase.k + 1, t.cache)
    ensures InvLog(t)
  {
    hide InvOps, InvView, InvDurable, InvAtomic, Pinned;
  }

  lemma CommitStepInv(s: State)
    requires Inv(s) && Addressable(s) && CommitStep(s).Ok?
    ensures Inv(CommitStep(s).s)
  {
    hide CommitStep, InvLog, CommitDisk, Replay, Recovered, SameHome, Pinned;
    CommitStepFields(s);
    CommitFieldsLog(s, CommitStep(s).s);
    CommitFieldsDurable(s, CommitStep(s).s);
  }

  lemma CommitDoneInv(s: State)
    requires Inv(s) && CommitDoneStep(s).Ok?
    ensures Inv(CommitDoneStep(s).s)
  {
    var t, n := CommitDoneStep(s).s, |s.lh|;
    CommitCut(s.origin, s.lay, s.lh, s.vals, s.phase.k);
    CleanRecovers(s.disk, s.lay);
    assert s.history[..s.durable] == s.history;
    assert s.cache == map[];
  }

  lemma CrashInv(s: State)
    requires Inv(s)
    ensures Inv(CrashStep(s).s)
  {
    var t := CrashStep(s).s;
    assert t.history[..t.durable] == t.history;
    assert forall i :: 0 <= i < |t.history| ==> t.history[i] == s.history[i];
  }

  lemma RecoverStepDisk(s: State)
    requires InvLog(s) && Addressable(s) && RecoverStep(s).Ok?
    ensures RecoverStep(s).s.disk == RecoveryDisk(s.origin, s.lay, s.phase.k + 1)
  {
  }

  lemma RecoverStepInv(s: State)
    requires Inv(s) && Addressable(s) && RecoverStep(s).Ok?
    ensures Inv(RecoverStep(s).s)
  {
    hide RecoveryDisk, Recovered, Replay, Distinct, CommitDisk, SameHome, Pinned;
    RecoverStepDisk(s);
    RecoveryIdempotent(s.origin, s.lay, s.phase.k);
    RecoveryIdempotent(s.origin, s.lay, s.phase.k + 1);
  }

  lemma RecoverDoneInv(s: State)
    requires Inv(s) && RecoverDoneStep(s).Ok?
    ensures Inv(RecoverDoneStep(s).s)
  {
    RecoveredAt(s.origin, s.lay);
    CleanRecovers(s.disk, s.lay);
    assert s.history[..s.durable] == s.history;
  }

  /** Every step of a disciplined client keeps the invariant. */
  lemma StepInv(s: State, a: Action)
    requires Inv(s) && Disciplined(s, a)
    ensures Addressable(s)
    ensures Step(s, a).Ok? ==> Inv(Step(s, a).s)
  {
    if Step(s, a).Ok? {
      match a
      case Begin => BeginInv(s);
      case Write(op, b, data) => WriteInv(s, op, b, data);
      case End(op) => EndInv(s, op);
      case CommitWriteBlock => CommitStepInv(s);
      case CommitDone => CommitDoneInv(s);
      case Crash => CrashInv(s);
      case RecoverWriteBlock => RecoverStepInv(s);
      case RecoverDone => RecoverDoneInv(s);
    }
  }

  // ------------------------------------------------------------------ runs

  ghost predicate Next(s: State, a: Action, t: State) {
    Addressable(s) && Disciplined(s, a) && Step(s, a) == Ok(t)
  }

  /** A run: from a fresh file system, every action carried out by a disciplined client. */
  ghost predicate IsRun(ss: seq<State>, acts: seq<Action>) {
    && |ss| == |acts| + 1
    && Init(ss[0])
    && forall i :: 0 <= i < |acts| ==> Next(ss[i], acts[i], ss[i + 1])
  }

  lemma StepFrame(s: State, a: Action)
    requires Addressable(s)
    ensures Step(s, a).Ok? ==> Step(s, a).s.lay == s.lay && Step(s, a).s.base == s.base
  {
  }

  lemma NextInv(s: State, a: Action, t: State)
    requires Inv(s) && Next(s, a, t)
    ensures Inv(t) && t.lay == s.lay && t.base == s.base
  {
    hide Inv, Step, Addressable, Disciplined;
    StepInv(s, a);
    StepFrame(s, a);
  }

  lemma {:induction false} RunInv(ss: seq<State>, acts: seq<Action>, i: nat)
    requires IsRun(ss, acts) && i < |ss|
    ensures Inv(ss[i]) && ss[i].lay == ss[0].lay && ss[i].base == ss[0].base
  {
    hide Inv, Init, Next;
    if i == 0 {
      InitInv(ss[0]);
    } else {
      RunInv(ss, acts, i - 1);
      assert Next(ss[i - 1], acts[i - 1], ss[i]);
      NextInv(ss[i - 1], acts[i - 1], ss[i]);
    }
  }

  /** All of op's writes are among the first p, or none is. */
  ghost predicate Whole(h: seq<Record>, p: nat, op: nat)
    requires p <= |h|
  {
    (forall i :: p <= i < |h| ==> h[i].op != op) || (forall i :: 0 <= i < p ==> h[i].op != op)
  }

  /** Crash safety of every run: whenever the machine stops, recovery yields the replay of a prefix of the
      history that contains every operation whole or not at all, and none that was still in progress. */
  lemma CrashSafety(ss: seq<State>, acts: seq<Action>, i: nat)
    requires IsRun(ss, acts) && i < |ss|
    ensures var s := ss[i];
            && s.durable <= |s.history| && Recoverable(s.disk, s.lay)
            && HomeRecords(ss[0].disk, s.lay, s.history[..s.durable])
            && SameHome(Recovered(s.disk, s.lay), Replay(ss[0].disk, s.lay, s.history[..s.durable]), s.lay)
            && (forall op :: Whole(s.history, s.durable, op))
            && (forall j :: 0 <= j < s.durable ==> s.history[j].op !in s.ops)
  {
    RunInv(ss, acts, i);
    var s := ss[i];
    forall op
      ensures Whole(s.history, s.durable, op)
    {
      if j :| 0 <= j < s.durable && s.history[j].op == op { }
    }
  }

  /** The same, with any number of crashes while recovery runs. */
  lemma CrashSafetyRepeated(ss: seq<State>, acts: seq<Action>, i: nat, cuts: seq<nat>, e: Disk)
    requires IsRun(ss, acts) && i < |ss|
    requires Recoverable(ss[i].disk, ss[i].lay) && CrashedRecoveries(ss[i].disk, ss[i].lay, cuts, e)
    ensures Recoverable(e, ss[i].lay) && ss[i].durable <= |ss[i].history|
    ensures HomeRecords(ss[0].disk, ss[i].lay, ss[i].history[..ss[i].durable])
    ensures SameHome(Recovered(e, ss[i].lay),
                     Replay(ss[0].disk, ss[i].lay, ss[i].history[..ss[i].durable]), ss[i].lay)
  {
    CrashSafety(ss, acts, i);
    CrashesDuringRecovery(ss[i].disk, ss[i].lay, cuts, e);
  }

  lemma DurableStep(s: State, a: Action, t: State)
    requires Inv(s) && Next(s, a, t)
    ensures s.durable <= t.durable <= |t.history| && s.durable <= |s.history|
    ensures t.history[..s.durable] == s.history[..s.durable]
  {
  }

  lemma PrefixOfPrefix(g: seq<Record>, h: seq<Record>, p: nat, q: nat)
    requires q <= p <= |g| && p <= |h| && g[..p] == h[..p]
    ensures g[..q] == h[..q]
  {
    assert g[..q] == g[..p][..q];
    assert h[..q] == h[..p][..q];
  }

  /** What has been committed stays committed, through every later step and crash. */
  lemma {:induction false} CommittedIsNeverLost(ss: seq<State>, acts: seq<Action>, i: nat, j: nat)
    requires IsRun(ss, acts) && i <= j < |ss|
    ensures ss[i].durable <= ss[j].durable <= |ss[j].history| && ss[i].durable <= |ss[i].history|
    ensures ss[j].history[..ss[i].durable] == ss[i].history[..ss[i].durable]
    decreases j - i
  {
    hide Init, Next;
    if i == j {
      RunInv(ss, acts, j);
    } else {
      CommittedIsNeverLost(ss, acts, i, j - 1);
      RunInv(ss, acts, j - 1);
      assert Next(ss[j - 1], acts[j - 1], ss[j]);
      DurableStep(ss[j - 1], acts[j - 1], ss[j]);
      PrefixOfPrefix(ss[j - 1].history, ss[j].history, ss[j - 1].durable, ss[i].durable);
    }
  }

  /** Group commit: a commit runs with no operation outstanding and so never meets the "log.committing" panic;
      the header has no duplicates; header plus unused reservations fit in LOGSIZE; between commits the file
      system reads its own latest writes, and once the header is empty all of them are durable. */
  lemma GroupCommit(ss: seq<State>, acts: seq<Action>, i: nat)
    requires IsRun(ss, acts) && i < |ss|
    ensures var s := ss[i];
            && (s.committing ==> s.outstanding == 0 && s.ops == map[])
            && (forall op :: !EndStep(s, op).Panic?)
            && Distinct(s.lh)
            && |s.lh| + MAXOPBLOCKS * |s.ops| - Logged(s.ops) <= LOGSIZE
            && HomeRecords(s.base, s.lay, s.history) && |s.base| == |s.disk|
            && (s.phase.Running? ==> forall b :: s.lay.IsHome(s.disk, b) ==>
                  Read(s, b) == Replay(s.base, s.lay, s.history)[b])
            && (s.lh == [] ==> s.durable == |s.history|)
  {
    RunInv(ss, acts, i);
  }

  // ---------------------------------------------- what was written, and when

  /** After a log_write the block reads as the data just written, also when it was pinned already; no other block reads
      differently, and the disk has not changed. */
  lemma WriteReads(s: State, op: nat, b: int, data: Block)
    requires Inv(s) && 0 <= b < |s.disk| && WriteStep(s, op, b, data).Ok?
    ensures var t := WriteStep(s, op, b, data).s;
            && t.disk == s.disk && Read(t, b) == data
            && (forall c :: 0 <= c < |s.disk| && c != b ==> Read(t, c) == Read(s, c))
            && Elems(t.lh) == Elems(s.lh) + {b}
  {
    hide Inv;
  }

  /** The record that a step leaves, if it is a log_write. */
  function Recorded(a: Action): seq<Record> {
    if a.Write? then [Record(a.op, a.block, a.data)] else []
  }

  /** The write of the header is the commit point. */
  predicate CommitsAt(s: State, a: Action) {
    a.CommitWriteBlock? && s.phase == Committing(|s.lh|)
  }

  /** What the first i steps wrote, in order and without what crashes undid. */
  ghost function Written(ss: seq<State>, acts: seq<Action>, i: nat): seq<Record>
    requires i <= |acts| < |ss|
    decreases i, 1
  {
    if i == 0 then []
    else if acts[i - 1].Crash? then Committed(ss, acts, i - 1)
    else Written(ss, acts, i - 1) + Recorded(acts[i - 1])
  }

  /** What of it had been written when a header last reached the disk. */
  ghost function Committed(ss: seq<State>, acts: seq<Action>, i: nat): seq<Record>
    requires i <= |acts| < |ss|
    decreases i, 0
  {
    if i == 0 then []
    else if CommitsAt(ss[i - 1], acts[i - 1]) then Written(ss, acts, i - 1)
    else Committed(ss, acts, i - 1)
  }

  lemma HistoryNext(s: State, a: Action, t: State)
    requires Inv(s) && Next(s, a, t)
    ensures s.durable <= |s.history| && t.durable <= |t.history|
    ensures t.history == if a.Crash? then s.history[..s.durable] else s.history + Recorded(a)
    ensures t.history[..t.durable] == if CommitsAt(s, a) then s.history else s.history[..s.durable]
  {
    hide InvOps, InvLog, InvView, InvAtomic, Disciplined, Recoverable;
  }

  /** The history is what the clients of the run wrote, and its durable part what they had written at the last commit
      point. */
  lemma {:induction false} HistoryIsWritten(ss: seq<State>, acts: seq<Action>, i: nat)
    requires IsRun(ss, acts) && i < |ss|
    ensures ss[i].durable <= |ss[i].history|
    ensures ss[i].history == Written(ss, acts, i) && ss[i].history[..ss[i].durable] == Committed(ss, acts, i)
  {
    hide Inv, Next, CommitsAt;
    if i > 0 {
      HistoryIsWritten(ss, acts, i - 1);
      RunInv(ss, acts, i - 1);
      assert Next(ss[i - 1], acts[i - 1], ss[i]);
      HistoryNext(ss[i - 1], acts[i - 1], ss[i]);
    }
  }

  /** The j-th record is the last for its block. */
  ghost predicate LastFor(h: seq<Record>, j: nat, b: int) {
    j < |h| && h[j].block == b && forall k :: j < k < |h| ==> h[k].block != b
  }

  lemma {:induction false} ReplayLast(base: Disk, lay: Layout, h: seq<Record>, j: nat, b: int)
    requires HomeRecords(base, lay, h) && LastFor(h, j, b)
    ensures 0 <= b < |base| && Replay(base, lay, h)[b] == h[j].data
  {
    if j < |h| - 1 {
      assert h[|h| - 1].block != b;
      ReplayLast(base, lay, h[..|h| - 1], j, b);
    }
  }

  lemma {:induction false} ReplayNone(base: Disk, lay: Layout, h: seq<Record>, b: int)
    requires HomeRecords(base, lay, h) && 0 <= b < |base| && forall k :: 0 <= k < |h| ==> h[k].block != b
    ensures Replay(base, lay, h)[b] == base[b]
  {
    if h != [] { ReplayNone(base, lay, h[..|h| - 1], b); }
  }

  /** Whenever the machine stops in any run, recovery gives each home block the last data that a client wrote to it
      before the last commit point, or what it held at the start if none did. */
  lemma RecoveredIsLast(ss: seq<State>, acts: seq<Action>, i: nat, b: int)
    requires IsRun(ss, acts) && i < |ss| && ss[i].lay.IsHome(ss[i].disk, b)
    ensures Recoverable(ss[i].disk, ss[i].lay) && |ss[0].disk| == |ss[i].disk|
    ensures var h, e := Committed(ss, acts, i), Recovered(ss[i].disk, ss[i].lay);
            && (forall j: nat :: LastFor(h, j, b) ==> e[b] == h[j].data)
            && ((forall k :: 0 <= k < |h| ==> h[k].block != b) ==> e[b] == ss[0].disk[b])
  {
    hide Init, Next, Recovered, Replay, Recoverable;
    CrashSafety(ss, acts, i);
    HistoryIsWritten(ss, acts, i);
    RunSize(ss, acts, i);
    var h := Committed(ss, acts, i);
    forall j: nat | LastFor(h, j, b)
      ensures Replay(ss[0].disk, ss[i].lay, h)[b] == h[j].data
    {
      ReplayLast(ss[0].disk, ss[i].lay, h, j, b);
    }
    if forall k :: 0 <= k < |h| ==> h[k].block != b { ReplayNone(ss[0].disk, ss[i].lay, h, b); }
  }

  lemma RunSize(ss: seq<State>, acts: seq<Action>, i: nat)
    requires IsRun(ss, acts) && i < |ss|
    ensures |ss[i].disk| == |ss[0].disk| == |ss[i].base|
  {
    RunInv(ss, acts, i);
    RunInv(ss, acts, 0);
  }

  /** Between commits the same is true of reading, with everything that was written. */
  lemma ReadIsLast(ss: seq<State>, acts: seq<Action>, i: nat, b: int, j: nat)
    requires IsRun(ss, acts) && i < |ss| && ss[i].phase.Running? && ss[i].lay.IsHome(ss[i].disk, b)
    requires LastFor(Written(ss, acts, i), j, b)
    ensures Read(ss[i], b) == Written(ss, acts, i)[j].data
  {
    hide Init, Next, Replay, Recovered, Written, Committed;
    GroupCommit(ss, acts, i);
    HistoryIsWritten(ss, acts, i);
    ReplayLast(ss[i].base, ss[i].lay, ss[i].history, j, b);
  }

  /** When begin_op admits an operation, in any run: exactly when no commit or recovery is going on and, with
      MAXOPBLOCKS blocks for it and for each in progress, the header would still fit. It then is a new one. */
  lemma BeginIff(ss: seq<State>, acts: seq<Action>, i: nat)
    requires IsRun(ss, acts) && i < |ss|
    ensures var s := ss[i];
            && (BeginStep(s).Ok? <==> s.phase.Running? && |s.lh| + (|s.ops| + 1) * MAXOPBLOCKS <= LOGSIZE)
            && (BeginStep(s).Ok? ==>
                  var t := BeginStep(s).s;
                  && s.nextOp !in s.ops && t.ops == s.ops[s.nextOp := {}] && |t.ops| == |s.ops| + 1
                  && t.outstanding == |t.ops| && t.lh == s.lh && t.cache == s.cache && t.disk == s.disk)
  {
    RunInv(ss, acts, i);
    hide InvLog, InvView, InvDurable, InvAtomic;
    ReserveNew(ss[i].ops, ss[i].nextOp);
  }

  /** When log_write succeeds, in any run: in an operation, exactly when the header has room by both its bounds. */
  lemma WriteIff(ss: seq<State>, acts: seq<Action>, i: nat, op: nat, b: int, data: Block)
    requires IsRun(ss, acts) && i < |ss| && op in ss[i].ops
    ensures WriteStep(ss[i], op, b, data).Ok? <==> |ss[i].lh| < LOGSIZE && |ss[i].lh| < ss[i].lay.size - 1
    ensures !WriteStep(ss[i], op, b, data).Ok? ==> WriteStep(ss[i], op, b, data).Panic?
  {
    RunInv(ss, acts, i);
    hide InvLog, InvView, InvDurable, InvAtomic;
    assert |ss[i].ops.Keys| > 0;
  }

  /** t is reached from s by the given actions. */
  ghost predicate Reaches(s: State, acts: seq<Action>, t: State)
    decreases |acts|
  {
    if acts == [] then s == t
    else exists m :: Next(s, acts[0], m) && Reaches(m, acts[1..], t)
  }

  lemma ReachesSelf(s: State)
    ensures Reaches(s, [], s)
  {
  }

  lemma ReachesFirst(s: State, a: Action, m: State, acts: seq<Action>, t: State)
    requires Next(s, a, m) && Reaches(m, acts, t)
    ensures Reaches(s, [a] + acts, t)
  {
    hide Next;
    assert ([a] + acts)[1..] == acts;
  }

  /** Ending an operation never panics; ending the last one starts a commit of the whole header. */
  lemma EndNext(s: State, op: nat)
    requires Inv(s) && s.phase.Running? && op in s.ops
    ensures EndStep(s, op).Ok? && Next(s, End(op), EndStep(s, op).s) && Inv(EndStep(s, op).s)
    ensures var t := EndStep(s, op).s;
            && t.outstanding == s.outstanding - 1
            && (t.outstanding == 0 ==> t.phase.Committing? && t.origin == s.disk && t.vals == s.cache)
            && (t.outstanding != 0 ==> t.phase.Running?)
  {
    StepInv(s, End(op));
    hide InvLog, InvView, InvDurable, InvAtomic;
  }

  /** A commit that has begun runs to its end: all its block writes, then the release of the log. */
  lemma {:induction false} CommitRuns(s: State) returns (acts: seq<Action>, t: State)
    requires Inv(s) && s.phase.Committing?
    ensures Reaches(s, acts, t) && Inv(t)
    ensures s.phase.Committing? && Committable(s.origin, s.lay, s.lh, s.vals)
    ensures t == s.(phase := Running, committing := false, lh := [], cache := map[], durable := |s.history|,
                    disk := CommitDisk(s.origin, s.lay, s.lh, s.vals, CommitWrites(|s.lh|)))
    decreases CommitWrites(|s.lh|) - s.phase.k
  {
    hide CommitDisk, InvOps, InvView, InvAtomic, SameHome, Replay, Recovered, Distinct;
    StepInv(s, CommitWriteBlock);
    StepInv(s, CommitDone);
    if s.phase.k < CommitWrites(|s.lh|) {
      CommitStepFields(s);
      var m := CommitStep(s).s;
      assert Next(s, CommitWriteBlock, m);
      acts, t := CommitRuns(m);
      ReachesFirst(s, CommitWriteBlock, m, acts, t);
      acts := [CommitWriteBlock] + acts;
    } else {
      t := CommitDoneStep(s).s;
      assert Next(s, CommitDone, t) && Reaches(t, [], t);
      ReachesFirst(s, CommitDone, t, [], t);
      acts := [CommitDone] + [];
    }
  }

  // ------------------------------------------------------ "too big a transaction"

  lemma {:induction false} LoggedShare(m: map<nat, set<int>>, op: nat)
    requires op in m && forall o :: o in m ==> |m[o]| <= MAXOPBLOCKS
    ensures Logged(m) <= MAXOPBLOCKS * (|m| - 1) + |m[op]|
  {
    LoggedRemove(m, op);
    assert (m - {op}).Keys == m.Keys - {op};
    assert |(m - {op}).Keys| == |m.Keys| - 1;
    LoggedBound(m - {op});
  }

  /** With room for LOGSIZE blocks after the header, log_write panics exactly when the header is full, and it is
      full only when every operation in progress has used its whole reservation: a block new to its operation
      never panics, but logging one again may, because the check precedes the search for an absorbed entry. */
  lemma PanicOnlyOnFullLog(ss: seq<State>, acts: seq<Action>, i: nat, op: nat, b: int, data: Block)
    requires IsRun(ss, acts) && i < |ss| && ss[0].lay.size >= LOGSIZE + 1
    requires op in ss[i].ops && Disciplined(ss[i], Write(op, b, data))
    ensures WriteStep(ss[i], op, b, data).Panic? <==> |ss[i].lh| == LOGSIZE
    ensures WriteStep(ss[i], op, b, data).Panic? ==> b in ss[i].ops[op]
    ensures WriteStep(ss[i], op, b, data).Panic? ==> forall o :: o in ss[i].ops ==> |ss[i].ops[o]| == MAXOPBLOCKS
  {
    RunInv(ss, acts, i);
    var s := ss[i];
    assert |s.ops.Keys| > 0;
    assert b !in s.ops[op] ==> |s.ops[op] + {b}| == |s.ops[op]| + 1;
    if |s.lh| == LOGSIZE {
      forall o | o in s.ops
        ensures |s.ops[o]| == MAXOPBLOCKS
      {
        LoggedShare(s.ops, o);
      }
    }
  }

  // Runs that do reach the panic: three operations log consecutive data blocks, ten each.

  /** The operation that logs the n-th block. */
  function Turn(n: nat): (op: nat)
    ensures op < 3
  {
    if n < MAXOPBLOCKS then 0 else if n < 2 * MAXOPBLOCKS then 1 else 2
  }

  /** The blocks among the first n that the given operation logs. */
  ghost function Share(first: nat, op: nat, n: nat): (bs: set<int>)
    ensures forall b :: b in bs ==> b < first + n
  {
    if n == 0 then {}
    else Share(first, op, n - 1) + if op == Turn(n - 1) then {first + n - 1} else {}
  }

  /** The blocks logged before an operation's turn. */
  function Before(op: nat): nat {
    if op == 0 then 0 else if op == 1 then MAXOPBLOCKS else 2 * MAXOPBLOCKS
  }

  lemma {:induction false} ShareCount(first: nat, op: nat, n: nat)
    requires op < 3 && n <= LOGSIZE
    ensures |Share(first, op, n)| <=
            if n <= Before(op) then 0 else if n <= Before(op) + MAXOPBLOCKS then n - Before(op) else MAXOPBLOCKS
  {
    if n > 0 { ShareCount(first, op, n - 1); }
  }

  lemma {:induction false} ShareFirst(first: nat, n: nat)
    requires 0 < n
    ensures first in Share(first, 0, n)
  {
    if n > 1 { ShareFirst(first, n - 1); }
  }

  function Consecutive(first: nat, n: nat): (bl: seq<int>)
    ensures |bl| == n && first + n !in bl
    ensures forall b :: b in bl ==> b < first + n
  {
    if n == 0 then [] else Consecutive(first, n - 1) + [first + n - 1]
  }

  /** The state after three begins and n writes. */
  ghost predicate Filled(s: State, s0: State, n: nat)
  {
    var first := s0.lay.start + s0.lay.size;
    && n <= LOGSIZE
    && s.lay == s0.lay && s.disk == s0.disk
    && s.phase.Running? && !s.committing && s.outstanding == 3
    && s.ops.Keys == {0, 1, 2}
    && (forall op :: op in s.ops ==> s.ops[op] == Share(first, op, n))
    && s.lh == Consecutive(first, n)
  }

  lemma FillStart(s0: State) returns (ss: seq<State>, acts: seq<Action>)
    requires Init(s0) && s0.nextOp == 0
    ensures IsRun(ss, acts) && ss[0] == s0 && Filled(ss[|acts|], s0, 0)
  {
    var s1 := BeginStep(s0).s;
    var s2 := BeginStep(s1).s;
    var s3 := BeginStep(s2).s;
    ss, acts := [s0, s1, s2, s3], [Begin, Begin, Begin];
    assert Addressable(s0) by { InitInv(s0); }
    assert Next(s0, Begin, s1);
    assert Next(s1, Begin, s2);
    assert Next(s2, Begin, s3);
    var first := s0.lay.start + s0.lay.size;
    assert s3.ops == map[0 := {}, 1 := {}, 2 := {}];
  }

  lemma ShareRoom(first: nat, n: nat)
    requires n < LOGSIZE
    ensures Share(first, Turn(n), n + 1) == Share(first, Turn(n), n) + {first + n}
    ensures |Share(first, Turn(n), n + 1)| <= MAXOPBLOCKS
  {
    ShareCount(first, Turn(n), n + 1);
  }

  lemma FillDisciplined(s: State, s0: State, n: nat, data: Block)
    requires Filled(s, s0, n) && n < LOGSIZE
    requires s0.lay.start + s0.lay.size + LOGSIZE <= |s0.disk|
    ensures Turn(n) in s.ops
    ensures Disciplined(s, Write(Turn(n), s0.lay.start + s0.lay.size + n, data))
  {
    hide Share, Consecutive, Turn;
    ShareRoom(s0.lay.start + s0.lay.size, n);
    assert Turn(n) in {0, 1, 2};
  }

  lemma FillStep(s: State, s0: State, n: nat, data: Block)
    requires Filled(s, s0, n) && n < LOGSIZE && n < s0.lay.size - 1 && Turn(n) in s.ops
    ensures WriteStep(s, Turn(n), s0.lay.start + s0.lay.size + n, data).Ok?
    ensures Filled(WriteStep(s, Turn(n), s0.lay.start + s0.lay.size + n, data).s, s0, n + 1)
  {
    var first := s0.lay.start + s0.lay.size;
    var t := WriteStep(s, Turn(n), first + n, data).s;
    assert t.ops.Keys == s.ops.Keys;
    forall op | op in t.ops
      ensures t.ops[op] == Share(first, op, n + 1)
    {
    }
  }

  lemma RunExtend(ss: seq<State>, acts: seq<Action>, a: Action, t: State)
    requires IsRun(ss, acts) && Next(ss[|acts|], a, t)
    ensures IsRun(ss + [t], acts + [a])
  {
    hide Next, Init;
  }

  lemma RunAddressable(ss: seq<State>, acts: seq<Action>)
    requires IsRun(ss, acts)
    ensures Addressable(ss[|acts|])
  {
    hide Inv, Addressable;
    RunInv(ss, acts, |acts|);
    StepInv(ss[|acts|], Crash);
  }

  lemma FillNext(ss: seq<State>, acts: seq<Action>, s0: State, n: nat, data: Block) returns (a: Action, t: State)
    requires IsRun(ss, acts) && Filled(ss[|acts|], s0, n) && n < LOGSIZE && n < s0.lay.size - 1
    requires s0.lay.start + s0.lay.size + LOGSIZE <= |s0.disk|
    ensures Next(ss[|acts|], a, t) && Filled(t, s0, n + 1)
  {
    hide Filled, Disciplined, Addressable, Turn, Inv, Init;
    var s := ss[|acts|];
    var op, b := Turn(n), s0.lay.start + s0.lay.size + n;
    RunAddressable(ss, acts);
    FillDisciplined(s, s0, n, data);
    FillStep(s, s0, n, data);
    a, t := Write(op, b, data), WriteStep(s, op, b, data).s;
  }

  lemma {:induction false} Fill(s0: State, n: nat, data: Block) returns (ss: seq<State>, acts: seq<Action>)
    requires Init(s0) && s0.nextOp == 0 && n <= LOGSIZE && n <= s0.lay.size - 1
    requires s0.lay.start + s0.lay.size + LOGSIZE <= |s0.disk|
    ensures IsRun(ss, acts) && |ss| == |acts| + 1 && ss[0] == s0 && Filled(ss[|acts|], s0, n)
    decreases n
  {
    hide Init, Filled, Next;
    if n == 0 {
      ss, acts := FillStart(s0);
    } else {
      ss, acts := Fill(s0, n - 1, data);
      var a, t := FillNext(ss, acts, s0, n - 1, data);
      RunExtend(ss, acts, a, t);
      ss, acts := ss + [t], acts + [a];
    }
  }

  /** A log of at most LOGSIZE blocks, which is what mkfs lays out, is too small for the reservations begin_op
      grants: some disciplined run panics on a block it has not logged before. */
  lemma SmallLogPanics(s0: State, data: Block) returns (ss: seq<State>, acts: seq<Action>, op: nat, b: int)
    requires Init(s0) && s0.nextOp == 0 && s0.lay.size <= LOGSIZE
    requires s0.lay.start + s0.lay.size + LOGSIZE <= |s0.disk|
    ensures IsRun(ss, acts) && ss[0] == s0
    ensures var s := ss[|acts|];
            && op in s.ops && b !in s.lh && Disciplined(s, Write(op, b, data))
            && WriteStep(s, op, b, data).Panic?
  {
    hide Share, IsRun, Disciplined, Turn;
    var n := s0.lay.size - 1;
    ss, acts := Fill(s0, n, data);
    op, b := Turn(n), s0.lay.start + s0.lay.size + n;
    FillDisciplined(ss[|acts|], s0, n, data);
  }

  /** With a large enough log the panic is still reachable, by logging a block again when the header is full. */
  lemma FullLogPanicsOnRewrite(s0: State, data: Block) returns (ss: seq<State>, acts: seq<Action>, op: nat, b: int)
    requires Init(s0) && s0.nextOp == 0 && s0.lay.size >= LOGSIZE + 1
    requires s0.lay.start + s0.lay.size + LOGSIZE <= |s0.disk|
    ensures IsRun(ss, acts) && ss[0] == s0
    ensures var s := ss[|acts|];
            && op in s.ops && b in s.ops[op] && Disciplined(s, Write(op, b, data))
            && WriteStep(s, op, b, data).Panic?
  {
    ss, acts := Fill(s0, LOGSIZE, data);
    var first := s0.lay.start + s0.lay.size;
    op, b := 0, first;
    ShareCount(first, 0, LOGSIZE);
    ShareFirst(first, LOGSIZE);
    assert Share(first, 0, LOGSIZE) + {b} == Share(first, 0, LOGSIZE);
  }
}

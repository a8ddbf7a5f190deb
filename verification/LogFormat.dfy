/** The on-disk redo log of log.c: its format, the sequence of block writes that
    commit and recovery issue, and the proof that stopping after any of them is safe. */
module LogFormat {
  import opened Basics

  const MAXOPBLOCKS: nat := 10
  const LOGSIZE: nat := MAXOPBLOCKS * 3
  const WORDS: nat := 128

  /** A disk block, seen as 32-bit words. */
  type Block = b: seq<int> | |b| == WORDS witness seq(WORDS, _ => 0)
  type Disk = seq<Block>

  /** Where the log lives: `size` blocks from `start`, the first of them the header. */
  datatype Layout = Layout(start: nat, size: nat) {
    predicate Fits(d: Disk) {
      1 <= size && start + size <= |d|
    }

    predicate IsHome(d: Disk, b: int) {
      0 <= b < |d| && !(start <= b < start + size)
    }

    function Slot(i: nat): nat {
      start + 1 + i
    }
  }

  /** The block numbers of a transaction that the log can hold. */
  predicate Loggable(d: Disk, lay: Layout, bl: seq<int>) {
    && lay.Fits(d)
    && |bl| <= LOGSIZE
    && |bl| <= lay.size - 1
    && Distinct(bl)
    && forall i :: 0 <= i < |bl| ==> lay.IsHome(d, bl[i])
  }

  // ---------------------------------------------------------------- header

  /** write_head: the count and the first n entries are overwritten, the rest of the block stays. */
  function PutHeader(b: Block, bl: seq<int>): (r: Block)
    requires |bl| <= LOGSIZE
  {
    [|bl|] + bl + b[1 + |bl|..]
  }

  /** read_head */
  function GetHeader(b: Block): (bl: seq<int>)
    requires 0 <= b[0] <= LOGSIZE
  {
    b[1..1 + b[0]]
  }

  lemma HeaderRoundTrip(b: Block, bl: seq<int>)
    requires |bl| <= LOGSIZE
    ensures GetHeader(PutHeader(b, bl)) == bl
  {
    assert PutHeader(b, bl)[1..1 + |bl|] == bl;
  }

  /** A disk on which recovery can run: its header lists a loggable transaction. */
  predicate Recoverable(d: Disk, lay: Layout) {
    && lay.Fits(d)
    && 0 <= d[lay.start][0] <= LOGSIZE
    && Loggable(d, lay, GetHeader(d[lay.start]))
  }

  predicate Clean(d: Disk, lay: Layout) {
    lay.Fits(d) && d[lay.start][0] == 0
  }

  /** Two disks agree on every block outside the log. */
  ghost predicate SameHome(d: Disk, e: Disk, lay: Layout) {
    && |d| == |e|
    && forall j :: lay.IsHome(d, j) ==> d[j] == e[j]
  }

  // -------------------------------------------------------------- recovery

  /** install_trans after its first k block writes. */
  function Installed(d: Disk, lay: Layout, bl: seq<int>, k: nat): (e: Disk)
    requires Loggable(d, lay, bl) && k <= |bl|
    ensures |e| == |d|
  {
    if k == 0 then d
    else
      var e := Installed(d, lay, bl, k - 1);
      e[bl[k - 1] := e[lay.Slot(k - 1)]]
  }

  /** recover_from_log after its first k block writes: the installs, then the cleared header. */
  function RecoveryDisk(d: Disk, lay: Layout, k: nat): (e: Disk)
    requires Recoverable(d, lay) && k <= d[lay.start][0] + 1
  {
    var bl := GetHeader(d[lay.start]);
    if k <= |bl| then Installed(d, lay, bl, k)
    else
      var e := Installed(d, lay, bl, |bl|);
      e[lay.start := PutHeader(e[lay.start], [])]
  }

  function Recovered(d: Disk, lay: Layout): (e: Disk)
    requires Recoverable(d, lay)
  {
    RecoveryDisk(d, lay, d[lay.start][0] + 1)
  }

  lemma {:induction false} InstalledAt(d: Disk, lay: Layout, bl: seq<int>, k: nat)
    requires Loggable(d, lay, bl) && k <= |bl|
    ensures forall i :: 0 <= i < k ==> Installed(d, lay, bl, k)[bl[i]] == d[lay.Slot(i)]
    ensures forall j :: 0 <= j < |d| && j !in bl[..k] ==> Installed(d, lay, bl, k)[j] == d[j]
  {
    if k > 0 {
      InstalledAt(d, lay, bl, k - 1);
      var e := Installed(d, lay, bl, k - 1);
      assert lay.Slot(k - 1) !in bl[..k - 1];
      assert bl[..k] == bl[..k - 1] + [bl[k - 1]];
    }
  }

  /** Recovery writes each logged block to its home, leaves every other home block, and empties the header. */
  lemma RecoveredAt(d: Disk, lay: Layout)
    requires Recoverable(d, lay)
    ensures Clean(Recovered(d, lay), lay)
    ensures Recoverable(Recovered(d, lay), lay)
    ensures var bl := GetHeader(d[lay.start]);
            && |Recovered(d, lay)| == |d|
            && (forall i :: 0 <= i < |bl| ==> Recovered(d, lay)[bl[i]] == d[lay.Slot(i)])
            && (forall j :: lay.IsHome(d, j) && j !in bl ==> Recovered(d, lay)[j] == d[j])
  {
    var bl := GetHeader(d[lay.start]);
    InstalledAt(d, lay, bl, |bl|);
    assert bl[..|bl|] == bl;
    assert lay.start !in bl;
  }

  lemma InstalledTwice(d: Disk, lay: Layout, bl: seq<int>, k: nat)
    requires Loggable(d, lay, bl) && k <= |bl|
    ensures Loggable(Installed(d, lay, bl, k), lay, bl)
    ensures Installed(Installed(d, lay, bl, k), lay, bl, |bl|) == Installed(d, lay, bl, |bl|)
  {
    var e := Installed(d, lay, bl, k);
    var f := Installed(e, lay, bl, |bl|);
    var g := Installed(d, lay, bl, |bl|);
    InstalledAt(d, lay, bl, k);
    InstalledAt(e, lay, bl, |bl|);
    InstalledAt(d, lay, bl, |bl|);
    assert bl[..|bl|] == bl;
    forall j | 0 <= j < |d|
      ensures f[j] == g[j]
    {
      if j in bl {
        var i :| 0 <= i < |bl| && bl[i] == j;
        assert lay.Slot(i) !in bl[..k];
      }
    }
  }

  /** A recovery cut short after any number of its writes changes nothing about where recovery ends. */
  lemma RecoveryIdempotent(d: Disk, lay: Layout, k: nat)
    requires Recoverable(d, lay) && k <= d[lay.start][0] + 1
    ensures Recoverable(RecoveryDisk(d, lay, k), lay)
    ensures Recovered(RecoveryDisk(d, lay, k), lay) == Recovered(d, lay)
  {
    var bl := GetHeader(d[lay.start]);
    if k <= |bl| {
      var e := Installed(d, lay, bl, k);
      InstalledAt(d, lay, bl, k);
      assert lay.start !in bl[..k];
      InstalledTwice(d, lay, bl, k);
    } else {
      RecoveredAt(d, lay);
      var e := Recovered(d, lay);
      assert e[lay.start] == PutHeader(e[lay.start], []);
      assert Installed(e, lay, GetHeader(e[lay.start]), 0) == e;
    }
  }

  /** The disk after a series of recoveries, each stopped by a crash after the given number of writes. */
  ghost predicate CrashedRecoveries(d: Disk, lay: Layout, cuts: seq<nat>, e: Disk)
    requires Recoverable(d, lay)
    decreases |cuts|
  {
    if cuts == [] then e == d
    else
      && cuts[0] <= d[lay.start][0] + 1
      && Recoverable(RecoveryDisk(d, lay, cuts[0]), lay)
      && CrashedRecoveries(RecoveryDisk(d, lay, cuts[0]), lay, cuts[1..], e)
  }

  lemma {:induction false} CrashesDuringRecovery(d: Disk, lay: Layout, cuts: seq<nat>, e: Disk)
    requires Recoverable(d, lay) && CrashedRecoveries(d, lay, cuts, e)
    ensures Recoverable(e, lay)
    ensures Recovered(e, lay) == Recovered(d, lay)
    decreases |cuts|
  {
    if cuts != [] {
      RecoveryIdempotent(d, lay, cuts[0]);
      CrashesDuringRecovery(RecoveryDisk(d, lay, cuts[0]), lay, cuts[1..], e);
    }
  }

  // ---------------------------------------------------------------- commit

  ghost predicate Committable(d: Disk, lay: Layout, bl: seq<int>, vals: map<int, Block>) {
    Clean(d, lay) && Loggable(d, lay, bl) && forall i :: 0 <= i < |bl| ==> bl[i] in vals
  }

  /** The number of block writes commit issues for n logged blocks. */
  function CommitWrites(n: nat): nat {
    if n == 0 then 0 else 2 * n + 2
  }

  /** commit's k-th block write (from 0), made on disk d: write_log, write_head, install_trans, write_head. */
  function CommitWrite(d: Disk, lay: Layout, bl: seq<int>, vals: map<int, Block>, k: nat): (e: Disk)
    requires Loggable(d, lay, bl) && k < CommitWrites(|bl|)
    requires forall i :: 0 <= i < |bl| ==> bl[i] in vals
    ensures |e| == |d|
  {
    var n := |bl|;
    if k < n then d[lay.Slot(k) := vals[bl[k]]]
    else if k == n then d[lay.start := PutHeader(d[lay.start], bl)]
    else if k <= 2 * n then d[bl[k - n - 1] := d[lay.Slot(k - n - 1)]]
    else d[lay.start := PutHeader(d[lay.start], [])]
  }

  /** The disk after commit's first k block writes. */
  function CommitDisk(d: Disk, lay: Layout, bl: seq<int>, vals: map<int, Block>, k: nat): (e: Disk)
    requires Loggable(d, lay, bl) && k <= CommitWrites(|bl|)
    requires forall i :: 0 <= i < |bl| ==> bl[i] in vals
    ensures |e| == |d|
  {
    if k == 0 then d else CommitWrite(CommitDisk(d, lay, bl, vals, k - 1), lay, bl, vals, k - 1)
  }

  /** What the four kinds of block hold after k writes of commit. */
  ghost predicate CommitShape(d: Disk, lay: Layout, bl: seq<int>, vals: map<int, Block>, k: nat, e: Disk)
    requires Committable(d, lay, bl, vals)
  {
    && |e| == |d|
    && e[lay.start] == (if k <= |bl| then d[lay.start]
                        else if k <= 2 * |bl| + 1 then PutHeader(d[lay.start], bl)
                        else PutHeader(PutHeader(d[lay.start], bl), []))
    && (forall i :: 0 <= i < |bl| && i < k ==> e[lay.Slot(i)] == vals[bl[i]])
    && (forall i :: 0 <= i < |bl| ==> e[bl[i]] == if |bl| + 1 + i < k then vals[bl[i]] else d[bl[i]])
    && (forall j :: lay.IsHome(d, j) && j !in bl ==> e[j] == d[j])
  }

  lemma CommitShapeStep(d: Disk, lay: Layout, bl: seq<int>, vals: map<int, Block>, k: nat, e: Disk)
    requires Committable(d, lay, bl, vals) && k < CommitWrites(|bl|)
    requires CommitShape(d, lay, bl, vals, k, e)
    ensures CommitShape(d, lay, bl, vals, k + 1, CommitWrite(e, lay, bl, vals, k))
  {
    var n, f := |bl|, CommitWrite(e, lay, bl, vals, k);
    if n < k <= 2 * n {
      var m := k - n - 1;
      assert f == e[bl[m] := vals[bl[m]]];
    }
  }

  lemma CommitShapeStart(d: Disk, lay: Layout, bl: seq<int>, vals: map<int, Block>)
    requires Committable(d, lay, bl, vals)
    ensures CommitShape(d, lay, bl, vals, 0, d)
  {
  }

  lemma {:induction false} CommitDiskAt(d: Disk, lay: Layout, bl: seq<int>, vals: map<int, Block>, k: nat)
    requires Committable(d, lay, bl, vals) && k <= CommitWrites(|bl|)
    ensures CommitShape(d, lay, bl, vals, k, CommitDisk(d, lay, bl, vals, k))
  {
    hide CommitShape, CommitWrite, Clean;
    if k == 0 {
      CommitShapeStart(d, lay, bl, vals);
    } else {
      CommitDiskAt(d, lay, bl, vals, k - 1);
      CommitShapeStep(d, lay, bl, vals, k - 1, CommitDisk(d, lay, bl, vals, k - 1));
    }
  }

  /** The home contents when the transaction has taken effect. */
  ghost predicate Applied(d: Disk, lay: Layout, bl: seq<int>, vals: map<int, Block>, e: Disk)
    requires forall i :: 0 <= i < |bl| ==> bl[i] in vals
  {
    && |e| == |d|
    && (forall j :: lay.IsHome(d, j) && j !in bl ==> e[j] == d[j])
    && (forall i :: 0 <= i < |bl| && lay.IsHome(d, bl[i]) ==> e[bl[i]] == vals[bl[i]])
  }

  /** The header on disk after the k-th write of commit. */
  lemma CommitHeader(d: Disk, lay: Layout, bl: seq<int>, vals: map<int, Block>, k: nat, e: Disk)
    requires Committable(d, lay, bl, vals) && k <= CommitWrites(|bl|) && CommitShape(d, lay, bl, vals, k, e)
    ensures 0 <= e[lay.start][0] <= LOGSIZE
    ensures GetHeader(e[lay.start]) == if k <= |bl| || k == CommitWrites(|bl|) then [] else bl
    ensures Recoverable(e, lay)
  {
    HeaderRoundTrip(d[lay.start], bl);
    assert Loggable(e, lay, bl) && Loggable(e, lay, []);
  }

  lemma CommitCutOld(d: Disk, lay: Layout, bl: seq<int>, vals: map<int, Block>, k: nat, e: Disk)
    requires Committable(d, lay, bl, vals) && k <= |bl| && CommitShape(d, lay, bl, vals, k, e)
    requires Recoverable(e, lay)
    ensures SameHome(d, Recovered(e, lay), lay)
  {
    hide Recovered;
    CommitHeader(d, lay, bl, vals, k, e);
    RecoveredAt(e, lay);
  }

  lemma CommitCutNew(d: Disk, lay: Layout, bl: seq<int>, vals: map<int, Block>, k: nat, e: Disk)
    requires Committable(d, lay, bl, vals) && |bl| < k <= CommitWrites(|bl|) && CommitShape(d, lay, bl, vals, k, e)
    requires Recoverable(e, lay)
    ensures Applied(d, lay, bl, vals, Recovered(e, lay))
  {
    hide Recovered;
    CommitHeader(d, lay, bl, vals, k, e);
    RecoveredAt(e, lay);
  }

  /** Stopping after the k-th write of commit: recovery gives all of the old contents up to the
      header write, and all of the new contents from then on. */
  lemma CommitCut(d: Disk, lay: Layout, bl: seq<int>, vals: map<int, Block>, k: nat)
    requires Committable(d, lay, bl, vals) && k <= CommitWrites(|bl|)
    ensures Recoverable(CommitDisk(d, lay, bl, vals, k), lay)
    ensures k <= |bl| ==> SameHome(d, Recovered(CommitDisk(d, lay, bl, vals, k), lay), lay)
    ensures |bl| < k ==> Applied(d, lay, bl, vals, Recovered(CommitDisk(d, lay, bl, vals, k), lay))
    ensures Clean(CommitDisk(d, lay, bl, vals, k), lay) <==> k <= |bl| || k == CommitWrites(|bl|)
  {
    hide CommitDisk, CommitShape, Recovered, Applied, SameHome, Distinct;
    var e := CommitDisk(d, lay, bl, vals, k);
    CommitDiskAt(d, lay, bl, vals, k);
    CommitHeader(d, lay, bl, vals, k, e);
    if k <= |bl| {
      CommitCutOld(d, lay, bl, vals, k, e);
    } else {
      CommitCutNew(d, lay, bl, vals, k, e);
    }
  }

  /** Crash atomicity: a crash after any write of commit, followed by any number of crashed recoveries
      and one that completes, leaves the home blocks all old or all new, and the log empty again. */
  lemma CrashAtomicity(d: Disk, lay: Layout, bl: seq<int>, vals: map<int, Block>, k: nat, cuts: seq<nat>, e: Disk)
    requires Committable(d, lay, bl, vals) && k <= CommitWrites(|bl|)
    requires Recoverable(CommitDisk(d, lay, bl, vals, k), lay)
    requires CrashedRecoveries(CommitDisk(d, lay, bl, vals, k), lay, cuts, e)
    ensures Recoverable(e, lay) && Clean(Recovered(e, lay), lay)
    ensures k <= |bl| ==> SameHome(d, Recovered(e, lay), lay)
    ensures |bl| < k ==> Applied(d, lay, bl, vals, Recovered(e, lay))
  {
    CommitCut(d, lay, bl, vals, k);
    CrashesDuringRecovery(CommitDisk(d, lay, bl, vals, k), lay, cuts, e);
    RecoveredAt(e, lay);
  }
}

/** log.c itself: the `log` structure, updated in place, over a block store that records every disk write. */
module Log {
  import opened Basics
  import opened LogFormat
  import LS = LogSystem

  /** The disk traces that commit and recovery leave behind. */
  ghost function CommitTrace(d: Disk, lay: Layout, bl: seq<int>, vals: map<int, Block>, k: nat): (t: seq<Disk>)
    requires Loggable(d, lay, bl) && k <= CommitWrites(|bl|)
    requires forall i :: 0 <= i < |bl| ==> bl[i] in vals
    ensures |t| == k
    ensures forall i :: 0 <= i < k ==> t[i] == CommitDisk(d, lay, bl, vals, i + 1)
  {
    if k == 0 then [] else CommitTrace(d, lay, bl, vals, k - 1) + [CommitDisk(d, lay, bl, vals, k)]
  }

  ghost function RecoveryTrace(d: Disk, lay: Layout, k: nat): (t: seq<Disk>)
    requires Recoverable(d, lay) && k <= d[lay.start][0] + 1
    ensures |t| == k
    ensures forall i :: 0 <= i < k ==> t[i] == RecoveryDisk(d, lay, i + 1)
  {
    if k == 0 then [] else RecoveryTrace(d, lay, k - 1) + [RecoveryDisk(d, lay, k)]
  }

  ghost function InstallTrace(d: Disk, lay: Layout, bl: seq<int>, k: nat): (t: seq<Disk>)
    requires Loggable(d, lay, bl) && k <= |bl|
    ensures |t| == k
    ensures forall i :: 0 <= i < k ==> t[i] == Installed(d, lay, bl, i + 1)
  {
    if k == 0 then [] else InstallTrace(d, lay, bl, k - 1) + [Installed(d, lay, bl, k)]
  }

  /** The installs of a commit are its writes after the header. */
  lemma {:induction false} InstallIsCommit(d: Disk, lay: Layout, bl: seq<int>, vals: map<int, Block>, k: nat)
    requires Committable(d, lay, bl, vals) && 0 < |bl| && k <= |bl|
    ensures Loggable(CommitDisk(d, lay, bl, vals, |bl| + 1), lay, bl)
    ensures Installed(CommitDisk(d, lay, bl, vals, |bl| + 1), lay, bl, k) == CommitDisk(d, lay, bl, vals, |bl| + 1 + k)
  {
    if k > 0 { InstallIsCommit(d, lay, bl, vals, k - 1); }
  }

  lemma InstallTraceIsCommit(d: Disk, lay: Layout, bl: seq<int>, vals: map<int, Block>)
    requires Committable(d, lay, bl, vals) && 0 < |bl|
    ensures Loggable(CommitDisk(d, lay, bl, vals, |bl| + 1), lay, bl)
    ensures CommitTrace(d, lay, bl, vals, |bl| + 1) +
            InstallTrace(CommitDisk(d, lay, bl, vals, |bl| + 1), lay, bl, |bl|)
            == CommitTrace(d, lay, bl, vals, 2 * |bl| + 1)
  {
    hide CommitDisk, Installed;
    InstallIsCommit(d, lay, bl, vals, 0);
    var t := InstallTrace(CommitDisk(d, lay, bl, vals, |bl| + 1), lay, bl, |bl|);
    forall i | 0 <= i < |bl|
      ensures t[i] == CommitDisk(d, lay, bl, vals, |bl| + 2 + i)
    {
      InstallIsCommit(d, lay, bl, vals, i + 1);
    }
  }

  /** The two header writes of a commit. */
  lemma HeaderWrites(d: Disk, lay: Layout, bl: seq<int>, vals: map<int, Block>)
    requires Committable(d, lay, bl, vals) && 0 < |bl|
    ensures var e := CommitDisk(d, lay, bl, vals, |bl|);
            && e[lay.start := PutHeader(e[lay.start], bl)] == CommitDisk(d, lay, bl, vals, |bl| + 1)
            && CommitTrace(d, lay, bl, vals, |bl|) + [CommitDisk(d, lay, bl, vals, |bl| + 1)]
               == CommitTrace(d, lay, bl, vals, |bl| + 1)
    ensures var e := CommitDisk(d, lay, bl, vals, 2 * |bl| + 1);
            && e[lay.start := PutHeader(e[lay.start], [])] == CommitDisk(d, lay, bl, vals, CommitWrites(|bl|))
            && CommitTrace(d, lay, bl, vals, 2 * |bl| + 1) + [CommitDisk(d, lay, bl, vals, CommitWrites(|bl|))]
               == CommitTrace(d, lay, bl, vals, CommitWrites(|bl|))
  {
  }

  lemma CommitNothing(d: Disk, lay: Layout, bl: seq<int>, vals: map<int, Block>)
    requires Committable(d, lay, bl, vals) && bl == []
    ensures CommitDisk(d, lay, bl, vals, 0) == d && CommitTrace(d, lay, bl, vals, 0) == []
  {
  }

  lemma InstallTraceIsRecovery(d: Disk, lay: Layout)
    requires Recoverable(d, lay)
    ensures var bl := GetHeader(d[lay.start]);
            InstallTrace(d, lay, bl, |bl|) + [Recovered(d, lay)] == RecoveryTrace(d, lay, |bl| + 1)
  {
  }

  /** The buffer cache as the log sees it: pinned buffers over a disk. `trace` holds the disk after each write. */
  class Store {
    var disk: Disk
    var cache: map<int, Block>
    ghost var trace: seq<Disk>

    constructor (d: Disk)
      ensures disk == d && cache == map[] && trace == []
    {
      disk, cache, trace := d, map[], [];
    }

    function Contents(b: int): Block
      requires 0 <= b < |disk|
      reads this
    {
      if b in cache then cache[b] else disk[b]
    }

    method Bread(b: int) returns (data: Block)
      requires 0 <= b < |disk|
      ensures data == Contents(b)
    {
      data := if b in cache then cache[b] else disk[b];
    }

    /** Writing a buffer to disk clears B_DIRTY. */
    method Bwrite(b: int, data: Block)
      requires 0 <= b < |disk|
      modifies this
      ensures disk == old(disk)[b := data] && cache == old(cache) - {b}
      ensures trace == old(trace) + [disk]
    {
      disk, cache := disk[b := data], cache - {b};
      trace := trace + [disk];
    }

    method Pin(b: int, data: Block)
      modifies this`cache
      ensures cache == old(cache)[b := data]
    {
      cache := cache[b := data];
    }
  }

  class Log {
    const lay: Layout
    const store: Store
    const block: array<int>
    var n: nat
    var outstanding: int
    var committing: bool

    ghost predicate Shape()
      reads this, block
    {
      block.Length == LOGSIZE && n <= LOGSIZE
    }

    /** The memory header. */
    ghost function Header(): seq<int>
      requires Shape()
      reads this, block
    {
      block[..n]
    }

    /** Between transactions' commits: the on-disk header is empty and the pinned buffers are the header's. */
    ghost predicate Valid()
      reads this, block, store
    {
      && Shape()
      && Clean(store.disk, lay)
      && Loggable(store.disk, lay, Header())
      && forall b :: b in store.cache <==> b in Header()
    }

    /** initlog, without the recovery. */
    constructor (l: Layout, s: Store)
      requires l.Fits(s.disk)
      ensures lay == l && store == s && Shape() && n == 0 && outstanding == 0 && !committing && fresh(block)
    {
      lay, store, n, outstanding, committing := l, s, 0, 0, false;
      block := new int[LOGSIZE];
    }

    method InstallTrans()
      requires Shape() && Loggable(store.disk, lay, Header())
      requires forall b :: b in store.cache ==> lay.IsHome(store.disk, b)
      modifies store
      ensures store.disk == Installed(old(store.disk), lay, Header(), n)
      ensures forall b :: b in store.cache <==> b in old(store.cache) && b !in Header()
      ensures store.trace == old(store.trace) + InstallTrace(old(store.disk), lay, Header(), n)
    {
      ghost var d, bl, t0 := store.disk, Header(), store.trace;
      var tail := 0;
      while tail < n
        invariant 0 <= tail <= n
        invariant store.disk == Installed(d, lay, bl, tail)
        invariant forall b :: b in store.cache <==> b in old(store.cache) && b !in bl[..tail]
        invariant store.trace == t0 + InstallTrace(d, lay, bl, tail)
      {
        assert bl[tail] == block[tail];
        var data := store.Bread(lay.Slot(tail));
        store.Bwrite(block[tail], data);
        assert bl[..tail + 1] == bl[..tail] + [bl[tail]];
        tail := tail + 1;
      }
      assert bl[..n] == bl;
    }

    method ReadHead()
      requires Shape() && Recoverable(store.disk, lay) && store.cache == map[]
      modifies this`n, block
      ensures Shape() && Header() == GetHeader(store.disk[lay.start])
    {
      var hb := store.Bread(lay.start);
      n := hb[0];
      var i := 0;
      while i < n
        invariant 0 <= i <= n == hb[0]
        invariant block[..i] == hb[1..1 + i]
        modifies block
      {
        block[i] := hb[1 + i];
        i := i + 1;
      }
    }

    /** The true point at which the transaction commits. */
    method WriteHead()
      requires Shape() && lay.Fits(store.disk)
      requires forall b :: b in store.cache ==> lay.IsHome(store.disk, b)
      modifies store
      ensures store.disk == old(store.disk)[lay.start := PutHeader(old(store.disk)[lay.start], Header())]
      ensures store.cache == old(store.cache)
      ensures store.trace == old(store.trace) + [store.disk]
    {
      var hb := store.Bread(lay.start);
      ghost var b0 := hb;
      hb := hb[0 := n];
      var i := 0;
      while i < n
        invariant 0 <= i <= n
        invariant |hb| == WORDS && hb == [n] + block[..i] + b0[1 + i..]
      {
        hb := hb[1 + i := block[i]];
        i := i + 1;
      }
      store.Bwrite(lay.start, hb);
      assert store.cache == old(store.cache);
    }

    /** Copy the pinned blocks into the log. */
    method WriteLog()
      requires Valid()
      modifies store
      ensures store.cache == old(store.cache)
      ensures store.disk == CommitDisk(old(store.disk), lay, Header(), old(store.cache), n)
      ensures store.trace == old(store.trace) + CommitTrace(old(store.disk), lay, Header(), old(store.cache), n)
    {
      ghost var d, bl, vals, t0 := store.disk, Header(), store.cache, store.trace;
      var tail := 0;
      while tail < n
        invariant 0 <= tail <= n
        invariant store.cache == vals
        invariant store.disk == CommitDisk(d, lay, bl, vals, tail)
        invariant store.trace == t0 + CommitTrace(d, lay, bl, vals, tail)
      {
        assert bl[tail] == block[tail] && bl[tail] in bl;
        var data := store.Bread(block[tail]);
        store.Bwrite(lay.Slot(tail), data);
        assert store.cache == vals;
        tail := tail + 1;
      }
    }

    /** Leaves the disk after all of commit's block writes, and in the trace the disk after each of them. */
    method Commit()
      requires Valid()
      modifies this`n, store
      ensures n == 0 && Valid() && store.cache == map[]
      ensures store.disk ==
              CommitDisk(old(store.disk), lay, old(Header()), old(store.cache), CommitWrites(old(n)))
      ensures store.trace == old(store.trace) +
              CommitTrace(old(store.disk), lay, old(Header()), old(store.cache), CommitWrites(old(n)))
    {
      hide CommitDisk, CommitTrace, Installed, InstallTrace, PutHeader, Distinct, Applied, SameHome, Recovered;
      ghost var d, bl, vals := store.disk, Header(), store.cache;
      if n > 0 {
        assert forall b :: b in vals <==> b in bl;
        HeaderWrites(d, lay, bl, vals);
        InstallTraceIsCommit(d, lay, bl, vals);
        InstallIsCommit(d, lay, bl, vals, n);
        WriteLog();
        WriteHead();
        InstallTrans();
        assert forall b :: b !in store.cache;
        n := 0;
        assert Header() == [];
        WriteHead();
        CommitCut(d, lay, bl, vals, CommitWrites(|bl|));
      } else {
        assert forall b :: b !in store.cache;
        CommitNothing(d, lay, bl, vals);
      }
    }

    method RecoverFromLog()
      requires Shape() && Recoverable(store.disk, lay) && store.cache == map[]
      modifies this`n, block, store
      ensures n == 0 && Valid()
      ensures store.disk == Recovered(old(store.disk), lay)
      ensures store.trace == old(store.trace) +
              RecoveryTrace(old(store.disk), lay, old(store.disk)[lay.start][0] + 1)
    {
      hide InstallTrace, RecoveryTrace, Distinct;
      ghost var d := store.disk;
      InstallTraceIsRecovery(d, lay);
      RecoveredAt(d, lay);
      ReadHead();
      InstallTrans();
      n := 0;
      WriteHead();
    }

    // ------------------------------------------ the critical sections, as steps of LogSystem

    /** The variables of this log are those of state s. */
    ghost predicate Shows(s: LS.State)
      reads this, block, store
    {
      && Shape()
      && s.lay == lay && s.disk == store.disk && s.cache == store.cache && s.lh == Header()
      && s.outstanding == outstanding && s.committing == committing
    }

    /** One pass of begin_op's loop; when not admitted, the caller sleeps and tries again. */
    method BeginOp(ghost s: LS.State) returns (admitted: bool)
      requires LS.Inv(s) && !s.phase.Recovering? && Shows(s)
      modifies this`outstanding
      ensures admitted <==> LS.BeginStep(s).Ok?
      ensures admitted <==> !committing && n + (old(outstanding) + 1) * MAXOPBLOCKS <= LOGSIZE
      ensures Shows(if admitted then LS.BeginStep(s).s else s)
    {
      if committing {
        admitted := false;
      } else if n + (outstanding + 1) * MAXOPBLOCKS > LOGSIZE {
        admitted := false;
      } else {
        outstanding := outstanding + 1;
        admitted := true;
      }
    }

    method LogWrite(b: int, data: Block, ghost s: LS.State, ghost op: nat) returns (panic: bool)
      requires LS.Inv(s) && s.phase.Running? && op in s.ops && Shows(s)
      modifies this`n, block, store
      ensures panic <==> LS.WriteStep(s, op, b, data).Panic?
      ensures !panic ==> Shows(LS.WriteStep(s, op, b, data).s)
      ensures !panic ==> store.cache == old(store.cache)[b := data] && store.disk == old(store.disk)
      ensures !panic ==> Header() == if b in old(Header()) then old(Header()) else old(Header()) + [b]
      ensures panic ==> Shows(s)
    {
      if n >= LOGSIZE || n >= lay.size - 1 {
        return true;
      }
      if outstanding < 1 {
        return true;
      }
      var i := 0;
      while i < n && block[i] != b
        invariant 0 <= i <= n && b !in block[..i]
      {
        i := i + 1;
      }
      assert i < n ==> block[i] in block[..n];
      ghost var h := Header();
      block[i] := b;
      if i == n {
        n := n + 1;
        assert Header() == h + [b];
      } else {
        assert Header() == h;
      }
      store.Pin(b, data);
      panic := false;
    }

    /** end_op: the code's final state is one the step system reaches by ending the operation and, if it was the
        last, committing. */
    method EndOp(ghost s: LS.State, ghost op: nat) returns (ghost acts: seq<LS.Action>, ghost t: LS.State)
      requires LS.Inv(s) && s.phase.Running? && op in s.ops && Shows(s)
      modifies this`n, this`outstanding, this`committing, store
      ensures LS.Next(s, LS.End(op), LS.EndStep(s, op).s)
      ensures LS.Reaches(LS.EndStep(s, op).s, acts, t) && LS.Inv(t) && Shows(t)
      ensures outstanding == 0 ==> t.durable == |t.history|
    {
      hide CommitDisk, CommitTrace, CommitWrites, Distinct, LS.InvOps, LS.InvView, LS.InvDurable, LS.InvAtomic,
           LS.Next, LS.Reaches;
      LS.EndNext(s, op);
      ghost var m := LS.EndStep(s, op).s;
      outstanding := outstanding - 1;
      if committing {
        assert false;  // "log.committing"
      }
      if outstanding == 0 {
        committing := true;
        acts, t := LS.CommitRuns(m);
        Commit();
        assert Header() == [];
        committing := false;
      } else {
        acts, t := [], m;
        LS.ReachesSelf(m);
      }
    }
  }
}

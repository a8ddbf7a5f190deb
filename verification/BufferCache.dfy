/** The doubly linked LRU list of bio.c. Buffers are numbered 0..NBUF-1; HEAD stands for bcache.head. */
module LruRing {
  import opened Basics
  const NBUF: nat := 30
  const HEAD: nat := NBUF

  datatype Ring = Ring(prev: seq<nat>, next: seq<nat>) {
    predicate Sized() {
      && |prev| == NBUF + 1 && |next| == NBUF + 1
      && (forall i :: 0 <= i <= NBUF ==> prev[i] <= NBUF)
      && (forall i :: 0 <= i <= NBUF ==> next[i] <= NBUF)
    }
  }

  /** The i-th stop when walking from the head, which is both stop -1 and stop |order|. */
  function Stop(order: seq<nat>, i: int): nat {
    if 0 <= i < |order| then order[i] else HEAD
  }

  /** Following next from the head visits exactly `order` and returns; prev is the same walk backwards. */
  ghost predicate IsRing(r: Ring, order: seq<nat>) {
    && r.Sized()
    && Distinct(order)
    && (forall i :: 0 <= i < |order| ==> order[i] < NBUF)
    && (forall i :: 0 <= i <= |order| ==> r.next[Stop(order, i - 1)] == Stop(order, i))
    && (forall i :: 0 <= i <= |order| ==> r.prev[Stop(order, i)] == Stop(order, i - 1))
  }

  /** Takes b out: its neighbours are joined, first backwards, then forwards. */
  function Unlink(r: Ring, b: nat): Ring
    requires r.Sized() && b < NBUF
  {
    var p := r.prev[r.next[b] := r.prev[b]];
    Ring(p, r.next[p[b] := r.next[b]])
  }

  /** Puts b in right after the head. */
  function Link(r: Ring, b: nat): Ring
    requires r.Sized() && b < NBUF
  {
    var n := r.next[b := r.next[HEAD]];
    var p := r.prev[b := HEAD];
    Ring(p[n[HEAD] := b], n[HEAD := b])
  }

  lemma UnlinkNext(r: Ring, order: seq<nat>, k: nat, i: nat)
    requires IsRing(r, order) && k < |order| && i <= |order| - 1
    ensures Unlink(r, order[k]).next[Stop(Without(order, k), i - 1)] == Stop(Without(order, k), i)
  {
    assert r.next[Stop(order, k)] == Stop(order, k + 1);
    assert r.prev[Stop(order, k)] == Stop(order, k - 1);
    var j := if i <= k then i else i + 1;
    assert r.next[Stop(order, j - 1)] == Stop(order, j);
  }

  lemma UnlinkPrev(r: Ring, order: seq<nat>, k: nat, i: nat)
    requires IsRing(r, order) && k < |order| && i <= |order| - 1
    ensures Unlink(r, order[k]).prev[Stop(Without(order, k), i)] == Stop(Without(order, k), i - 1)
  {
    assert r.next[Stop(order, k)] == Stop(order, k + 1);
    assert r.prev[Stop(order, k)] == Stop(order, k - 1);
    var j := if i < k then i else i + 1;
    assert r.prev[Stop(order, j)] == Stop(order, j - 1);
  }

  lemma UnlinkRing(r: Ring, order: seq<nat>, k: nat)
    requires IsRing(r, order) && k < |order|
    ensures IsRing(Unlink(r, order[k]), Without(order, k))
  {
    assert Distinct(Without(order, k));
    forall i: nat | i <= |Without(order, k)|
      ensures Unlink(r, order[k]).next[Stop(Without(order, k), i - 1)] == Stop(Without(order, k), i)
      ensures Unlink(r, order[k]).prev[Stop(Without(order, k), i)] == Stop(Without(order, k), i - 1)
    {
      UnlinkNext(r, order, k, i);
      UnlinkPrev(r, order, k, i);
    }
  }

  lemma LinkRing(r: Ring, order: seq<nat>, b: nat)
    requires IsRing(r, order) && b < NBUF && b !in order
    ensures IsRing(Link(r, b), [b] + order)
  {
    var s, u := [b] + order, Link(r, b);
    assert r.next[Stop(order, -1)] == Stop(order, 0);
    forall i | 0 <= i <= |s|
      ensures u.next[Stop(s, i - 1)] == Stop(s, i)
    {
      if i >= 2 { assert r.next[Stop(order, i - 2)] == Stop(order, i - 1); }
    }
    forall i | 0 <= i <= |s|
      ensures u.prev[Stop(s, i)] == Stop(s, i - 1)
    {
      if i >= 2 { assert r.prev[Stop(order, i - 1)] == Stop(order, i - 2); }
    }
  }

  /** The relinking that brelse does. */
  lemma MoveRing(r: Ring, order: seq<nat>, k: nat)
    requires IsRing(r, order) && k < |order|
    ensures r.Sized() && order[k] < NBUF && Unlink(r, order[k]).Sized()
    ensures IsRing(Link(Unlink(r, order[k]), order[k]), [order[k]] + Without(order, k))
  {
    hide Stop;
    UnlinkRing(r, order, k);
    LinkRing(Unlink(r, order[k]), Without(order, k), order[k]);
  }

  /** Every buffer is on the list, once. */
  ghost predicate Complete(order: seq<nat>) {
    && Distinct(order)
    && (forall i :: 0 <= i < |order| ==> order[i] < NBUF)
    && (forall b: nat :: b < NBUF ==> b in order)
  }

  lemma Position(order: seq<nat>, b: nat) returns (k: nat)
    requires Complete(order) && b < NBUF
    ensures k < |order| && order[k] == b && Distinct(order)
  {
    assert b in order;
    k :| k < |order| && order[k] == b;
  }

  /** The move that brelse makes keeps the list a permutation of all buffers. */
  lemma MoveToFront(order: seq<nat>, k: nat)
    requires Complete(order) && k < |order|
    ensures Complete([order[k]] + Without(order, k))
  {
    var s := [order[k]] + Without(order, k);
    forall b: nat | b < NBUF
      ensures b in s
    {
      assert b in order;
      var i :| 0 <= i < |order| && order[i] == b;
      if i < k { assert s[i + 1] == b; } else if i > k { assert s[i] == b; }
    }
  }
}

/** bio.c's buffer cache over the memory disk of memide.c. Each method is one critical section or one step made
    with the buffer's sleep lock held, so a sequence of calls stands for an interleaving of processes. */
module BufferCache {
  import opened Basics
  import opened LruRing
  import LF = LogFormat

  type Block = LF.Block
  type Disk = LF.Disk

  /** owner is the pid holding the buffer's sleep lock, 0 when it is free. */
  datatype Buf = Buf(dev: nat, blockno: nat, refcnt: nat, valid: bool, dirty: bool, owner: nat, data: Block) {
    predicate Holds(d: nat, b: nat) {
      dev == d && blockno == b
    }

    predicate Free() {
      refcnt == 0 && !dirty
    }
  }

  // ------------------------------------------------------- what the cache means

  /** Each block of a real device has at most one buffer. (binit leaves every buffer labelled device 0, block 0.) */
  ghost predicate Unique(bufs: seq<Buf>) {
    forall i, j :: 0 <= i < j < |bufs| && bufs[i].dev >= 1 ==> !bufs[j].Holds(bufs[i].dev, bufs[i].blockno)
  }

  /** A buffer against the disk and the latest contents of its block. */
  ghost predicate Agrees(u: Buf, disk: Disk, latest: Disk)
    requires |latest| == |disk|
  {
    && (u.valid ==> u.dev == 1 && u.blockno < |disk| && u.data == latest[u.blockno])
    && (u.dirty ==> u.valid)
    && (u.valid && !u.dirty && u.owner == 0 ==> u.data == disk[u.blockno])
    && (u.owner != 0 ==> u.refcnt >= 1)
  }

  ghost predicate Cached(bufs: seq<Buf>, b: nat) {
    exists i :: 0 <= i < |bufs| && bufs[i].valid && bufs[i].Holds(1, b)
  }

  /** The cache and the disk together hold the latest contents of every block. */
  ghost predicate Coherent(bufs: seq<Buf>, disk: Disk, latest: Disk) {
    && |latest| == |disk|
    && (forall i :: 0 <= i < |bufs| ==> Agrees(bufs[i], disk, latest))
    && (forall b: nat :: b < |disk| ==> Cached(bufs, b) || disk[b] == latest[b])
  }

  /** Nearer the head means released more recently. */
  ghost predicate MostRecentFirst(order: seq<nat>, stamp: seq<nat>, clock: nat) {
    && |stamp| == NBUF
    && (forall i :: 0 <= i < NBUF ==> stamp[i] < clock)
    && (forall i :: 0 <= i < |order| ==> order[i] < NBUF)
    && (forall i, j :: 0 <= i < j < |order| ==> stamp[order[i]] > stamp[order[j]])
  }

  /** Replacing buffer b by one that still agrees and still caches what b cached keeps the cache coherent. */
  lemma CoherentReplace(bufs: seq<Buf>, disk: Disk, latest: Disk, b: nat, u: Buf)
    requires Coherent(bufs, disk, latest) && b < |bufs| && Agrees(u, disk, latest)
    requires bufs[b].valid && bufs[b].dev == 1 ==>
               (u.valid && u.Holds(1, bufs[b].blockno)) || disk[bufs[b].blockno] == latest[bufs[b].blockno]
    ensures Coherent(bufs[b := u], disk, latest)
  {
    var c := bufs[b := u];
    forall x: nat | x < |disk|
      ensures Cached(c, x) || disk[x] == latest[x]
    {
      if Cached(bufs, x) {
        var i :| 0 <= i < |bufs| && bufs[i].valid && bufs[i].Holds(1, x);
        assert c[i] == if i == b then u else bufs[i];
      }
    }
  }

  /** A free buffer can be given to another block without losing anything. */
  lemma RecycleCoherent(bufs: seq<Buf>, disk: Disk, latest: Disk, b: nat, dev: nat, blockno: nat)
    requires Coherent(bufs, disk, latest) && b < |bufs| && bufs[b].Free()
    ensures Coherent(bufs[b := Buf(dev, blockno, 1, false, false, bufs[b].owner, bufs[b].data)], disk, latest)
  {
    CoherentReplace(bufs, disk, latest, b, Buf(dev, blockno, 1, false, false, bufs[b].owner, bufs[b].data));
  }

  lemma RecycleUnique(bufs: seq<Buf>, b: nat, u: Buf)
    requires Unique(bufs) && b < |bufs|
    requires forall i :: 0 <= i < |bufs| ==> !bufs[i].Holds(u.dev, u.blockno)
    ensures Unique(bufs[b := u])
  {
  }

  lemma SameLabelUnique(bufs: seq<Buf>, b: nat, u: Buf)
    requires Unique(bufs) && b < |bufs| && u.dev == bufs[b].dev && u.blockno == bufs[b].blockno
    ensures Unique(bufs[b := u])
  {
  }

  /** A write to the disk of the contents of the block's own buffer. */
  lemma WriteBackCoherent(bufs: seq<Buf>, disk: Disk, latest: Disk, b: nat)
    requires Coherent(bufs, disk, latest) && Unique(bufs) && b < |bufs| && bufs[b].valid
    ensures Coherent(bufs[b := bufs[b].(dirty := false)], disk[bufs[b].blockno := bufs[b].data], latest)
  {
    var u, x := bufs[b], bufs[b].blockno;
    var c, e := bufs[b := u.(dirty := false)], disk[x := u.data];
    forall i | 0 <= i < |c|
      ensures Agrees(c[i], e, latest)
    {
      if i != b && bufs[i].valid { assert !bufs[i].Holds(1, x); }
    }
    forall y: nat | y < |e|
      ensures Cached(c, y) || e[y] == latest[y]
    {
      if y != x && Cached(bufs, y) {
        var i :| 0 <= i < |bufs| && bufs[i].valid && bufs[i].Holds(1, y);
        assert c[i].valid && c[i].Holds(1, y);
      }
    }
  }

  /** A client's change to the data of a buffer it has locked. */
  lemma ModifyCoherent(bufs: seq<Buf>, disk: Disk, latest: Disk, b: nat, data: Block)
    requires Coherent(bufs, disk, latest) && Unique(bufs) && b < |bufs| && bufs[b].valid && bufs[b].owner != 0
    ensures Coherent(bufs[b := bufs[b].(data := data)], disk, latest[bufs[b].blockno := data])
  {
    var u, x := bufs[b], bufs[b].blockno;
    var c, l := bufs[b := u.(data := data)], latest[x := data];
    forall i | 0 <= i < |c|
      ensures Agrees(c[i], disk, l)
    {
      if i != b && bufs[i].valid { assert !bufs[i].Holds(1, x); }
    }
    assert c[b].valid && c[b].Holds(1, x);
    forall y: nat | y < |disk|
      ensures Cached(c, y) || disk[y] == l[y]
    {
      if y != x && Cached(bufs, y) {
        var i :| 0 <= i < |bufs| && bufs[i].valid && bufs[i].Holds(1, y);
        assert c[i].valid && c[i].Holds(1, y);
      }
    }
  }

  /** Reading a block into its buffer. */
  lemma FillCoherent(bufs: seq<Buf>, disk: Disk, latest: Disk, b: nat)
    requires Coherent(bufs, disk, latest) && Unique(bufs) && b < |bufs| && !bufs[b].valid
    requires bufs[b].dev == 1 && bufs[b].blockno < |disk|
    ensures disk[bufs[b].blockno] == latest[bufs[b].blockno]
    ensures Coherent(bufs[b := bufs[b].(valid := true, dirty := false, data := disk[bufs[b].blockno])], disk, latest)
  {
    var x := bufs[b].blockno;
    assert !Cached(bufs, x);
    CoherentReplace(bufs, disk, latest, b, bufs[b].(valid := true, dirty := false, data := disk[x]));
  }

  lemma OwnerFree(bufs: seq<Buf>, disk: Disk, latest: Disk, b: nat)
    requires Coherent(bufs, disk, latest) && b < |bufs| && bufs[b].refcnt == 0
    ensures bufs[b].owner == 0
  {
  }

  lemma Restamp(order: seq<nat>, stamp: seq<nat>, clock: nat, k: nat)
    requires MostRecentFirst(order, stamp, clock) && Distinct(order) && k < |order|
    ensures MostRecentFirst([order[k]] + Without(order, k), stamp[order[k] := clock], clock + 1)
  {
  }

  /** With no lock held, the latest contents of a block are those of its dirty buffer, or else the disk's: the
      cache is a set of pinned blocks over the disk, which is how the log uses it. */
  lemma PinnedOverDisk(bufs: seq<Buf>, disk: Disk, latest: Disk, x: nat)
    requires Unique(bufs) && Coherent(bufs, disk, latest) && x < |disk|
    requires forall i :: 0 <= i < |bufs| ==> bufs[i].owner == 0
    ensures forall i :: 0 <= i < |bufs| && bufs[i].dirty && bufs[i].Holds(1, x) ==> latest[x] == bufs[i].data
    ensures (forall i :: 0 <= i < |bufs| && bufs[i].Holds(1, x) ==> !bufs[i].dirty) ==> latest[x] == disk[x]
  {
    if Cached(bufs, x) {
      var i :| 0 <= i < |bufs| && bufs[i].valid && bufs[i].Holds(1, x);
      assert Agrees(bufs[i], disk, latest);
    }
  }

  lemma FreshList(o: seq<nat>)
    requires |o| == NBUF && forall i :: 0 <= i < NBUF ==> o[i] == NBUF - 1 - i
    ensures Complete(o) && MostRecentFirst(o, seq(NBUF, i => i), NBUF)
  {
    forall b: nat | b < NBUF
      ensures b in o
    {
      assert o[NBUF - 1 - b] == b;
    }
  }

  lemma FreshBuffers(d: Disk, zero: Block)
    ensures var bufs := seq(NBUF, _ => Buf(0, 0, 0, false, false, 0, zero)); Unique(bufs) && Coherent(bufs, d, d)
  {
  }

  class BufferCache {
    var ring: Ring
    var bufs: seq<Buf>
    var disk: Disk
    ghost var order: seq<nat>    // the list, most recently released first
    ghost var stamp: seq<nat>    // when each buffer's refcnt last reached 0
    ghost var clock: nat
    ghost var latest: Disk       // what each block was last set to

    ghost predicate Valid()
      reads this
    {
      && |bufs| == NBUF
      && IsRing(ring, order) && Complete(order)
      && MostRecentFirst(order, stamp, clock)
      && Unique(bufs) && Coherent(bufs, disk, latest)
    }

    /** binit */
    constructor (d: Disk, zero: Block)
      ensures Valid() && disk == d && latest == d
      ensures bufs == seq(NBUF, _ => Buf(0, 0, 0, false, false, 0, zero))
    {
      var r := Ring(seq(NBUF + 1, _ => HEAD), seq(NBUF + 1, _ => HEAD));
      ghost var o: seq<nat> := [];
      var b := 0;
      while b < NBUF
        invariant 0 <= b <= NBUF
        invariant IsRing(r, o) && |o| == b
        invariant forall i :: 0 <= i < b ==> o[i] == b - 1 - i
      {
        LinkRing(r, o, b);
        r, o := Link(r, b), [b] + o;
        b := b + 1;
      }
      FreshList(o);
      ring, order := r, o;
      bufs := seq(NBUF, _ => Buf(0, 0, 0, false, false, 0, zero));
      disk, latest := d, d;
      stamp, clock := seq(NBUF, i => i), NBUF;
      FreshBuffers(d, zero);
    }

    /** bget's first loop, from the head along next. */
    method FindCached(dev: nat, blockno: nat) returns (b: nat)
      requires Valid()
      ensures b <= NBUF
      ensures b < NBUF ==> bufs[b].dev == dev && bufs[b].blockno == blockno
      ensures b == NBUF ==> forall i :: 0 <= i < NBUF ==> !bufs[i].Holds(dev, blockno)
    {
      hide Coherent, Unique, MostRecentFirst;
      b := ring.next[HEAD];
      ghost var k := 0;
      assert ring.next[Stop(order, -1)] == Stop(order, 0);
      while b != HEAD
        invariant 0 <= k <= |order| && b == Stop(order, k)
        invariant forall i :: 0 <= i < k ==> !bufs[order[i]].Holds(dev, blockno)
        decreases |order| - k
      {
        if bufs[b].Holds(dev, blockno) {
          return b;
        }
        assert ring.next[Stop(order, k)] == Stop(order, k + 1);
        b := ring.next[b];
        k := k + 1;
      }
      forall i: nat | i < NBUF
        ensures !bufs[i].Holds(dev, blockno)
      {
        assert i in order;
      }
    }

    /** bget's second loop, from the head along prev: the least recently released of the free buffers. */
    method FindUnused() returns (b: nat)
      requires Valid()
      ensures b <= NBUF
      ensures b < NBUF ==> bufs[b].Free() && forall i :: 0 <= i < NBUF && bufs[i].Free() ==> stamp[b] <= stamp[i]
      ensures b < NBUF ==> bufs[b].refcnt == 0 && !bufs[b].dirty
      ensures b == NBUF ==> forall i :: 0 <= i < NBUF ==> bufs[i].refcnt != 0 || bufs[i].dirty
    {
      hide Coherent, Unique;
      b := ring.prev[HEAD];
      ghost var k := |order| - 1;
      assert ring.prev[Stop(order, |order|)] == Stop(order, |order| - 1);
      while b != HEAD
        invariant -1 <= k < |order| && b == Stop(order, k)
        invariant forall i :: k < i < |order| ==> !bufs[order[i]].Free()
        decreases k
      {
        if bufs[b].Free() {
          forall i: nat | i < NBUF && bufs[i].Free()
            ensures stamp[b] <= stamp[i]
          {
            assert i in order;
          }
          return b;
        }
        assert ring.prev[Stop(order, k)] == Stop(order, k - 1);
        b := ring.prev[b];
        k := k - 1;
      }
      forall i: nat | i < NBUF
        ensures !bufs[i].Free()
      {
        assert i in order;
      }
    }

    /** The critical section of bget. It fails ("no buffers") only when every buffer is in use or dirty; it reuses
        the block's buffer if there is one, and otherwise the least recently released free one. */
    method Bget(dev: nat, blockno: nat) returns (found: bool, b: nat)
      requires Valid() && dev >= 1
      modifies this`bufs
      ensures Valid() && (found ==> b < NBUF && bufs[b].dev == dev && bufs[b].blockno == blockno)
      ensures found && old(bufs)[b].Holds(dev, blockno) ==>
                bufs == old(bufs)[b := old(bufs)[b].(refcnt := old(bufs)[b].refcnt + 1)]
      ensures found && !old(bufs)[b].Holds(dev, blockno) ==>
                && (forall i :: 0 <= i < NBUF ==> !old(bufs)[i].Holds(dev, blockno))
                && old(bufs)[b].Free()
                && (forall i :: 0 <= i < NBUF && old(bufs)[i].Free() ==> stamp[b] <= stamp[i])
                && bufs == old(bufs)[b := Buf(dev, blockno, 1, false, false, 0, old(bufs)[b].data)]
      ensures !found ==>
                && bufs == old(bufs)
                && forall i :: 0 <= i < NBUF ==>
                     !bufs[i].Holds(dev, blockno) && (bufs[i].refcnt != 0 || bufs[i].dirty)
    {
      hide IsRing, Complete, MostRecentFirst, Unique, Cached;
      b := FindCached(dev, blockno);
      if b < NBUF {
        ReplaceSameLabel(b, bufs[b].(refcnt := bufs[b].refcnt + 1));
        bufs := bufs[b := bufs[b].(refcnt := bufs[b].refcnt + 1)];
        return true, b;
      }
      b := FindUnused();
      if b < NBUF {
        OwnerFree(bufs, disk, latest, b);
        RecycleCoherent(bufs, disk, latest, b, dev, blockno);
        RecycleUnique(bufs, b, Buf(dev, blockno, 1, false, false, 0, bufs[b].data));
        bufs := bufs[b := Buf(dev, blockno, 1, false, false, 0, bufs[b].data)];
        return true, b;
      }
      return false, b;
    }

    lemma ReplaceSameLabel(b: nat, u: Buf)
      requires Valid() && b < NBUF && u.dev == bufs[b].dev && u.blockno == bufs[b].blockno
      requires u.valid == bufs[b].valid && u.data == bufs[b].data && Agrees(u, disk, latest)
      ensures Unique(bufs[b := u]) && Coherent(bufs[b := u], disk, latest)
    {
      SameLabelUnique(bufs, b, u);
      CoherentReplace(bufs, disk, latest, b, u);
    }

    /** acquiresleep, at the moment the lock is granted. */
    method Lock(b: nat, pid: nat)
      requires Valid() && b < NBUF && pid != 0
      requires bufs[b].owner == 0 && bufs[b].refcnt >= 1
      modifies this`bufs
      ensures Valid() && bufs == old(bufs)[b := old(bufs)[b].(owner := pid)]
    {
      ReplaceSameLabel(b, bufs[b].(owner := pid));
      hide IsRing, Complete, MostRecentFirst, Coherent, Unique;
      bufs := bufs[b := bufs[b].(owner := pid)];
    }

    /** iderw: writes a dirty buffer, otherwise reads a buffer that is not valid. */
    method Iderw(b: nat)
      requires Valid() && b < NBUF && bufs[b].owner != 0
      requires bufs[b].dirty || !bufs[b].valid
      requires bufs[b].dev == 1 && bufs[b].blockno < |disk|
      modifies this`bufs, this`disk
      ensures Valid()
      ensures old(bufs)[b].dirty ==>
                && disk == old(disk)[old(bufs)[b].blockno := old(bufs)[b].data]
                && bufs == old(bufs)[b := old(bufs)[b].(dirty := false)]
      ensures !old(bufs)[b].dirty ==>
                && disk == old(disk)
                && bufs == old(bufs)[b := old(bufs)[b].(valid := true, data := disk[old(bufs)[b].blockno])]
    {
      hide IsRing, Complete, MostRecentFirst, Unique;
      var u := bufs[b];
      if u.dirty {
        WriteBackCoherent(bufs, disk, latest, b);
        SameLabelUnique(bufs, b, u.(dirty := false));
        disk := disk[u.blockno := u.data];
        bufs := bufs[b := u.(dirty := false)];
      } else {
        FillCoherent(bufs, disk, latest, b);
        SameLabelUnique(bufs, b, u.(valid := true, dirty := false, data := disk[u.blockno]));
        bufs := bufs[b := u.(valid := true, data := disk[u.blockno])];
      }
    }

    /** What bread does once it has the lock: the caller sees the latest contents of the block. */
    method Fill(b: nat)
      requires Valid() && b < NBUF && bufs[b].owner != 0
      requires bufs[b].dev == 1 && bufs[b].blockno < |disk|
      modifies this`bufs, this`disk
      ensures Valid() && disk == old(disk)
      ensures bufs[b].valid && bufs[b].data == latest[bufs[b].blockno]
      ensures bufs == old(bufs)[b := old(bufs)[b].(valid := true, data := bufs[b].data)]
    {
      if !bufs[b].valid {
        Iderw(b);
      }
    }

    /** The holder of the lock changes the data. */
    method Modify(b: nat, data: Block)
      requires Valid() && b < NBUF && bufs[b].owner != 0 && bufs[b].valid
      modifies this`bufs, this`latest
      ensures Valid() && bufs == old(bufs)[b := old(bufs)[b].(data := data)]
      ensures latest == old(latest)[bufs[b].blockno := data]
    {
      hide IsRing, Complete, MostRecentFirst, Unique;
      ModifyCoherent(bufs, disk, latest, b, data);
      SameLabelUnique(bufs, b, bufs[b].(data := data));
      latest := latest[bufs[b].blockno := data];
      bufs := bufs[b := bufs[b].(data := data)];
    }

    /** What log_write does to the buffer: pin it. */
    method MarkDirty(b: nat)
      requires Valid() && b < NBUF && bufs[b].owner != 0 && bufs[b].valid
      modifies this`bufs
      ensures Valid() && bufs == old(bufs)[b := old(bufs)[b].(dirty := true)]
    {
      ReplaceSameLabel(b, bufs[b].(dirty := true));
      hide IsRing, Complete, MostRecentFirst, Coherent, Unique;
      bufs := bufs[b := bufs[b].(dirty := true)];
    }

    method Bwrite(b: nat, pid: nat)
      requires Valid() && b < NBUF && pid != 0 && bufs[b].owner == pid && bufs[b].valid
      modifies this`bufs, this`disk
      ensures Valid() && bufs == old(bufs)[b := old(bufs)[b].(dirty := false)]
      ensures disk == old(disk)[bufs[b].blockno := bufs[b].data]
    {
      MarkDirty(b);
      Iderw(b);
    }

    /** The first half of brelse, by a client that has logged or written the buffer if it changed it: the lock is
        released, and another process may get it before the second half. */
    method Unlock(b: nat, pid: nat)
      requires Valid() && b < NBUF && pid != 0 && bufs[b].owner == pid
      requires bufs[b].valid && !bufs[b].dirty ==>
                 bufs[b].blockno < |disk| && bufs[b].data == disk[bufs[b].blockno]
      modifies this`bufs
      ensures Valid() && bufs == old(bufs)[b := old(bufs)[b].(owner := 0)]
    {
      ReplaceSameLabel(b, bufs[b].(owner := 0));
      hide IsRing, Complete, MostRecentFirst, Coherent, Unique;
      bufs := bufs[b := bufs[b].(owner := 0)];
    }

    /** The second half gives back a reference, which is not that of a process that holds the lock by now. A buffer
        no one else refers to moves to the front of the list. */
    method Brelse(b: nat)
      requires Valid() && b < NBUF && bufs[b].refcnt >= (if bufs[b].owner != 0 then 2 else 1)
      modifies this
      ensures Valid() && disk == old(disk) && latest == old(latest)
      ensures bufs == old(bufs)[b := old(bufs)[b].(refcnt := old(bufs)[b].refcnt - 1)]
      ensures bufs[b].refcnt > 0 ==> order == old(order) && stamp == old(stamp)
      ensures bufs[b].refcnt == 0 ==> order != [] && order[0] == b && stamp == old(stamp)[b := old(clock)]
      ensures bufs[b].refcnt == 0 ==> bufs[b].owner == 0
    {
      hide IsRing, Complete, Distinct, Unique, Cached, Unlink, Link, Without;
      ReplaceSameLabel(b, bufs[b].(refcnt := bufs[b].refcnt - 1));
      bufs := bufs[b := bufs[b].(refcnt := bufs[b].refcnt - 1)];
      if bufs[b].refcnt == 0 {
        ghost var k := Position(order, b);
        MoveRing(ring, order, k);
        MoveToFront(order, k);
        Restamp(order, stamp, clock, k);
        ring := Unlink(ring, b);
        ring := Link(ring, b);
        order := [b] + Without(order, k);
        stamp, clock := stamp[b := clock], clock + 1;
      }
    }
  }
}

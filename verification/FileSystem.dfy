/** fs.c and file.c from balloc up to filewrite, updating the disk image in place. */
module FileSystem {
  import opened Basics
  import opened FileBlocks
  import LogFormat

  const BPB: nat := BSIZE * 8
  const IPB: nat := 8
  const MAXOPBLOCKS: nat := LogFormat.MAXOPBLOCKS
  /** The most bytes filewrite puts in one transaction. */
  const CHUNK: nat := ((MAXOPBLOCKS - 1 - 1 - 2) / 2) * 512

  class FileSystem {
    const sb: Super
    var bitmap: seq<bool>
    var data: seq<Block>
    var mem: seq<Dinode>         // the in-memory inodes
    var disk: seq<Dinode>        // the inodes on disk
    ghost var owner: seq<Owner>
    ghost var logged: set<nat>   // the blocks logged by the current operation

    /** A file system with the given image. */
    constructor (sb: Super, bitmap: seq<bool>, data: seq<Block>, inodes: seq<Dinode>, ghost owner: seq<Owner>)
      requires Owned(sb, bitmap, data, inodes, owner)
      requires forall i :: 0 <= i < |inodes| ==> NoHoles(data, inodes[i])
      ensures Valid() && this.sb == sb && this.bitmap == bitmap && this.data == data && mem == inodes
      ensures this.owner == owner && logged == {}
    {
      this.sb, this.bitmap, this.data, mem, disk := sb, bitmap, data, inodes, inodes;
      this.owner, logged := owner, {};
    }

    function BBlock(b: nat): nat {
      b / BPB + sb.bmapstart
    }

    function IBlock(i: nat): nat {
      i / IPB + sb.inodestart
    }

    ghost predicate Sized()
      reads this
    {
      sb.Ok() && |bitmap| == |data| == |owner| == sb.size && |mem| == |disk| == sb.ninodes
    }

    /** Every block is accounted for, and inode i's blocks are the first n of its file. */
    ghost predicate Allocated(i: nat, n: nat)
      reads this
    {
      Owned(sb, bitmap, data, mem, owner) && |disk| == sb.ninodes && i < |mem| && Dense(data, mem[i], n)
    }

    /** At operation boundaries: every block is accounted for, no file has holes, and the in-memory inodes
        are the ones on disk. */
    ghost predicate Valid()
      reads this
    {
      && Owned(sb, bitmap, data, mem, owner)
      && (forall i :: 0 <= i < |mem| ==> NoHoles(data, mem[i]))
      && disk == mem
    }

    /** Marks the first free block as used, and zeroes it; panics exactly when there is none. */
    method Balloc() returns (ok: bool, b: nat)
      requires |bitmap| == |data| == sb.size
      modifies this`bitmap, this`data, this`logged
      ensures ok <==> exists x :: 0 <= x < sb.size && !old(bitmap)[x]
      ensures ok ==> b < sb.size && !old(bitmap)[b] && forall x :: 0 <= x < b ==> old(bitmap)[x]
      ensures ok ==> bitmap == old(bitmap)[b := true] && data == old(data)[b := ZERO]
      ensures ok ==> logged == old(logged) + {BBlock(b), b}
      ensures !ok ==> bitmap == old(bitmap) && data == old(data) && logged == old(logged)
    {
      var base := 0;
      while base < sb.size
        invariant base % BPB == 0
        invariant forall x :: 0 <= x < base && x < sb.size ==> bitmap[x]
        invariant bitmap == old(bitmap) && data == old(data) && logged == old(logged)
      {
        var bi := 0;
        while bi < BPB && base + bi < sb.size
          invariant 0 <= bi <= BPB
          invariant forall x :: 0 <= x < base + bi && x < sb.size ==> bitmap[x]
          invariant bitmap == old(bitmap) && data == old(data) && logged == old(logged)
        {
          if !bitmap[base + bi] {
            b := base + bi;
            bitmap := bitmap[b := true];
            logged := logged + {base / BPB + sb.bmapstart};
            data := data[b := ZERO];
            logged := logged + {b};
            assert b / BPB == base / BPB;
            return true, b;
          }
          bi := bi + 1;
        }
        base := base + BPB;
      }
      return false, 0;
    }

    /** Panics ("freeing free block") exactly when the block is free already. */
    method Bfree(b: nat) returns (ok: bool)
      requires b < |bitmap|
      modifies this`bitmap, this`logged
      ensures ok <==> old(bitmap)[b]
      ensures bitmap == old(bitmap)[b := false]
      ensures logged == old(logged) + if ok then {BBlock(b)} else {}
    {
      if !bitmap[b] {
        return false;
      }
      bitmap := bitmap[b := false];
      logged := logged + {BBlock(b)};
      return true;
    }

    /** The part of bmap that fills slot k <= NDIRECT if it is empty. */
    method AllocSlot(i: nat, k: nat) returns (ok: bool, a: nat)
      requires Owned(sb, bitmap, data, mem, owner) && i < |mem| && k <= NDIRECT
      modifies this`bitmap, this`data, this`mem, this`owner, this`logged
      ensures ok ==> Owned(sb, bitmap, data, mem, owner)
      ensures ok ==> |mem| == |old(mem)| && |mem[i].addrs| == NDIRECT + 1 && a == mem[i].addrs[k] != 0
      ensures old(mem)[i].addrs[k] != 0 ==> ok
      ensures !ok ==> FreeBlocks(old(owner)) == {}
      ensures ok && old(mem)[i].addrs[k] != 0 ==>
                bitmap == old(bitmap) && data == old(data) && mem == old(mem) && owner == old(owner)
                    && logged == old(logged)
      ensures ok && old(mem)[i].addrs[k] == 0 ==>
                && 0 < a < sb.size && old(owner)[a] == Free
                && mem == old(mem)[i := old(mem)[i].(addrs := old(mem)[i].addrs[k := a])]
                && data == old(data)[a := ZERO] && owner == old(owner)[a := Slot(i, k)]
                && logged == old(logged) + {BBlock(a), a}
      ensures ok ==> 0 < a < sb.size && owner[a] == Slot(i, k)
      ensures ok ==>
              mem == old(mem)[i := mem[i]] && Fills(old(data), old(mem)[i], old(owner), data, mem[i], owner, i, k, a)
    {
      a := mem[i].addrs[k];
      if a != 0 {
        SlotInUse(sb, bitmap, data, mem, owner, i, k);
        return true, a;
      }
      ok, a := Balloc();
      if ok {
        assert owner[a] == Free && owner[0] == Meta;
        OwnsDataWrite(old(data), mem, owner, a, ZERO);
        OwnsAssign(data, mem, owner, i, k, a);
        AssignExtends(old(data), mem, owner, i, k, a);
        mem := mem[i := mem[i].(addrs := mem[i].addrs[k := a])];
        owner := owner[a := Slot(i, k)];
      } else {
        NoneFree(bitmap, owner);
      }
    }

    /** The part of bmap that fills entry e of the indirect block if it is empty. */
    method AllocEntry(i: nat, e: nat) returns (ok: bool, a: nat)
      requires Owned(sb, bitmap, data, mem, owner) && i < |mem| && e < NINDIRECT
      requires 0 < mem[i].addrs[NDIRECT] < sb.size
      modifies this`bitmap, this`data, this`owner, this`logged
      ensures ok ==> Owned(sb, bitmap, data, mem, owner)
      ensures ok ==> a == Addr(data, mem[i], NDIRECT + 1 + e) != 0
      ensures Addr(old(data), mem[i], NDIRECT + 1 + e) != 0 ==> ok
      ensures !ok ==> FreeBlocks(old(owner)) == {}
      ensures ok && Addr(old(data), mem[i], NDIRECT + 1 + e) != 0 ==>
                bitmap == old(bitmap) && data == old(data) && owner == old(owner) && logged == old(logged)
      ensures ok && Addr(old(data), mem[i], NDIRECT + 1 + e) == 0 ==>
                var p, z := mem[i].addrs[NDIRECT], old(data)[a := ZERO];
                && 0 < a < sb.size && old(owner)[a] == Free
                && data == z[p := PutWord(z[p], e, a)] && owner == old(owner)[a := Slot(i, NDIRECT + 1 + e)]
                && logged == old(logged) + {BBlock(a), a, p}
      ensures ok ==> 0 < a < sb.size && owner[a] == Slot(i, NDIRECT + 1 + e)
      ensures ok ==> Fills(old(data), mem[i], old(owner), data, mem[i], owner, i, NDIRECT + 1 + e, a)
    {
      var p := mem[i].addrs[NDIRECT];
      a := GetWord(data[p], e);
      if a != 0 {
        SlotInUse(sb, bitmap, data, mem, owner, i, NDIRECT + 1 + e);
        return true, a;
      }
      ok, a := Balloc();
      if ok {
        assert owner[a] == Free && owner[0] == Meta;
        assert SlotOwns(old(data), mem[i], owner, i, NDIRECT);
        OwnsDataWrite(old(data), mem, owner, a, ZERO);
        OwnsAssignIndirect(data, mem, owner, i, e, a);
        AssignIndirectExtends(old(data), mem, owner, i, e, a);
        WordRoundTrip(data[p], e, a);
        data := data[p := PutWord(data[p], e, a)];
        logged := logged + {p};
        owner := owner[a := Slot(i, NDIRECT + 1 + e)];
      } else {
        NoneFree(bitmap, owner);
      }
    }

    /** The block of the file's block bn, allocated if bn is the next one. */
    method Bmap(i: nat, bn: nat, ghost n: nat) returns (ok: bool, a: nat)
      requires Allocated(i, n) && bn <= n && bn < MAXFILE
      modifies this`bitmap, this`data, this`mem, this`owner, this`logged
      ensures ok ==> Allocated(i, if bn < n then n else n + 1)
      ensures ok ==> 0 < a < sb.size && a == Addr(data, mem[i], SlotOf(bn)) && owner[a] == Slot(i, SlotOf(bn))
      ensures ok <==> Need(bn, n) <= |FreeBlocks(old(owner))|
      ensures ok ==> |FreeBlocks(owner)| == |FreeBlocks(old(owner))| - Need(bn, n)
      ensures ok && bn < n ==>
                bitmap == old(bitmap) && data == old(data) && mem == old(mem) && owner == old(owner)
                    && logged == old(logged)
      ensures ok ==> mem == old(mem)[i := mem[i]]
      ensures ok ==> Extends(old(data), old(mem)[i], old(owner), data, mem[i], owner, i)
      ensures ok && bn == n ==> logged == old(logged) + {a, BBlock(a)} + IndirectLogged(mem[i], bn)
      ensures ok && bn == n ==> TookFree(old(owner), owner, mem[i], i, a, bn)
    {
      hide OwnsSlots, GetWord, PutWord, FreeBlocks;
      assert Addr(data, mem[i], SlotOf(bn)) != 0 <==> bn < n;
      if bn < NDIRECT {
        ok, a := AllocSlot(i, bn);
        if ok && bn == n { TakeFree(old(owner), a, Slot(i, bn)); }
        if ok && bn == n { DenseNext(old(data), old(mem)[i], data, mem[i], n, a); }
      } else {
        ok, a := BmapIndirect(i, bn, n);
      }
    }

    /** What filling block bn >= NDIRECT logs besides the block and its bitmap block. */
    ghost function IndirectLogged(ip: Dinode, bn: nat): set<nat>
      requires |ip.addrs| == NDIRECT + 1
    {
      if bn < NDIRECT then {}
      else if bn == NDIRECT then {ip.addrs[NDIRECT], BBlock(ip.addrs[NDIRECT])}
      else {ip.addrs[NDIRECT]}
    }

    method BmapIndirect(i: nat, bn: nat, ghost n: nat) returns (ok: bool, a: nat)
      requires Allocated(i, n) && bn <= n && NDIRECT <= bn < MAXFILE
      modifies this`bitmap, this`data, this`mem, this`owner, this`logged
      ensures ok ==> Allocated(i, if bn < n then n else n + 1)
      ensures ok ==> 0 < a < sb.size && a == Addr(data, mem[i], SlotOf(bn)) && owner[a] == Slot(i, SlotOf(bn))
      ensures ok <==> Need(bn, n) <= |FreeBlocks(old(owner))|
      ensures ok ==> |FreeBlocks(owner)| == |FreeBlocks(old(owner))| - Need(bn, n)
      ensures ok && bn < n ==>
                bitmap == old(bitmap) && data == old(data) && mem == old(mem) && owner == old(owner)
                    && logged == old(logged)
      ensures ok ==> mem == old(mem)[i := mem[i]]
      ensures ok ==> Extends(old(data), old(mem)[i], old(owner), data, mem[i], owner, i)
      ensures ok && bn == n ==> logged == old(logged) + {a, BBlock(a)} + IndirectLogged(mem[i], bn)
      ensures ok && bn == n ==> TookFree(old(owner), owner, mem[i], i, a, bn)
    {
      hide OwnsSlots, GetWord, PutWord, Extends, FreeBlocks;
      assert Addr(data, mem[i], SlotOf(bn)) != 0 <==> bn < n;
      var p;
      ok, p := AllocSlot(i, NDIRECT);
      if !ok {
        return false, 0;
      }
      ghost var d1, m1, o1 := data, mem, owner;
      if n <= NDIRECT { TakeFree(old(owner), p, Slot(i, NDIRECT)); }
      ok, a := AllocEntry(i, bn - NDIRECT);
      if ok {
        FillsTwice(old(data), old(mem)[i], old(owner), d1, m1[i], o1, data, mem[i], owner, i, bn, n, p, a);
        if bn == n { TakeFree(o1, a, Slot(i, bn + 1)); }
      }
    }

    /** Copies the in-memory inode to disk. */
    method Iupdate(i: nat)
      requires i < |mem| == |disk|
      modifies this`disk, this`logged
      ensures disk == old(disk)[i := mem[i]] && logged == old(logged) + {IBlock(i)}
    {
      disk := disk[i := mem[i]];
      logged := logged + {IBlock(i)};
    }

    /** The blocks a one-block write logs: the block and, if it is new, what allocating it touches. */
    ghost function BlockLogged(a: nat, ip: Dinode, bn: nat, n: nat): set<nat>
      requires |ip.addrs| == NDIRECT + 1
    {
      {a} + if bn < n then {} else {BBlock(a)} + IndirectLogged(ip, bn)
    }

    /** One turn of writei's loop: the bytes s at pos, all within one block. */
    method WriteBlock(i: nat, pos: nat, s: seq<Byte>, ghost n: nat) returns (ok: bool, ghost a: nat)
      requires Allocated(i, n) && pos / BSIZE <= n
      requires s != [] && pos % BSIZE + |s| <= BSIZE && pos + |s| <= MAXFILE * BSIZE
      modifies this`bitmap, this`data, this`mem, this`owner, this`logged
      ensures ok ==> Allocated(i, if pos / BSIZE < n then n else n + 1)
      ensures ok ==> mem == old(mem)[i := mem[i]] && mem[i] == old(mem)[i].(addrs := mem[i].addrs)
      ensures ok ==> Wrote(old(data), old(mem)[i], old(owner), data, mem[i], owner, i, pos, s, n)
      ensures ok <==> Need(pos / BSIZE, n) <= |FreeBlocks(old(owner))|
      ensures ok ==> |FreeBlocks(owner)| == |FreeBlocks(old(owner))| - Need(pos / BSIZE, n)
      ensures ok ==> logged == old(logged) + BlockLogged(a, mem[i], pos / BSIZE, n)
      ensures ok ==> a < |owner| && owner[a] == Slot(i, SlotOf(pos / BSIZE))
      ensures ok && pos / BSIZE == n ==> TookFree(old(owner), owner, mem[i], i, a, n)
      ensures ok && pos / BSIZE < n ==> mem == old(mem) && owner == old(owner) && bitmap == old(bitmap)
      ensures ok && NDIRECT < n ==> mem[i].addrs[NDIRECT] == old(mem)[i].addrs[NDIRECT]
    {
      hide OwnsSlots, GetWord, PutWord, Wrote, Patch, FreeBlocks, TookFree;
      var b;
      ok, b := Bmap(i, pos / BSIZE, n);
      a := b;
      if ok {
        PatchWrote(old(data), old(mem), old(owner), n, data, mem, owner, if pos / BSIZE < n then n else n + 1,
                   i, pos / BSIZE, pos % BSIZE, s);
        PatchKeepsSlots(data, mem, owner, i, b, Patch(data[b], pos % BSIZE, s), if pos / BSIZE < n then n else n + 1);
        assert Addr(old(data), old(mem)[i], NDIRECT) == old(mem)[i].addrs[NDIRECT];
        data := data[b := Patch(data[b], pos % BSIZE, s)];
        logged := logged + {b};
      }
    }

    // --------------------------------------------------- counting a transaction

    /** The file blocks that the first tot bytes written at off fall into. */
    static function Touched(off: nat, tot: nat): nat {
      if tot == 0 then 0 else Blocks(off + tot) - off / BSIZE
    }

    ghost function Indirect(ip: Dinode, n0: nat, n: nat): set<nat>
      requires |ip.addrs| == NDIRECT + 1
    {
      if NDIRECT < n && n0 < n then {ip.addrs[NDIRECT]} else {}
    }

    /** The bitmap blocks of the given blocks. */
    ghost function BBlocks(bs: set<nat>): set<nat> {
      set b | b in bs :: BBlock(b)
    }

    /** The blocks that writing file block bn allocates. */
    ghost function NewBlocks(a: nat, ip: Dinode, bn: nat, n: nat): set<nat>
      requires |ip.addrs| == NDIRECT + 1
    {
      if bn < n then {} else if bn == NDIRECT then {a, ip.addrs[NDIRECT]} else {a}
    }

    /** A write that has taken the file from n0 to n blocks has logged, beyond `base`, exactly the data blocks ds, the
        bitmap blocks of the newly allocated blocks `news`, and the indirect block if it grew past the direct ones. */
    ghost predicate Accounted(base: set<nat>, log: set<nat>, ds: set<nat>, news: set<nat>, ip: Dinode, n0: nat, n: nat)
      requires |ip.addrs| == NDIRECT + 1
    {
      n0 <= n && log == base + ds + BBlocks(news) + Indirect(ip, n0, n)
    }

    lemma AccountBlock(base: set<nat>, log: set<nat>, ds: set<nat>, news: set<nat>, ip: Dinode, n0: nat, n: nat,
                       log': set<nat>, a: nat, ip': Dinode, bn: nat)
      requires |ip.addrs| == NDIRECT + 1 && |ip'.addrs| == NDIRECT + 1 && bn <= n
      requires Accounted(base, log, ds, news, ip, n0, n)
      requires log' == log + BlockLogged(a, ip', bn, n)
      requires NDIRECT < n ==> ip'.addrs[NDIRECT] == ip.addrs[NDIRECT]
      ensures Accounted(base, log', ds + {a}, news + NewBlocks(a, ip', bn, n), ip', n0, if bn < n then n else n + 1)
    {
      var new1 := NewBlocks(a, ip', bn, n);
      assert BBlocks(news + new1) == BBlocks(news) + BBlocks(new1);
      if bn < n {
        assert BBlocks(new1) == {};
      } else if bn == NDIRECT {
        assert BBlocks(new1) == {BBlock(a), BBlock(ip'.addrs[NDIRECT])};
      } else {
        assert BBlocks(new1) == {BBlock(a)};
      }
    }

    lemma AccountStart(off: nat, log: set<nat>, ip: Dinode)
      requires |ip.addrs| == NDIRECT + 1 && off <= ip.size
      ensures Accounted(log, log, {}, {}, ip, Blocks(ip.size), Blocks(ip.size))
      ensures Touched(off, 0) == 0 && Max(Blocks(ip.size), Blocks(off)) == Blocks(ip.size)
    {
      assert BBlocks({}) == {};
    }

    /** At most one bitmap block for each new block, and exactly one if the free blocks are scattered. */
    lemma {:induction false} BBlocksCard(owner: seq<Owner>, news: set<nat>)
      requires forall b :: b in news ==> b < |owner| && owner[b] == Free
      ensures |BBlocks(news)| <= |news|
      ensures Scattered(owner) ==> |BBlocks(news)| == |news|
    {
      if news != {} {
        var b :| b in news;
        BBlocksCard(owner, news - {b});
        assert BBlocks(news) == BBlocks(news - {b}) + {BBlock(b)};
      } else {
        assert BBlocks(news) == {};
      }
    }

    lemma TrackBlock(owner0: seq<Owner>, owner1: seq<Owner>, owner: seq<Owner>, ds: set<nat>, news: set<nat>, i: nat,
                     first: nat, t: nat, n0: nat, n: nat, a: nat, ip: Dinode, bn: nat)
      requires |ip.addrs| == NDIRECT + 1 && bn == first + t < MAXFILE && n0 <= n && bn <= n
      requires Tracked(owner0, owner1, ds, news, i, first, t, n0, n) && KeepsOwners(owner1, owner)
      requires a < |owner| && owner[a] == Slot(i, SlotOf(bn))
      requires bn == n ==> TookFree(owner1, owner, ip, i, a, bn)
      ensures Tracked(owner0, owner, ds + {a}, news + NewBlocks(a, ip, bn, n), i, first, t + 1,
                      n0, if bn < n then n else n + 1)
    {
      hide KeepsOwners, DataTracked, NewTracked, HoldsBelow;
      var more := NewBlocks(a, ip, bn, n);
      assert |owner1| == |owner| by { KeepsLength(owner1, owner); }
      assert |more| == Need(bn, n);
      DataStep(owner1, owner, ds, i, bn, a);
      NewStep(owner0, owner1, owner, news, more);
      assert |news + more| == |news| + |more|;
    }

    /** No two free blocks have their bits in the same bitmap block. */
    ghost predicate Scattered(owner: seq<Owner>) {
      forall b: nat, c: nat {:trigger owner[b], owner[c]} ::
        b < c < |owner| && owner[b] == Free && owner[c] == Free ==> BBlock(b) != BBlock(c)
    }

    /** The inode blocks come before the bitmap blocks, and both before the data blocks. */
    ghost predicate LaidOut() {
      && (forall i: nat :: i < sb.ninodes ==> IBlock(i) < sb.bmapstart)
      && (forall b: nat :: b < sb.size ==> BBlock(b) < sb.datastart)
      && sb.bmapstart <= sb.datastart
    }

    /** The most distinct blocks that one write logs: data, bitmap, indirect and inode blocks. */
    static function WriteCost(size: nat, off: nat, len: nat): nat {
      var n0, n := Blocks(size), Max(Blocks(size), Blocks(off + len));
      Touched(off, len) + Growth(n0, n) + (if NDIRECT < n && n0 < n then 1 else 0) +
      (if off + len > size then 1 else 0)
    }

    lemma AccountTotal(owner0: seq<Owner>, owner: seq<Owner>, log: set<nat>, ds: set<nat>, news: set<nat>, ip: Dinode,
                       i: nat, size: nat, off: nat, len: nat)
      requires |ip.addrs| == NDIRECT + 1 && |owner| == sb.size && i < sb.ninodes && sb.datastart <= sb.size
      requires forall b :: 0 <= b < sb.size ==> (owner[b] == Meta <==> b < sb.datastart)
      requires ip.addrs[NDIRECT] != 0 ==> ip.addrs[NDIRECT] < |owner| && owner[ip.addrs[NDIRECT]] == Slot(i, NDIRECT)
      requires Max(Blocks(size), Blocks(off + len)) > NDIRECT ==> ip.addrs[NDIRECT] != 0
      requires Accounted({}, log, ds, news, ip, Blocks(size), Max(Blocks(size), Blocks(off + len)))
      requires Tracked(owner0, owner, ds, news, i, off / BSIZE, Touched(off, len), Blocks(size),
                       Max(Blocks(size), Blocks(off + len)))
      ensures |log + Inode(i, size, off, len)| <= WriteCost(size, off, len)
      ensures LaidOut() && Scattered(owner0) ==> |log + Inode(i, size, off, len)| == WriteCost(size, off, len)
      ensures LaidOut() ==> AtHome(log + Inode(i, size, off, len))
    {
      hide Blocks, Touched, Scattered, LaidOut, BBlocks, DataTracked, HoldsBelow, KeepsOwners, AtHome;
      var n0, n := Blocks(size), Max(Blocks(size), Blocks(off + len));
      var bs, x, y := BBlocks(news), Indirect(ip, n0, n), Inode(i, size, off, len);
      assert log == ds + bs + x;
      BBlocksCard(owner0, news);
      CardUnions(ds, bs, x, y);
      if LaidOut() { Homes(owner, log, ds, news, ip, i, size, off, len, n0, n, off / BSIZE + Touched(off, len)); }
      if LaidOut() && Scattered(owner0) {
        BitmapApart(owner, ds, news, i, off / BSIZE + Touched(off, len), ip.addrs[NDIRECT]);
      }
    }

    /** The blocks are inode, bitmap or data blocks, which all come after the log. */
    ghost predicate AtHome(bs: set<nat>) {
      forall b :: b in bs ==> sb.inodestart <= b < sb.size
    }

    lemma Homes(owner: seq<Owner>, log: set<nat>, ds: set<nat>, news: set<nat>, ip: Dinode, i: nat, size: nat, off: nat,
                len: nat, n0: nat, n: nat, bn: nat)
      requires LaidOut() && |ip.addrs| == NDIRECT + 1 && |owner| == sb.size && i < sb.ninodes && sb.datastart <= sb.size
      requires forall b :: 0 <= b < sb.size ==> (owner[b] == Meta <==> b < sb.datastart)
      requires ip.addrs[NDIRECT] != 0 ==> ip.addrs[NDIRECT] < |owner| && owner[ip.addrs[NDIRECT]] == Slot(i, NDIRECT)
      requires n > NDIRECT ==> ip.addrs[NDIRECT] != 0
      requires DataTracked(owner, ds, i, bn) && (forall x :: x in news ==> x < sb.size)
      requires log == ds + BBlocks(news) + Indirect(ip, n0, n)
      ensures AtHome(log + Inode(i, size, off, len))
    {
      assert sb.inodestart <= IBlock(i) < sb.bmapstart;
    }

    lemma HomeNone()
      ensures AtHome({})
    {
    }

    /** Data blocks, bitmap blocks, the indirect block and the inode block are all different. */
    lemma BitmapApart(owner: seq<Owner>, ds: set<nat>, news: set<nat>, i: nat, bn: nat, p: nat)
      requires LaidOut() && |owner| == sb.size && i < sb.ninodes
      requires forall b :: 0 <= b < sb.size ==> (owner[b] == Meta <==> b < sb.datastart)
      requires DataTracked(owner, ds, i, bn) && (forall b :: b in news ==> b < sb.size)
      ensures ds !! BBlocks(news) && IBlock(i) !in ds && IBlock(i) !in BBlocks(news)
      ensures p != 0 && p < |owner| && owner[p] == Slot(i, NDIRECT) ==>
              p !in ds && p !in BBlocks(news) && p != IBlock(i)
    {
    }

    /** The log has grown by n blocks of inode i, and by nothing else. */
    ghost predicate LoggedData(base: set<nat>, log: set<nat>, owner: seq<Owner>, i: nat, n: nat) {
      exists ds: set<nat> :: |ds| == n && ds <= OwnedBy(owner, i) && log == base + ds
    }

    /** A write within the file logs only the blocks that it changes. */
    lemma InPlaceLogged(owner0: seq<Owner>, owner: seq<Owner>, base: set<nat>, log: set<nat>, ds: set<nat>,
                        news: set<nat>, ip: Dinode, i: nat, size: nat, off: nat, len: nat)
      requires |ip.addrs| == NDIRECT + 1 && off + len <= size
      requires Accounted(base, log, ds, news, ip, Blocks(size), Max(Blocks(size), Blocks(off + len)))
      requires Tracked(owner0, owner, ds, news, i, off / BSIZE, Touched(off, len), Blocks(size),
                       Max(Blocks(size), Blocks(off + len)))
      ensures Max(Blocks(size), Blocks(off + len)) == Blocks(size)
      ensures LoggedData(base, log, owner, i, Touched(off, len))
    {
      hide Touched, KeepsOwners, NewTracked;
      assert Growth(Blocks(size), Blocks(size)) == 0;
      assert news == {} && BBlocks(news) == {};
      assert ds <= OwnedBy(owner, i);
    }

    ghost function Inode(i: nat, size: nat, off: nat, len: nat): set<nat> {
      if off + len > size then {IBlock(i)} else {}
    }

    /** writei: the file is spliced, no other file changes, and the write logs exactly WriteCost blocks if no two
        free blocks share a bitmap block. It panics (not ok) exactly when there are fewer free blocks than the file
        grows by. */
    method Writei(i: nat, off: nat, src: seq<Byte>) returns (ok: bool, r: int)
      requires Valid() && i < |mem| && off < WORD && |src| < WORD
      modifies this`bitmap, this`data, this`mem, this`disk, this`owner, this`logged
      ensures ok ==> Valid() && |mem| == |old(mem)|
      ensures ok ==> r == (if off > old(mem)[i].size || off + |src| > MAXFILE * BSIZE then -1 else |src|)
      ensures ok && r == -1 ==> data == old(data) && mem == old(mem) && bitmap == old(bitmap) && logged == old(logged)
      ensures ok && r != -1 ==> File(data, mem[i]) == Splice(File(old(data), old(mem)[i]), off, src)
      ensures ok ==> forall j :: 0 <= j < |mem| && j != i ==>
                mem[j] == old(mem)[j] && File(data, mem[j]) == File(old(data), mem[j])
      ensures ok && old(logged) == {} && r != -1 ==> |logged| <= WriteCost(old(mem)[i].size, off, |src|)
      ensures ok && old(logged) == {} && r != -1 && LaidOut() && Scattered(old(owner)) ==>
                |logged| == WriteCost(old(mem)[i].size, off, |src|)
      ensures ok && old(logged) == {} && LaidOut() ==> AtHome(logged)
      ensures ok && r != -1 && off + |src| <= old(mem)[i].size ==>
                && mem == old(mem) && owner == old(owner) && bitmap == old(bitmap)
                && LoggedData(old(logged), logged, owner, i, Touched(off, |src|))
      ensures ok <==> r == -1 || Growth(Blocks(old(mem)[i].size), Max(Blocks(old(mem)[i].size), Blocks(off + |src|)))
                                   <= |FreeBlocks(old(owner))|
    {
      hide OwnsSlots, Addr, Wrote, Accounted, Tracked, Splice, File, Dense, Touched, WriteCost, Blocks,
           FreeBlocks, Growth, Scattered, LaidOut, AtHome, IBlock, GetWord, ByteAt, SlotOf;
      var size := mem[i].size;
      HomeNone();
      if off > size || (off + |src|) % WORD < off {
        return true, -1;
      }
      if (off + |src|) % WORD > MAXFILE * BSIZE {
        return true, -1;
      }
      ghost var ds, news;
      ok, ds, news := WriteBytes(i, off, src);
      r := |src|;
      if ok {
        BlocksMax(size, off + |src|);
        if old(logged) == {} {
          IndirectOwner(data, mem, owner, i, Max(Blocks(size), Blocks(off + |src|)));
          AccountTotal(old(owner), owner, logged, ds, news, mem[i], i, size, off, |src|);
        }
        WroteOthers(old(data), old(mem), old(owner), data, mem[i], owner, i, off, src, Blocks(size));
        WroteIsSplice(old(data), old(mem)[i], old(owner), data, mem[i], owner, i, off, src);
        if off + |src| <= size {
          InPlaceLogged(old(owner), owner, old(logged), logged, ds, news, mem[i], i, size, off, |src|);
        }
        if |src| > 0 && off + |src| > size { SetSize(i, off + |src|); }
      }
    }

    /** The end of writei, when the file has grown: the inode gets its new size, in memory and on disk. */
    method SetSize(i: nat, size: nat)
      requires Allocated(i, Blocks(size)) && size <= MAXFILE * BSIZE && |disk| == |mem| && disk[i := mem[i]] == mem
      requires forall j :: 0 <= j < |mem| && j != i ==> NoHoles(data, mem[j])
      modifies this`mem, this`disk, this`logged
      ensures Valid() && mem == old(mem)[i := old(mem)[i].(size := size)] && logged == old(logged) + {IBlock(i)}
    {
      hide OwnsSlots, Addr, Dense, Blocks, GetWord;
      DenseSize(data, mem[i], Blocks(size), size);
      OwnsSize(data, mem, owner, i, mem[i].(size := size));
      mem := mem[i := mem[i].(size := size)];
      Iupdate(i);
    }

    /** writei's loop. */
    method WriteBytes(i: nat, off: nat, src: seq<Byte>) returns (ok: bool, ghost ds: set<nat>, ghost news: set<nat>)
      requires Valid() && i < |mem| && off <= mem[i].size && off + |src| <= MAXFILE * BSIZE
      modifies this`bitmap, this`data, this`mem, this`owner, this`logged
      ensures ok ==> Allocated(i, Max(Blocks(old(mem)[i].size), Blocks(off + |src|)))
      ensures ok ==> mem == old(mem)[i := mem[i]] && mem[i] == old(mem)[i].(addrs := mem[i].addrs)
      ensures ok ==>
              Wrote(old(data), old(mem)[i], old(owner), data, mem[i], owner, i, off, src, Blocks(old(mem)[i].size))
      ensures ok && Max(Blocks(old(mem)[i].size), Blocks(off + |src|)) == Blocks(old(mem)[i].size) ==>
                mem == old(mem) && owner == old(owner) && bitmap == old(bitmap)
      ensures ok <==> Growth(Blocks(old(mem)[i].size), Max(Blocks(old(mem)[i].size), Blocks(off + |src|)))
                        <= |FreeBlocks(old(owner))|
      ensures ok ==> Tracked(old(owner), owner, ds, news, i, off / BSIZE, Touched(off, |src|), Blocks(old(mem)[i].size),
                             Max(Blocks(old(mem)[i].size), Blocks(off + |src|)))
      ensures ok ==> Accounted(old(logged), logged, ds, news, mem[i], Blocks(old(mem)[i].size),
                               Max(Blocks(old(mem)[i].size), Blocks(off + |src|)))
    {
      hide OwnsSlots, GetWord, Dense, Wrote, Accounted, Tracked, BlockLogged, NewBlocks, TookFree, Blocks,
           Touched, Max, Min, FreeBlocks, Growth, Need;
      ghost var size := mem[i].size;
      ghost var n0 := Blocks(size);
      ghost var n := n0;
      ds, news := {}, {};
      var tot := 0;
      WroteNothing(data, mem[i], owner, i, off, n0);
      AccountStart(off, logged, mem[i]);
      TrackStart(owner, i, off / BSIZE, n0);
      while tot < |src|
        invariant 0 <= tot <= |src|
        invariant n == Max(n0, Blocks(off + tot))
        invariant Allocated(i, n) && mem == old(mem)[i := mem[i]] && mem[i] == old(mem)[i].(addrs := mem[i].addrs)
        invariant Wrote(old(data), old(mem)[i], old(owner), data, mem[i], owner, i, off, src[..tot], n0)
        invariant tot == 0 || tot == |src| || (off + tot) % BSIZE == 0
        invariant n == n0 ==> mem == old(mem) && owner == old(owner) && bitmap == old(bitmap)
        invariant Accounted(old(logged), logged, ds, news, mem[i], n0, n)
        invariant Tracked(old(owner), owner, ds, news, i, off / BSIZE, Touched(off, tot), n0, n)
        invariant |FreeBlocks(owner)| == |FreeBlocks(old(owner))| - Growth(n0, n)
      {
        var pos := off + tot;
        var m := Min(|src| - tot, BSIZE - pos % BSIZE);
        var next := tot + m;
        TurnArith(off, tot, |src|, size);
        ghost var n1 := if pos / BSIZE < n then n else n + 1;
        assert n1 == Max(n0, Blocks(off + next)) && Touched(off, next) == Touched(off, tot) + 1;
        assert next == |src| || (off + next) % BSIZE == 0;
        assert pos / BSIZE == off / BSIZE + Touched(off, tot);
        GrowthStep(n0, n, pos / BSIZE, Max(n0, Blocks(off + |src|)));
        ghost var d1, ip1, o1, l1 := data, mem[i], owner, logged;
        ghost var a;
        ok, a := WriteBlock(i, pos, src[tot..next], n);
        if !ok {
          return;
        }
        WroteAppend(old(data), old(mem)[i], old(owner), d1, ip1, o1, data, mem[i], owner,
                    i, off, src[..tot], src[tot..next], n0, n);
        assert src[..tot] + src[tot..next] == src[..next];
        AccountBlock(old(logged), l1, ds, news, ip1, n0, n, logged, a, mem[i], pos / BSIZE);
        WroteKeeps(d1, ip1, o1, data, mem[i], owner, i, pos, src[tot..next], n);
        TrackBlock(old(owner), o1, owner, ds, news, i, off / BSIZE, Touched(off, tot), n0, n, a, mem[i], pos / BSIZE);
        ds, news := ds + {a}, news + NewBlocks(a, mem[i], pos / BSIZE, n);
        n, tot := n1, next;
      }
      assert src[..|src|] == src;
      ok := true;
    }

    /** filewrite: the bytes go in chunks, each in a transaction of its own, until one is refused. What each transaction
        logs is appended to `txs`. When w bytes have been written the file is spliced with exactly those, and the result
        is the whole length or -1. */
    method FileWrite(i: nat, off: nat, src: seq<Byte>) returns (ok: bool, r: int, w: nat, ghost txs: seq<set<nat>>)
      requires Valid() && i < |mem| && off < WORD && |src| < WORD
      modifies this`bitmap, this`data, this`mem, this`disk, this`owner, this`logged
      ensures ok ==> Valid() && |mem| == |old(mem)| && w <= |src|
      ensures ok ==> r == (if w == |src| then |src| else -1)
      ensures ok && off <= old(mem)[i].size ==>
              File(data, mem[i]) == Splice(File(old(data), old(mem)[i]), off, src[..w])
      ensures ok && off > old(mem)[i].size ==> w == 0
      ensures ok && off <= old(mem)[i].size && w < |src| ==>
                w % CHUNK == 0 && off + w + Min(CHUNK, |src| - w) > MAXFILE * BSIZE
      ensures ok && off <= old(mem)[i].size && off + |src| <= MAXFILE * BSIZE ==> w == |src|
      ensures ok ==> OtherFilesSame(old(mem), old(data), mem, data, i)
      ensures ok ==> forall t :: 0 <= t < |txs| ==> Bounded(txs[t])
    {
      hide OwnsSlots, Dense, Splice, File, OtherFilesSame, Scattered, LaidOut, Growth, FreeBlocks, Blocks, WriteCost,
           Bounded;
      w, txs := 0, [];
      ghost var f0 := File(data, mem[i]);
      if off <= |f0| { SpliceNothing(f0, off); }
      OtherFilesRefl(mem, data, i);
      while w < |src|
        invariant Valid() && |mem| == |old(mem)| && w <= |src|
        invariant off <= |f0| ==> File(data, mem[i]) == Splice(f0, off, src[..w])
        invariant off > |f0| ==> w == 0 && mem[i].size == |f0|
        invariant w == |src| || w % CHUNK == 0
        invariant w == 0 || off + w <= MAXFILE * BSIZE
        invariant OtherFilesSame(old(mem), old(data), mem, data, i)
        invariant forall t :: 0 <= t < |txs| ==> Bounded(txs[t])
      {
        var n1 := Min(|src| - w, CHUNK);
        var piece := src[w..w + n1];
        if off <= |f0| { SplicePiece(f0, off, src, w, n1); }
        ghost var tx, m1, d1 := {}, mem, data;
        ok, r, tx := WriteTransaction(i, off + w, piece);
        if !ok {
          return;
        }
        OtherFilesTrans(old(mem), old(data), m1, d1, mem, data, i);
        if r < 0 {
          return true, -1, w, txs;
        }
        txs := txs + [tx];
        w := w + n1;
      }
      return true, |src|, w, txs;
    }

    /** What a transaction may log. */
    ghost predicate Bounded(tx: set<nat>) {
      |tx| <= MAXOPBLOCKS && (LaidOut() ==> AtHome(tx))
    }

    /** begin_op, writei, end_op: a chunk never logs more than MAXOPBLOCKS blocks, and logs exactly WriteCost if no two
        free blocks share a bitmap block. It panics exactly when there are too few free blocks. */
    method WriteTransaction(i: nat, off: nat, piece: seq<Byte>) returns (ok: bool, r: int, ghost tx: set<nat>)
      requires Valid() && i < |mem| && off < WORD && |piece| <= CHUNK
      modifies this`bitmap, this`data, this`mem, this`disk, this`owner, this`logged
      ensures ok ==> Valid() && |mem| == |old(mem)|
      ensures ok ==> r == (if off > old(mem)[i].size || off + |piece| > MAXFILE * BSIZE then -1 else |piece|)
      ensures ok && r == -1 ==> data == old(data) && mem == old(mem)
      ensures ok && r != -1 ==> File(data, mem[i]) == Splice(File(old(data), old(mem)[i]), off, piece)
      ensures ok ==> OtherFilesSame(old(mem), old(data), mem, data, i)
      ensures ok ==> tx == logged && Bounded(tx)
      ensures ok && r != -1 && LaidOut() && Scattered(old(owner)) ==> |tx| == WriteCost(old(mem)[i].size, off, |piece|)
      ensures ok <==> r == -1 || Growth(Blocks(old(mem)[i].size), Max(Blocks(old(mem)[i].size), Blocks(off + |piece|)))
                                   <= |FreeBlocks(old(owner))|
    {
      hide OwnsSlots, Dense, Splice, File, WriteCost, Scattered, LaidOut, Growth, FreeBlocks, Blocks, Max;
      logged := {};
      ok, r := Writei(i, off, piece);
      tx := logged;
      if ok && r != -1 { TransactionBound(old(mem)[i].size, off, |piece|); }
    }

    /** Reads the bytes there are from off on, at most n of them, and changes nothing. */
    method Readi(i: nat, off: nat, n: nat) returns (ok: bool, r: int, dst: seq<Byte>)
      requires Valid() && i < |mem| && off < WORD && n < WORD
      modifies this`bitmap, this`data, this`mem, this`owner, this`logged
      ensures ok && bitmap == old(bitmap) && data == old(data) && mem == old(mem) && owner == old(owner)
              && logged == old(logged)
      ensures r == -1 <==> off > mem[i].size || off + n >= WORD
      ensures r != -1 ==> r == |dst| == Min(n, mem[i].size - off) && dst == File(data, mem[i])[off..off + r]
    {
      hide OwnsSlots, Addr, File, Extends, Dense, FreeBlocks, TookFree, GetWord;
      dst := [];
      var size := mem[i].size;
      if off > size || (off + n) % WORD < off {
        return true, -1, dst;
      }
      var len := if off + n > size then size - off else n;
      var tot := 0;
      while tot < len
        invariant 0 <= tot <= len && |dst| == tot
        invariant bitmap == old(bitmap) && data == old(data) && mem == old(mem) && owner == old(owner)
                  && logged == old(logged)
        invariant dst == File(data, mem[i])[off..off + tot]
      {
        var pos := off + tot;
        BelowBlocks(pos, size);
        var a;
        ok, a := Bmap(i, pos / BSIZE, Blocks(size));
        var m := Min(len - tot, BSIZE - pos % BSIZE);
        BlockSlice(data, mem[i], pos, m);
        dst := dst + data[a][pos % BSIZE..pos % BSIZE + m];
        SliceJoin(File(data, mem[i]), off, pos, pos + m);
        tot := tot + m;
      }
      return true, len, dst;
    }

    /** Frees exactly the blocks the inode owned, without ever freeing a free one. It logs their bitmap blocks and the
        inode block, so at most one more than there are bitmap blocks for data. */
    method Itrunc(i: nat)
      requires Valid() && i < |mem|
      modifies this`bitmap, this`mem, this`disk, this`owner, this`logged
      ensures Valid()
      ensures mem == old(mem)[i := Emptied(old(mem)[i])] && File(data, mem[i]) == []
      ensures forall b: nat :: b < sb.size ==>
                (bitmap[b] <==> old(bitmap)[b] && !(old(owner)[b].Slot? && old(owner)[b].inum == i))
      ensures logged == old(logged) + BBlocks(OwnedBy(old(owner), i)) + {IBlock(i)}
      ensures |BBlocks(OwnedBy(old(owner), i)) + {IBlock(i)}| <= sb.DataBitmaps() + 1
    {
      hide OwnsSlots, GetWord, Dense, Freed, Blocks, BBlocks, FreeBlocks, OwnedBy;
      SlotInUse(sb, bitmap, data, mem, owner, i, NDIRECT);
      FreeDirect(i);
      ghost var o1 := owner;
      FreeIndirect(i, old(mem), old(owner));
      LogTwice(old(owner), o1, owner, i);
      SlotsBounded(data, old(mem), old(owner));
      OwnedIsFreed(old(owner), owner, i);
      TruncCost(old(owner), i);
      mem := mem[i := mem[i].(size := 0)];
      assert mem[i].addrs == seq(NDIRECT + 1, _ => 0);
      Iupdate(i);
      TruncOwns(data, old(mem), old(owner), owner, i);
      assert disk == mem;
      assert forall b :: 0 <= b < sb.size ==> (owner[b] == Meta <==> b < sb.datastart);
    }

    /** itrunc's first loop. */
    method FreeDirect(i: nat)
      requires Owned(sb, bitmap, data, mem, owner) && i < |mem|
      modifies this`bitmap, this`mem, this`owner, this`logged
      ensures Freed(old(owner), owner, i, 0, NDIRECT) && Tracks(bitmap, owner)
      ensures |mem| == |old(mem)| && |mem[i].addrs| == NDIRECT + 1
      ensures mem == old(mem)[i := old(mem)[i].(addrs := mem[i].addrs)]
      ensures forall l :: 0 <= l < NDIRECT ==> mem[i].addrs[l] == 0
      ensures mem[i].addrs[NDIRECT] == old(mem)[i].addrs[NDIRECT]
      ensures logged == old(logged) + BBlocks(FreeBlocks(owner) - FreeBlocks(old(owner)))
    {
      hide OwnsSlots, GetWord, Holds, BBlocks, FreeBlocks;
      LogNone(owner);
      var k := 0;
      while k < NDIRECT
        invariant 0 <= k <= NDIRECT
        invariant Freed(old(owner), owner, i, 0, k) && Tracks(bitmap, owner)
        invariant |mem| == |old(mem)| && |mem[i].addrs| == NDIRECT + 1
        invariant mem == old(mem)[i := old(mem)[i].(addrs := mem[i].addrs)]
        invariant forall l :: 0 <= l < k ==> mem[i].addrs[l] == 0
        invariant forall l :: k <= l <= NDIRECT ==> mem[i].addrs[l] == old(mem)[i].addrs[l]
        invariant logged == old(logged) + BBlocks(FreeBlocks(owner) - FreeBlocks(old(owner)))
      {
        var a := mem[i].addrs[k];
        SlotHolds(data, old(mem), old(owner), i, k);
        FreedNext(old(owner), owner, i, 0, k, a);
        if a != 0 {
          LogFree(old(owner), owner, i, 0, k, a);
          var ok := Bfree(a);
          assert ok;  // never "freeing free block"
          owner := owner[a := Free];
          mem := mem[i := mem[i].(addrs := mem[i].addrs[k := 0])];
        }
        k := k + 1;
      }
    }

    /** itrunc's second half: the entries of the indirect block, and then the block itself. */
    method FreeIndirect(i: nat, ghost m0: seq<Dinode>, ghost o0: seq<Owner>)
      requires i < |mem| == |m0| && |data| == |o0| == sb.size && |mem[i].addrs| == NDIRECT + 1
      requires forall i :: 0 <= i < |m0| ==> |m0[i].addrs| == NDIRECT + 1
      requires OwnsSlots(data, m0, o0) && Freed(o0, owner, i, 0, NDIRECT) && Tracks(bitmap, owner)
      requires mem[i].addrs[NDIRECT] == m0[i].addrs[NDIRECT] < sb.size
      modifies this`bitmap, this`mem, this`owner, this`logged
      ensures Freed(o0, owner, i, 0, SLOTS) && Tracks(bitmap, owner)
      ensures mem == old(mem)[i := old(mem)[i].(addrs := old(mem)[i].addrs[NDIRECT := 0])]
      ensures logged == old(logged) + BBlocks(FreeBlocks(owner) - FreeBlocks(old(owner)))
      ensures FreeBlocks(old(owner)) <= FreeBlocks(owner)
    {
      hide OwnsSlots, Holds, BBlocks, FreeBlocks;
      ghost var o1 := owner;
      LogNone(owner);
      var p := mem[i].addrs[NDIRECT];
      SlotHolds(data, m0, o0, i, NDIRECT);
      HoldsFreed(o0, o1, i, 0, NDIRECT, NDIRECT, p);
      if p != 0 {
        FreeEntries(i, p, m0, o0);
        ghost var o2 := owner;
        HoldsFreed(o1, o2, i, NDIRECT + 1, SLOTS, NDIRECT, p);
        FreedNext(o2, o2, i, NDIRECT, NDIRECT, p);
        LogFree(o1, o2, i, NDIRECT + 1, SLOTS, p);
        var ok := Bfree(p);
        assert ok;
        owner := owner[p := Free];
        mem := mem[i := mem[i].(addrs := mem[i].addrs[NDIRECT := 0])];
        FreedAll(o0, o1, o2, owner, i);
        FreedMore(o1, o2, i, NDIRECT + 1, SLOTS);
        FreedMore(o2, owner, i, NDIRECT, NDIRECT + 1);
      } else {
        NoIndirect(data, m0, o0, o1, i);
        assert mem[i].addrs[NDIRECT := 0] == mem[i].addrs;
      }
    }

    method FreeEntries(i: nat, p: nat, ghost m0: seq<Dinode>, ghost o0: seq<Owner>)
      requires i < |m0| && 0 < p < |data| == |o0| == sb.size
      requires forall i :: 0 <= i < |m0| ==> |m0[i].addrs| == NDIRECT + 1
      requires OwnsSlots(data, m0, o0) && Freed(o0, owner, i, 0, NDIRECT) && Tracks(bitmap, owner)
      requires p == m0[i].addrs[NDIRECT]
      modifies this`bitmap, this`owner, this`logged
      ensures Freed(old(owner), owner, i, NDIRECT + 1, SLOTS) && Tracks(bitmap, owner)
      ensures logged == old(logged) + BBlocks(FreeBlocks(owner) - FreeBlocks(old(owner)))
    {
      hide OwnsSlots, Holds, GetWord, BBlocks, FreeBlocks;
      LogNone(owner);
      var j := 0;
      while j < NINDIRECT
        invariant 0 <= j <= NINDIRECT
        invariant Freed(old(owner), owner, i, NDIRECT + 1, NDIRECT + 1 + j) && Tracks(bitmap, owner)
        invariant logged == old(logged) + BBlocks(FreeBlocks(owner) - FreeBlocks(old(owner)))
      {
        var a := GetWord(data[p], j);
        SlotHolds(data, m0, o0, i, NDIRECT + 1 + j);
        HoldsFreed(o0, old(owner), i, 0, NDIRECT, NDIRECT + 1 + j, a);
        FreedNext(old(owner), owner, i, NDIRECT + 1, NDIRECT + 1 + j, a);
        if a != 0 {
          LogFree(old(owner), owner, i, NDIRECT + 1, NDIRECT + 1 + j, a);
          var ok := Bfree(a);
          assert ok;
          owner := owner[a := Free];
        }
        j := j + 1;
      }
    }

    // ----------------------------------------------- counting a truncation

    lemma LogNone(owner: seq<Owner>)
      ensures BBlocks(FreeBlocks(owner) - FreeBlocks(owner)) == {}
    {
    }

    /** One more block freed, one more bitmap block logged. */
    lemma LogFree(o0: seq<Owner>, o1: seq<Owner>, i: nat, lo: nat, hi: nat, a: nat)
      requires Freed(o0, o1, i, lo, hi) && a < |o1| && o1[a] != Free
      ensures BBlocks(FreeBlocks(o1[a := Free]) - FreeBlocks(o0)) == BBlocks(FreeBlocks(o1) - FreeBlocks(o0)) +
              {BBlock(a)}
    {
      assert FreeBlocks(o1[a := Free]) - FreeBlocks(o0) == (FreeBlocks(o1) - FreeBlocks(o0)) + {a};
    }

    lemma LogTwice(o0: seq<Owner>, o1: seq<Owner>, o2: seq<Owner>, i: nat)
      requires Freed(o0, o1, i, 0, NDIRECT) && FreeBlocks(o1) <= FreeBlocks(o2)
      ensures BBlocks(FreeBlocks(o1) - FreeBlocks(o0)) + BBlocks(FreeBlocks(o2) - FreeBlocks(o1)) ==
              BBlocks(FreeBlocks(o2) - FreeBlocks(o0))
    {
      hide FreeBlocks;
      FreedMore(o0, o1, i, 0, NDIRECT);
      assert FreeBlocks(o2) - FreeBlocks(o0) == (FreeBlocks(o1) - FreeBlocks(o0)) + (FreeBlocks(o2) - FreeBlocks(o1));
    }

    /** The bitmap block of a data block is among the ones that have bits for data blocks. */
    lemma DataBitmap(b: nat)
      requires sb.datastart <= b < sb.size
      ensures sb.datastart / BPB + sb.bmapstart <= BBlock(b) < sb.datastart / BPB + sb.bmapstart + sb.DataBitmaps()
    {
      assert sb.datastart / BPB <= b / BPB <= (sb.size - 1) / BPB;
    }

    lemma TruncCost(owner: seq<Owner>, i: nat)
      requires |owner| == sb.size && forall b :: 0 <= b < sb.size ==> (owner[b] == Meta <==> b < sb.datastart)
      ensures |BBlocks(OwnedBy(owner, i))| <= sb.DataBitmaps()
      ensures |BBlocks(OwnedBy(owner, i)) + {IBlock(i)}| <= sb.DataBitmaps() + 1
    {
      hide sb.DataBitmaps, Run, BBlock;
      var all := Run(sb.datastart / BPB + sb.bmapstart, sb.DataBitmaps());
      forall b | b in OwnedBy(owner, i)
        ensures BBlock(b) in all
      {
        DataBitmap(b);
      }
      CardSubset(BBlocks(OwnedBy(owner, i)), all);
      CardUnion(BBlocks(OwnedBy(owner, i)), {IBlock(i)});
    }
  }

  /** The n numbers from lo on. */
  ghost function Run(lo: nat, n: nat): (s: set<nat>)
    ensures |s| == n && forall x :: x in s <==> lo <= x < lo + n
  {
    if n == 0 then {} else Run(lo, n - 1) + {lo + n - 1}
  }

  ghost function OwnedBy(owner: seq<Owner>, i: nat): set<nat> {
    set b: nat | b < |owner| && owner[b].Slot? && owner[b].inum == i
  }

  lemma FreedMore(o0: seq<Owner>, o1: seq<Owner>, i: nat, lo: nat, hi: nat)
    requires Freed(o0, o1, i, lo, hi)
    ensures FreeBlocks(o0) <= FreeBlocks(o1)
  {
  }

  lemma SlotsBounded(data: seq<Block>, inodes: seq<Dinode>, owner: seq<Owner>)
    requires |data| == |owner|
    requires forall i :: 0 <= i < |inodes| ==> |inodes[i].addrs| == NDIRECT + 1
    requires OwnsSlots(data, inodes, owner)
    ensures forall b :: 0 <= b < |owner| && owner[b].Slot? ==> owner[b].k < SLOTS
  {
    forall b: nat | b < |owner| && owner[b].Slot?
      ensures owner[b].k < SLOTS
    {
      assert OwnerHolds(data, inodes, owner, b);
    }
  }

  lemma OwnedIsFreed(o0: seq<Owner>, o1: seq<Owner>, i: nat)
    requires Freed(o0, o1, i, 0, SLOTS) && forall b :: 0 <= b < |o0| && o0[b].Slot? ==> o0[b].k < SLOTS
    ensures FreeBlocks(o1) - FreeBlocks(o0) == OwnedBy(o0, i)
  {
  }

  /** An inode without an indirect block has nothing to free beyond its direct slots. */
  lemma NoIndirect(data: seq<Block>, inodes: seq<Dinode>, owner: seq<Owner>, owner': seq<Owner>, i: nat)
    requires |data| == |owner| && i < |inodes|
    requires forall i :: 0 <= i < |inodes| ==> |inodes[i].addrs| == NDIRECT + 1
    requires OwnsSlots(data, inodes, owner) && Freed(owner, owner', i, 0, NDIRECT) && inodes[i].addrs[NDIRECT] == 0
    ensures Freed(owner, owner', i, 0, SLOTS)
  {
    forall b: nat | b < |owner| && owner[b].Slot? && owner[b].inum == i
      ensures owner[b].k < NDIRECT
    {
      assert OwnerHolds(data, inodes, owner, b);
    }
  }

  /** No inode but i has changed, in itself or in the contents of its file. */
  ghost predicate OtherFilesSame(m: seq<Dinode>, d: seq<Block>, m': seq<Dinode>, d': seq<Block>, i: nat) {
    && |m'| == |m|
    && forall j :: 0 <= j < |m| && j != i ==>
         && m'[j] == m[j]
         && (|m[j].addrs| == NDIRECT + 1 && m[j].size <= MAXFILE * BSIZE ==> File(d', m'[j]) == File(d, m[j]))
  }

  lemma OtherFilesRefl(m: seq<Dinode>, d: seq<Block>, i: nat)
    ensures OtherFilesSame(m, d, m, d, i)
  {
  }

  lemma OtherFilesTrans(m: seq<Dinode>, d: seq<Block>, m': seq<Dinode>, d': seq<Block>, m'': seq<Dinode>,
                        d'': seq<Block>,
                        i: nat)
    requires OtherFilesSame(m, d, m', d', i) && OtherFilesSame(m', d', m'', d'', i)
    ensures OtherFilesSame(m, d, m'', d'', i)
  {
    hide File;
  }

  // ------------------------------------------------------------ free blocks

  ghost function FreeBlocks(owner: seq<Owner>): set<nat> {
    set b: nat | b < |owner| && owner[b] == Free
  }

  lemma NoneFree(bitmap: seq<bool>, owner: seq<Owner>)
    requires |bitmap| == |owner| && forall b :: 0 <= b < |owner| ==> (bitmap[b] <==> owner[b] != Free)
    requires !exists x :: 0 <= x < |bitmap| && !bitmap[x]
    ensures FreeBlocks(owner) == {}
  {
  }

  lemma TakeFree(owner: seq<Owner>, b: nat, o: Owner)
    requires b < |owner| && owner[b] == Free && o != Free
    ensures |FreeBlocks(owner[b := o])| == |FreeBlocks(owner)| - 1
  {
    assert FreeBlocks(owner) == FreeBlocks(owner[b := o]) + {b};
  }

  /** The blocks that bmap allocates for file block bn of a file of n blocks. */
  function Need(bn: nat, n: nat): nat {
    if bn < n then 0 else if bn == NDIRECT then 2 else 1
  }

  /** The blocks that growing a file from n0 to n blocks allocates, the indirect block included. */
  function Growth(n0: nat, n: nat): int {
    n - n0 + if n0 <= NDIRECT < n then 1 else 0
  }

  lemma GrowthStep(n0: nat, n: nat, bn: nat, end: nat)
    requires n0 <= n && bn <= n && (if bn < n then n else n + 1) <= end
    ensures Growth(n0, if bn < n then n else n + 1) == Growth(n0, n) + Need(bn, n)
    ensures Growth(n0, if bn < n then n else n + 1) <= Growth(n0, end)
  {
  }

  /** Slot(i, .) of file block bn went to a block that was free, and so did the indirect pointer if bn needs it
      first. */
  ghost predicate TookFree(owner: seq<Owner>, owner': seq<Owner>, ip: Dinode, i: nat, a: nat, bn: nat)
    requires |ip.addrs| == NDIRECT + 1
  {
    && |owner'| == |owner| && a < |owner| && owner[a] == Free
    && (bn == NDIRECT ==>
          var p := ip.addrs[NDIRECT];
          p < |owner| && owner[p] == Free && owner'[p] == Slot(i, NDIRECT))
  }

  ghost predicate KeepsOwners(owner: seq<Owner>, owner': seq<Owner>) {
    |owner| == |owner'| && forall b: nat :: b < |owner| && owner[b] != Free ==> owner'[b] == owner[b]
  }

  lemma KeepsLength(owner: seq<Owner>, owner': seq<Owner>)
    requires KeepsOwners(owner, owner')
    ensures |owner| == |owner'|
  {
  }

  lemma WroteKeeps(data: seq<Block>, ip: Dinode, owner: seq<Owner>,
                   data': seq<Block>, ip': Dinode, owner': seq<Owner>, i: nat, pos: nat, s: seq<Byte>, n: nat)
    requires |ip.addrs| == NDIRECT + 1 && |ip'.addrs| == NDIRECT + 1
    requires Wrote(data, ip, owner, data', ip', owner', i, pos, s, n)
    ensures KeepsOwners(owner, owner')
  {
  }

  /** The t blocks ds hold the file blocks from `first` on, and `news` are the blocks taken from the free ones since
      the file had n0 blocks. */
  ghost predicate Tracked(owner0: seq<Owner>, owner: seq<Owner>, ds: set<nat>, news: set<nat>, i: nat,
                          first: nat, t: nat, n0: nat, n: nat)
  {
    && KeepsOwners(owner0, owner)
    && |ds| == t && DataTracked(owner, ds, i, first + t)
    && |news| == Growth(n0, n) && NewTracked(owner0, owner, news)
  }

  ghost predicate DataTracked(owner: seq<Owner>, ds: set<nat>, i: nat, bn: nat) {
    forall x :: x in ds ==> x < |owner| && HoldsBelow(owner[x], i, bn)
  }

  ghost predicate NewTracked(owner0: seq<Owner>, owner: seq<Owner>, news: set<nat>) {
    |owner0| == |owner| && forall x :: x in news ==> x < |owner| && owner0[x] == Free && owner[x] != Free
  }

  lemma DataStep(owner1: seq<Owner>, owner: seq<Owner>, ds: set<nat>, i: nat, bn: nat, a: nat)
    requires KeepsOwners(owner1, owner) && DataTracked(owner1, ds, i, bn) && bn < MAXFILE
    requires a < |owner| && owner[a] == Slot(i, SlotOf(bn))
    ensures a !in ds && DataTracked(owner, ds + {a}, i, bn + 1)
  {
  }

  lemma NewStep(owner0: seq<Owner>, owner1: seq<Owner>, owner: seq<Owner>, news: set<nat>, more: set<nat>)
    requires KeepsOwners(owner0, owner1) && KeepsOwners(owner1, owner) && NewTracked(owner0, owner1, news)
    requires forall x :: x in more ==> x < |owner| && owner1[x] == Free && owner[x] != Free
    ensures news !! more && NewTracked(owner0, owner, news + more) && KeepsOwners(owner0, owner)
  {
  }

  predicate HoldsBelow(o: Owner, i: nat, bn: nat) {
    o.Slot? && o.inum == i && o.k != NDIRECT && o.k < if bn <= NDIRECT then bn else bn + 1
  }

  lemma TrackStart(owner: seq<Owner>, i: nat, first: nat, n: nat)
    ensures Tracked(owner, owner, {}, {}, i, first, 0, n, n)
  {
  }

  lemma IndirectOwner(data: seq<Block>, inodes: seq<Dinode>, owner: seq<Owner>, i: nat, n: nat)
    requires |data| == |owner| && i < |inodes|
    requires forall i :: 0 <= i < |inodes| ==> |inodes[i].addrs| == NDIRECT + 1
    requires OwnsSlots(data, inodes, owner) && Dense(data, inodes[i], n)
    ensures var p := inodes[i].addrs[NDIRECT];
            (p != 0 ==> p < |owner| && owner[p] == Slot(i, NDIRECT)) && (n > NDIRECT <==> p != 0)
  {
    assert Addr(data, inodes[i], NDIRECT) == inodes[i].addrs[NDIRECT];
    assert SlotOwns(data, inodes[i], owner, i, NDIRECT);
  }

  /** The bitmap says exactly which blocks have an owner. */
  ghost predicate Tracks(bitmap: seq<bool>, owner: seq<Owner>) {
    |bitmap| == |owner| && forall b :: 0 <= b < |owner| ==> (bitmap[b] <==> owner[b] != Free)
  }

  /** Writing the next n bytes of src after the first w. */
  lemma SplicePiece(f: seq<Byte>, off: nat, src: seq<Byte>, w: nat, n: nat)
    requires off <= |f| && w + n <= |src|
    ensures |Splice(f, off, src[..w])| == Max(|f|, off + w)
    ensures Splice(Splice(f, off, src[..w]), off + w, src[w..w + n]) == Splice(f, off, src[..w + n])
  {
    hide Splice;
    SpliceLength(f, off, src[..w]);
    SpliceSplice(f, off, src[..w], src[w..w + n]);
    assert src[..w] + src[w..w + n] == src[..w + n];
  }

  lemma SliceJoin(f: seq<Byte>, a: nat, b: nat, c: nat)
    requires a <= b <= c <= |f|
    ensures f[a..c] == f[a..b] + f[b..c]
  {
  }

  /** Bytes within one block of a file are a slice of that block. */
  lemma BlockSlice(data: seq<Block>, ip: Dinode, pos: nat, m: nat)
    requires |ip.addrs| == NDIRECT + 1 && pos + m <= ip.size <= MAXFILE * BSIZE && pos % BSIZE + m <= BSIZE && 0 < m
    requires Addr(data, ip, SlotOf(pos / BSIZE)) < |data|
    ensures data[Addr(data, ip, SlotOf(pos / BSIZE))][pos % BSIZE..pos % BSIZE + m] == File(data, ip)[pos..pos + m]
  {
    var a := Addr(data, ip, SlotOf(pos / BSIZE));
    var u, v := data[a][pos % BSIZE..pos % BSIZE + m], File(data, ip)[pos..pos + m];
    forall x | 0 <= x < m
      ensures u[x] == v[x]
    {
      assert (pos + x) / BSIZE == pos / BSIZE && (pos + x) % BSIZE == pos % BSIZE + x;
      assert v[x] == ByteAt(data, ip, pos + x);
    }
  }

  /** One turn of writei's loop: the bytes it takes, and how the number of allocated blocks moves. */
  lemma TurnArith(off: nat, tot: nat, len: nat, size: nat)
    requires off <= size && tot < len && (tot == 0 || (off + tot) % BSIZE == 0)
    ensures var pos, n := off + tot, Max(Blocks(size), Blocks(off + tot));
            var m := Min(len - tot, BSIZE - pos % BSIZE);
            && 0 < m <= len - tot && pos % BSIZE + m <= BSIZE
            && pos / BSIZE <= n && Blocks(size) <= n && Blocks(pos) <= n
            && Max(Blocks(size), Blocks(off + (tot + m))) == (if pos / BSIZE < n then n else n + 1)
            && (tot + m == len || (off + (tot + m)) % BSIZE == 0)
            && FileSystem.Touched(off, tot + m) == FileSystem.Touched(off, tot) + 1
            && pos / BSIZE == off / BSIZE + FileSystem.Touched(off, tot)
            && Max(Blocks(size), Blocks(off + (tot + m))) <= Max(Blocks(size), Blocks(off + len))
  {
  }

  lemma BlocksMax(a: nat, b: nat)
    ensures Max(Blocks(a), Blocks(b)) == Blocks(Max(a, b))
  {
  }

  function Min(a: int, b: int): int {
    if a < b then a else b
  }

  function Max(a: int, b: int): int {
    if a < b then b else a
  }

  /** A write of at most CHUNK bytes logs at most MAXOPBLOCKS blocks: an unaligned first block is already allocated. */
  lemma TransactionBound(size: nat, off: nat, len: nat)
    requires off <= size && len <= CHUNK
    ensures FileSystem.WriteCost(size, off, len) <= MAXOPBLOCKS
  {
    assert CHUNK == 3 * BSIZE;
    assert off % BSIZE != 0 ==> off / BSIZE < Blocks(size);
  }

  /** The bound is reached: appending 1536 bytes at offset 6000 touches four data blocks, three of them new, and needs
      the indirect block. Writei logs exactly this many blocks if the four that it allocates are scattered. */
  lemma TransactionBoundReached()
    ensures FileSystem.WriteCost(6000, 6000, CHUNK) == MAXOPBLOCKS
    ensures Growth(Blocks(6000), Blocks(6000 + CHUNK)) == 4
  {
  }

  lemma CardSubset(a: set<nat>, b: set<nat>)
    requires a <= b
    ensures |a| <= |b|
  {
    assert b == a + (b - a);
    assert |b| == |a| + |b - a|;
  }

  lemma CardUnion(a: set<nat>, b: set<nat>)
    ensures |a + b| <= |a| + |b|
  {
    assert a + b == a + (b - a);
    assert |a + b| == |a| + |b - a|;
    assert b == (b - a) + (b * a);
    assert |b| == |b - a| + |b * a|;
  }

  /** The size of a union of four sets is at most the sum, and exactly the sum if they are disjoint. */
  lemma CardUnions(a: set<nat>, b: set<nat>, c: set<nat>, d: set<nat>)
    ensures |a + b + c + d| <= |a| + |b| + |c| + |d|
    ensures a !! b !! c !! d ==> |a + b + c + d| == |a| + |b| + |c| + |d|
  {
    CardUnion(a, b);
    CardUnion(a + b, c);
    CardUnion(a + b + c, d);
  }

  /** Writing a data block of inode i keeps every owner and the density of i's file. */
  lemma PatchKeepsSlots(data: seq<Block>, inodes: seq<Dinode>, owner: seq<Owner>, i: nat, b: nat, v: Block, n: nat)
    requires |data| == |owner| && b < |data| && i < |inodes|
    requires forall i :: 0 <= i < |inodes| ==> |inodes[i].addrs| == NDIRECT + 1
    requires OwnsSlots(data, inodes, owner) && owner[b].Slot? && owner[b].k != NDIRECT
    requires Dense(data, inodes[i], n)
    ensures OwnsSlots(data[b := v], inodes, owner) && Dense(data[b := v], inodes[i], n)
  {
    OwnsDataWrite(data, inodes, owner, b, v);
    forall bn: nat | bn < MAXFILE
      ensures Addr(data[b := v], inodes[i], SlotOf(bn)) == Addr(data, inodes[i], SlotOf(bn))
    {
      AddrFrame(data, inodes, owner, b, v, i, SlotOf(bn));
    }
  }
}

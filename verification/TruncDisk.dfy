/** When one truncation or removal can outgrow a transaction: a file, or an empty directory, with each of its blocks
    under another bitmap block. */
module TruncDisk {
  import opened FileBlocks
  import opened FileSystem
  import opened Removal

  const ROOT: nat := 1

  /** The inode that is truncated or removed, its type and the number of its blocks. */
  datatype Victim = Victim(inum: nat, kind: int, n: nat)

  /** Data blocks have bits in at least as many bitmap blocks as there are to be blocks. */
  predicate Wide(sb: Super, v: Victim) {
    sb.Ok() && ROOT < v.inum < sb.ninodes && 3 <= v.n < NDIRECT && sb.DataBitmaps() >= v.n
  }

  /** The first data block with its bit in the j-th of those bitmap blocks. */
  function Spread(sb: Super, j: nat): nat {
    if j == 0 then sb.datastart else (sb.datastart / BPB + j) * BPB
  }

  /** The j for which b would be that block. */
  function Index(sb: Super, b: nat): nat
    requires sb.datastart <= b
  {
    b / BPB - sb.datastart / BPB
  }

  /** The block of the root directory. */
  function RootBlock(sb: Super): nat {
    Spread(sb, 1) + 1
  }

  function OwnerOf(sb: Super, v: Victim, b: nat): Owner {
    if b < sb.datastart then Meta
    else if b == RootBlock(sb) then Slot(ROOT, 0)
    else if Index(sb, b) < v.n && b == Spread(sb, Index(sb, b)) then Slot(v.inum, Index(sb, b))
    else Free
  }

  function SlotBlock(sb: Super, v: Victim, i: nat, k: nat): nat {
    if i == v.inum && k < v.n then Spread(sb, k) else if i == ROOT && k == 0 then RootBlock(sb) else 0
  }

  function Addrs(sb: Super, v: Victim, i: nat): (s: seq<nat>)
    ensures |s| == NDIRECT + 1 && forall k :: 0 <= k <= NDIRECT ==> s[k] == SlotBlock(sb, v, i, k)
  {
    seq(NDIRECT + 1, k requires 0 <= k <= NDIRECT => SlotBlock(sb, v, i, k))
  }

  /** The root directory has three entries: its own two and the victim's. */
  function Inode(sb: Super, v: Victim, i: nat): Dinode {
    if i == v.inum then Dinode(v.kind, 0, 0, 1, v.n * BSIZE, Addrs(sb, v, i))
    else if i == ROOT then Dinode(T_DIR, 0, 0, if v.kind == T_DIR then 2 else 1, 3 * DIRENT, Addrs(sb, v, i))
    else Dinode(0, 0, 0, 0, 0, Addrs(sb, v, i))
  }

  function Owners(sb: Super, v: Victim): (s: seq<Owner>)
    ensures |s| == sb.size && forall b :: 0 <= b < sb.size ==> s[b] == OwnerOf(sb, v, b)
  {
    seq(sb.size, b requires 0 <= b < sb.size => OwnerOf(sb, v, b))
  }

  function Bitmap(sb: Super, v: Victim): (s: seq<bool>)
    ensures |s| == sb.size && forall b :: 0 <= b < sb.size ==> (s[b] <==> OwnerOf(sb, v, b) != Free)
  {
    seq(sb.size, b requires 0 <= b < sb.size => OwnerOf(sb, v, b) != Free)
  }

  /** A directory block with entries ".", ".." and, unless child is 0, "f". */
  function DirBlock(self: nat, parent: nat, child: nat): Block {
    seq(BSIZE, y requires 0 <= y < BSIZE =>
      if y == 0 then self % 256 else if y == 1 then self / 256 % 256 else if y == 2 then 46
      else if y == 16 then parent % 256 else if y == 17 then parent / 256 % 256 else if 18 <= y < 20 then 46
      else if y == 32 then child % 256 else if y == 33 then child / 256 % 256 else if y == 34 && child != 0 then 102
      else 0)
  }

  function Zeros(): Block {
    seq(BSIZE, _ => 0)
  }

  function Inodes(sb: Super, v: Victim): (s: seq<Dinode>)
    ensures |s| == sb.ninodes && forall i :: 0 <= i < sb.ninodes ==> s[i] == Inode(sb, v, i)
  {
    seq(sb.ninodes, i requires 0 <= i < sb.ninodes => Inode(sb, v, i))
  }

  function DataOf(sb: Super, v: Victim, b: nat): Block {
    if b == RootBlock(sb) then DirBlock(ROOT, ROOT, v.inum)
    else if b == Spread(sb, 0) && v.kind == T_DIR then DirBlock(v.inum, ROOT, 0)
    else Zeros()
  }

  function Data(sb: Super, v: Victim): (s: seq<Block>)
    ensures |s| == sb.size
  {
    seq(sb.size, b requires 0 <= b < sb.size => DataOf(sb, v, b))
  }

  lemma SpreadIs(sb: Super, v: Victim, j: nat)
    requires Wide(sb, v) && j < v.n
    ensures sb.datastart <= Spread(sb, j) < sb.size && Spread(sb, j) / BPB == sb.datastart / BPB + j
    ensures OwnerOf(sb, v, Spread(sb, j)) == Slot(v.inum, j)
  {
    var q := sb.datastart / BPB;
    assert (q + j) * BPB / BPB == q + j;
    assert (sb.size - 1) / BPB >= q + j;
    assert j > 0 ==> (q + j) * BPB >= (q + 1) * BPB > sb.datastart;
    assert (q + j) * BPB <= sb.size - 1 || j == 0;
    assert RootBlock(sb) == (q + 1) * BPB + 1;
  }

  lemma RootIs(sb: Super, v: Victim)
    requires Wide(sb, v)
    ensures sb.datastart < RootBlock(sb) < sb.size && OwnerOf(sb, v, RootBlock(sb)) == Slot(ROOT, 0)
  {
    SpreadIs(sb, v, 1);
    SpreadIs(sb, v, 2);
  }

  lemma SlotIs(sb: Super, v: Victim, i: nat, k: nat)
    requires Wide(sb, v) && SlotBlock(sb, v, i, k) != 0
    ensures 0 < SlotBlock(sb, v, i, k) < sb.size && OwnerOf(sb, v, SlotBlock(sb, v, i, k)) == Slot(i, k)
  {
    hide OwnerOf, Spread, RootBlock;
    if i == v.inum && k < v.n { SpreadIs(sb, v, k); } else { RootIs(sb, v); }
  }

  /** Without an indirect block the slots are the addresses. */
  lemma AddrIs(sb: Super, v: Victim, i: nat, k: nat)
    requires Wide(sb, v) && k < SLOTS
    ensures Addr(Data(sb, v), Inode(sb, v, i), k) == SlotBlock(sb, v, i, k)
  {
    hide Spread, RootBlock, GetWord, sb.DataBitmaps, Data;
    assert SlotBlock(sb, v, i, NDIRECT) == 0;
  }

  lemma DiskOwned(sb: Super, v: Victim)
    requires Wide(sb, v)
    ensures Owned(sb, Bitmap(sb, v), Data(sb, v), Inodes(sb, v), Owners(sb, v))
  {
    hide OwnerOf, SlotBlock, Addr, Data, Inode, sb.DataBitmaps;
    var data, inodes, owner := Data(sb, v), Inodes(sb, v), Owners(sb, v);
    forall i: nat | i < |inodes|
      ensures |inodes[i].addrs| == NDIRECT + 1
    {
      InodeShape(sb, v, i);
    }
    forall i: nat, k: nat | i < |inodes| && k < SLOTS
      ensures SlotOwns(data, inodes[i], owner, i, k)
    {
      AddrIs(sb, v, i, k);
      if SlotBlock(sb, v, i, k) != 0 { SlotIs(sb, v, i, k); }
    }
    forall b: nat | b < |owner|
      ensures OwnerHolds(data, inodes, owner, b) && (owner[b] == Meta <==> b < sb.datastart)
    {
      OwnerKind(sb, v, b);
      if owner[b].Slot? { AddrIs(sb, v, owner[b].inum, owner[b].k); }
    }
  }

  lemma OwnerKind(sb: Super, v: Victim, b: nat)
    requires Wide(sb, v)
    ensures OwnerOf(sb, v, b) == Meta <==> b < sb.datastart
    ensures OwnerOf(sb, v, b).Slot? ==>
              var o := OwnerOf(sb, v, b);
              o.inum < sb.ninodes && o.k < SLOTS && b == SlotBlock(sb, v, o.inum, o.k) >= sb.datastart
                  && (o.inum == v.inum ==> o.k < v.n)
  {
  }

  lemma DiskDense(sb: Super, v: Victim, i: nat)
    requires Wide(sb, v)
    ensures NoHoles(Data(sb, v), Inode(sb, v, i))
  {
    hide Spread, RootBlock, Addr, Data, sb.DataBitmaps;
    var ip := Inode(sb, v, i);
    assert Blocks(v.n * BSIZE) == v.n && Blocks(0) == 0 && Blocks(3 * DIRENT) == 1;
    RootIs(sb, v);
    forall bn: nat | bn < MAXFILE
      ensures Addr(Data(sb, v), ip, SlotOf(bn)) != 0 <==> bn < Blocks(ip.size)
    {
      AddrIs(sb, v, i, SlotOf(bn));
      if bn < v.n { SpreadIs(sb, v, bn); }
    }
  }

  /** As many bitmap blocks as there are blocks. */
  lemma VictimBitmaps(fs: FileSystem, v: Victim)
    requires Wide(fs.sb, v)
    ensures fs.BBlocks(OwnedBy(Owners(fs.sb, v), v.inum)) == Run(fs.sb.datastart / BPB + fs.sb.bmapstart, v.n)
  {
    hide OwnerOf, Spread, Run, fs.sb.DataBitmaps, RootBlock;
    var sb := fs.sb;
    var own := OwnedBy(Owners(sb, v), v.inum);
    var run := Run(sb.datastart / BPB + sb.bmapstart, v.n);
    forall b | b in own
      ensures fs.BBlock(b) in run
    {
      OwnerKind(sb, v, b);
      SpreadIs(sb, v, OwnerOf(sb, v, b).k);
    }
    forall x | x in run
      ensures x in fs.BBlocks(own)
    {
      var j := x - (sb.datastart / BPB + sb.bmapstart);
      SpreadIs(sb, v, j);
      assert Spread(sb, j) in own && fs.BBlock(Spread(sb, j)) == x;
    }
  }

  method Build(sb: Super, v: Victim) returns (fs: FileSystem)
    requires Wide(sb, v)
    ensures fresh(fs) && fs.Valid() && fs.sb == sb && fs.mem == Inodes(sb, v) && fs.owner == Owners(sb, v)
    ensures fs.logged == {} && fs.data == Data(sb, v)
    ensures fs.BBlocks(OwnedBy(fs.owner, v.inum)) == Run(sb.datastart / BPB + sb.bmapstart, v.n)
  {
    hide Owned, NoHoles, OwnerOf, Inode, Run, OwnedBy, Wide, Data;
    DiskOwned(sb, v);
    forall i | 0 <= i < sb.ninodes
      ensures |Inode(sb, v, i).addrs| == NDIRECT + 1 && NoHoles(Data(sb, v), Inode(sb, v, i))
    {
      InodeShape(sb, v, i);
      DiskDense(sb, v, i);
    }
    fs := new FileSystem(sb, Bitmap(sb, v), Data(sb, v), Inodes(sb, v), Owners(sb, v));
    VictimBitmaps(fs, v);
  }

  const TEN: Victim := Victim(2, 2, MAXOPBLOCKS)

  /** On every disk with ten bitmap blocks for data, a truncation can log more blocks than a transaction may. By the
      contract of Itrunc it cannot on any other, if the inode blocks come before the bitmap. */
  method TruncExceeds(sb: Super) returns (fs: FileSystem)
    requires Wide(sb, TEN) && sb.inodestart < sb.bmapstart
    ensures fresh(fs) && fs.Valid() && fs.sb == sb && |fs.logged| == MAXOPBLOCKS + 1
  {
    hide Owned, NoHoles, OwnerOf, Inode, Run, OwnedBy, sb.DataBitmaps, Data;
    fs := Build(sb, TEN);
    ghost var ten := Run(sb.datastart / BPB + sb.bmapstart, TEN.n);
    assert fs.IBlock(TEN.inum) !in ten;
    assert |ten + {fs.IBlock(TEN.inum)}| == TEN.n + 1;
    fs.Itrunc(TEN.inum);
    assert fs.logged == ten + {fs.IBlock(TEN.inum)};
  }

  /** A file of nine blocks, or a directory of eight with its inode in another block than the root's. */
  function Removed(dir: bool): Victim {
    if dir then Victim(8, T_DIR, 8) else Victim(2, 2, 9)
  }

  /** On every disk in mkfs order with nine bitmap blocks for data, removing a file can log more blocks than a
      transaction may, and with eight removing an empty directory can. By RemovalCost, not on any other. */
  method RemoveExceeds(sb: Super, dir: bool) returns (fs: FileSystem, ok: bool)
    requires Wide(sb, Removed(dir)) && Ordered(sb)
    ensures fresh(fs) && fs.Valid() && fs.sb == sb && ok && |fs.logged| == MAXOPBLOCKS + 1
  {
    hide Owned, NoHoles, OwnerOf, Run, OwnedBy, Wide, Data, Splice, File, Emptied, fs.BBlocks, Addrs, Ordered;
    var v := Removed(dir);
    fs := Build(sb, v);
    assert ROOT < v.inum < sb.ninodes by { InodesHere(sb, v); }
    ghost var owner := fs.owner;
    OrderedLaidOut(fs);
    ok := Remove(fs, ROOT, 2 * DIRENT, v.inum, true);
    RemovalCost(fs, fs.logged, owner, ROOT, v.inum, dir, true);
    assert |InodeBlocks(fs, ROOT, v.inum, dir)| == if dir then 2 else 1;
  }

  /** The inode blocks come before the bitmap blocks, and both before the data blocks. */
  predicate Ordered(sb: Super) {
    0 < sb.ninodes && sb.inodestart + (sb.ninodes - 1) / IPB < sb.bmapstart
        && 0 < sb.size && sb.bmapstart + (sb.size - 1) / BPB < sb.datastart
  }

  lemma OrderedLaidOut(fs: FileSystem)
    requires Ordered(fs.sb)
    ensures fs.LaidOut()
  {
    forall i: nat | i < fs.sb.ninodes
      ensures fs.IBlock(i) < fs.sb.bmapstart
    {
      assert i / IPB <= (fs.sb.ninodes - 1) / IPB;
    }
    forall b: nat | b < fs.sb.size
      ensures fs.BBlock(b) < fs.sb.datastart
    {
      assert b / BPB <= (fs.sb.size - 1) / BPB;
    }
  }

  lemma InodesHere(sb: Super, v: Victim)
    requires Wide(sb, v)
    ensures ROOT < v.inum < sb.ninodes
  {
  }

  lemma InodeShape(sb: Super, v: Victim, i: nat)
    ensures |Inode(sb, v, i).addrs| == NDIRECT + 1
  {
  }
}

/** A nearly full disk, as mkfs would lay it out with 12289 blocks and 32471 inodes: the four free blocks have their
    bits in four bitmap blocks. Inode 1 is the root directory, which is as large as a file can be, inodes 2 to 58 are
    files of that size, and inode 59 has 6000 bytes. */
module FullDisk {
  import opened Basics
  import opened FileBlocks
  import opened FileSystem

  const FSSIZE: nat := 12289
  const NINODES: nat := 32471
  const LASTFULL: nat := 58
  const SMALL: nat := 59

  function Layout(): Super {
    Super(FSSIZE, 32, 4091, 4095, NINODES)
  }

  predicate IsFree(b: nat) {
    b == 4095 || b == 4096 || b == 8192 || b == 12288
  }

  predicate IsMeta(b: nat) {
    b < 4095
  }

  /** The x-th block in use by a file. */
  function UsedBlock(x: nat): nat {
    if x < 4095 then 4097 + x else 4098 + x
  }

  function Position(b: nat): nat
    requires b > 4096
  {
    if b < 8192 then b - 4097 else if b == 8192 then 0 else b - 4098
  }

  /** Inode i >= 1 has the blocks from here on, one for each slot. */
  function Base(i: nat): nat
    requires i >= 1
  {
    SLOTS * (i - 1)
  }

  function SlotBlock(i: nat, k: nat): nat {
    if 1 <= i <= LASTFULL || (i == SMALL && k < NDIRECT) then UsedBlock(Base(i) + k) else 0
  }

  function OwnerOf(b: nat): Owner {
    if IsMeta(b) then Meta
    else if IsFree(b) then Free
    else Slot(Position(b) / SLOTS + 1, Position(b) % SLOTS)
  }

  function Addrs(i: nat): (s: seq<nat>)
    ensures |s| == NDIRECT + 1 && forall k :: 0 <= k <= NDIRECT ==> s[k] == SlotBlock(i, k)
  {
    seq(NDIRECT + 1, k requires 0 <= k <= NDIRECT => SlotBlock(i, k))
  }

  function SizeOf(i: nat): nat {
    if 1 <= i <= LASTFULL then MAXFILE * BSIZE else if i == SMALL then 6000 else 0
  }

  function Inode(i: nat): Dinode {
    Dinode(if i == 0 || i > SMALL then 0 else if i == 1 then 1 else 2, 0, 0, if i == 0 || i > SMALL then 0 else 1,
           SizeOf(i), Addrs(i))
  }

  function ByteOf(v: nat, j: nat): Byte
    requires j < 4
  {
    if j == 0 then v % 256 else if j == 1 then v / 256 % 256 else if j == 2 then v / 65536 % 256 else v / 16777216 % 256
  }

  /** The indirect block of inode i. */
  function IndirectOf(i: nat): (b: Block) {
    seq(BSIZE, y requires 0 <= y < BSIZE => ByteOf(SlotBlock(i, NDIRECT + 1 + y / 4), y % 4))
  }

  /** Byte j of the e-th entry of the root directory: its own two entries, then one for each file, with its number for
      a name. */
  function RootByte(e: nat, j: nat): Byte
    requires j < 16
  {
    if e > SMALL then 0
    else if j == 0 then (if e < 2 then 1 else e)
    else if j == 2 then (if e < 2 then 46 else 48 + e / 10)
    else if j == 3 then (if e == 0 then 0 else if e == 1 then 46 else 48 + e % 10)
    else 0
  }

  /** The block of it that starts with entry e. */
  function RootBlock(e: nat): (b: Block) {
    seq(BSIZE, y requires 0 <= y < BSIZE => RootByte(e + y / 16, y % 16))
  }

  /** Indirect blocks hold addresses, the root directory its entries, and all others zeros, which is what the indirect
      block of inode 0 would hold. */
  function DataOf(b: nat): Block {
    var o := OwnerOf(b);
    if o.Slot? && o.k == NDIRECT then IndirectOf(o.inum)
    else if o.Slot? && o.inum == 1 then RootBlock(BSIZE / 16 * (if o.k < NDIRECT then o.k else o.k - 1))
    else IndirectOf(0)
  }

  function Owners(): (s: seq<Owner>)
    ensures |s| == FSSIZE && forall b :: 0 <= b < FSSIZE ==> s[b] == OwnerOf(b)
  {
    seq(FSSIZE, b requires 0 <= b < FSSIZE => OwnerOf(b))
  }

  function Bitmap(): (s: seq<bool>)
    ensures |s| == FSSIZE && forall b :: 0 <= b < FSSIZE ==> (s[b] <==> !IsFree(b))
  {
    seq(FSSIZE, b requires 0 <= b < FSSIZE => !IsFree(b))
  }

  function Data(): (s: seq<Block>)
    ensures |s| == FSSIZE && forall b :: 0 <= b < FSSIZE ==> s[b] == DataOf(b)
  {
    seq(FSSIZE, b requires 0 <= b < FSSIZE => DataOf(b))
  }

  function Inodes(): (s: seq<Dinode>)
    ensures |s| == NINODES && forall i :: 0 <= i < NINODES ==> s[i] == Inode(i)
  {
    seq(NINODES, i requires 0 <= i < NINODES => Inode(i))
  }

  /** The block of a slot, and the slot of a block. */
  lemma SlotRound(i: nat, k: nat)
    requires k < SLOTS && SlotBlock(i, k) != 0
    ensures 4096 < SlotBlock(i, k) < FSSIZE && OwnerOf(SlotBlock(i, k)) == Slot(i, k)
  {
    var x := Base(i) + k;
    assert x / SLOTS == i - 1 && x % SLOTS == k;
    assert x < 8190;
    assert Position(UsedBlock(x)) == x;
  }

  lemma BlockRound(b: nat)
    requires b < FSSIZE && OwnerOf(b).Slot?
    ensures var o := OwnerOf(b); o.k < SLOTS && 1 <= o.inum <= SMALL && SlotBlock(o.inum, o.k) == b
  {
    var x := Position(b);
    assert x < 8190 && UsedBlock(x) == b;
    assert Base(x / SLOTS + 1) + x % SLOTS == x;
  }

  lemma ByteWord(v: nat)
    requires v < WORD
    ensures ByteOf(v, 0) as int + 256 * ByteOf(v, 1) as int + 65536 * ByteOf(v, 2) as int +
            16777216 * ByteOf(v, 3) as int == v
  {
    var q := v / 256;
    var r := q / 256;
    assert v / 65536 == r && v / 16777216 == r / 256;
  }

  lemma IndirectWord(i: nat, e: nat)
    requires e < NINDIRECT && 1 <= i <= LASTFULL
    ensures GetWord(IndirectOf(i), e) == SlotBlock(i, NDIRECT + 1 + e)
  {
    hide SlotBlock, ByteOf;
    var b, v := IndirectOf(i), SlotBlock(i, NDIRECT + 1 + e);
    assert 4 * e / 4 == e && (4 * e + 1) / 4 == e && (4 * e + 2) / 4 == e && (4 * e + 3) / 4 == e;
    assert b[4 * e] == ByteOf(v, 0) && b[4 * e + 1] == ByteOf(v, 1) && b[4 * e + 2] == ByteOf(v, 2);
    assert b[4 * e + 3] == ByteOf(v, 3);
    if v != 0 { SlotRound(i, NDIRECT + 1 + e); }
    ByteWord(v);
  }

  lemma AddrIs(i: nat, k: nat)
    requires i < NINODES && k < SLOTS
    ensures Addr(Data(), Inode(i), k) == SlotBlock(i, k)
  {
    hide GetWord, IndirectOf, OwnerOf, UsedBlock;
    var p := SlotBlock(i, NDIRECT);
    assert Inode(i).addrs[NDIRECT] == p;
    if k <= NDIRECT {
      assert Inode(i).addrs[k] == SlotBlock(i, k);
    } else if p != 0 {
      SlotRound(i, NDIRECT);
      IndirectWord(i, k - NDIRECT - 1);
    } else {
      FullHasIndirect(i);
    }
  }

  lemma FullHasIndirect(i: nat)
    ensures SlotBlock(i, NDIRECT) != 0 <==> 1 <= i <= LASTFULL
  {
  }

  lemma DiskOwned()
    ensures Owned(Layout(), Bitmap(), Data(), Inodes(), Owners())
  {
    hide Addr, DataOf, SlotBlock, OwnerOf, Inode;
    var data, inodes, owner := Data(), Inodes(), Owners();
    InodeShape();
    forall b: nat | b < FSSIZE
      ensures (OwnerOf(b) != Free <==> !IsFree(b)) && (OwnerOf(b) == Meta <==> b < 4095)
    {
      OwnerKind(b);
    }
    forall i: nat, k: nat | i < |inodes| && k < SLOTS
      ensures SlotOwns(data, inodes[i], owner, i, k)
    {
      AddrIs(i, k);
      if SlotBlock(i, k) != 0 { SlotRound(i, k); }
    }
    forall b: nat | b < |owner|
      ensures OwnerHolds(data, inodes, owner, b)
    {
      if owner[b].Slot? {
        BlockRound(b);
        OwnerKind(b);
        AddrIs(owner[b].inum, owner[b].k);
      }
    }
  }

  lemma OwnerKind(b: nat)
    ensures (OwnerOf(b) != Free <==> !IsFree(b)) && (OwnerOf(b) == Meta <==> b < 4095)
  {
  }

  lemma InodeShape()
    ensures forall i: nat :: |Inode(i).addrs| == NDIRECT + 1
  {
  }

  lemma DiskDense(i: nat)
    requires i < NINODES
    ensures NoHoles(Data(), Inode(i))
  {
    hide Addr;
    var ip := Inode(i);
    forall bn: nat | bn < MAXFILE
      ensures Addr(Data(), ip, SlotOf(bn)) != 0 <==> bn < Blocks(ip.size)
    {
      AddrIs(i, SlotOf(bn));
    }
    assert ip.addrs[NDIRECT] == SlotBlock(i, NDIRECT);
  }

  /** Four free blocks, and no two with their bits in the same bitmap block. */
  lemma DiskFree()
    ensures FreeBlocks(Owners()) == {4095, 4096, 8192, 12288} && |FreeBlocks(Owners())| == 4
  {
    hide OwnerOf;
    forall b: nat | b < FSSIZE
      ensures OwnerOf(b) == Free <==> IsFree(b)
    {
      OwnerKind(b);
    }
    assert FreeBlocks(Owners()) == {4095, 4096, 8192, 12288};
  }

  /** The bound on a transaction is reached: here an append of one chunk to inode 59 logs exactly MAXOPBLOCKS blocks. */
  method ReachBound(piece: seq<Byte>) returns (fs: FileSystem, ok: bool)
    requires |piece| == CHUNK
    ensures fresh(fs) && fs.Valid() && ok && |fs.logged| == MAXOPBLOCKS
  {
    hide Owned, NoHoles, FreeBlocks, Growth, OwnerOf, Inode, File, Splice;
    InodeShape();
    DiskOwned();
    forall i | 0 <= i < NINODES
      ensures NoHoles(Data(), Inode(i))
    {
      DiskDense(i);
    }
    fs := new FileSystem(Layout(), Bitmap(), Data(), Inodes(), Owners());
    DiskFree();
    ScatteredHere(fs);
    TransactionBoundReached();
    SmallSize();
    var r;
    ghost var tx;
    ok, r, tx := fs.WriteTransaction(SMALL, 6000, piece);
  }

  lemma SmallSize()
    ensures Inode(SMALL).size == 6000
  {
  }

  lemma ScatteredHere(fs: FileSystem)
    requires fs.sb == Layout()
    ensures fs.LaidOut() && fs.Scattered(Owners())
  {
    hide OwnerOf;
    forall b: nat, c: nat | b < c < FSSIZE && OwnerOf(b) == Free && OwnerOf(c) == Free
      ensures fs.BBlock(b) != fs.BBlock(c)
    {
      OwnerKind(b);
      OwnerKind(c);
    }
  }
}

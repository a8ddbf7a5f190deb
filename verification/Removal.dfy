/** What removing a name writes to the disk, and how many blocks of the log that takes. */
module Removal {
  import opened Basics
  import opened FileBlocks
  import opened FileSystem

  const DIRENT: nat := 16
  const T_DIR: int := 1

  /** A cleared directory entry. */
  function NoEntry(): (s: seq<Byte>)
    ensures |s| == DIRENT
  {
    seq(DIRENT, _ => 0)
  }

  /** The directory f has become f': the 16 bytes of the entry at off are zeros, so that its inode number is 0 and the
      slot is empty; all other bytes are as before. */
  ghost predicate EntryGone(f: seq<Byte>, f': seq<Byte>, off: nat) {
    && |f'| == |f|
    && forall x :: 0 <= x < |f| ==> f'[x] == if off <= x < off + DIRENT then 0 else f[x]
  }

  lemma SpliceGone(f: seq<Byte>, off: nat)
    requires off + DIRENT <= |f|
    ensures EntryGone(f, Splice(f, off, NoEntry()), off)
  {
    hide Splice;
    SpliceAt(f, off, NoEntry(), off);
    forall x: nat | x < |f|
      ensures Splice(f, off, NoEntry())[x] == if off <= x < off + DIRENT then 0 else f[x]
    {
      SpliceAt(f, off, NoEntry(), x);
    }
  }

  /** The inode blocks that are written: that of the inode, and that of the directory if it loses the link from "..". */
  ghost function InodeBlocks(fs: FileSystem, dp: nat, i: nat, dir: bool): set<nat> {
    {fs.IBlock(i)} + if dir then {fs.IBlock(dp)} else {}
  }

  /** The bitmap blocks that are written, if the inode goes. */
  ghost function BitmapBlocks(fs: FileSystem, owner: seq<Owner>, i: nat, gone: bool): set<nat> {
    if gone then fs.BBlocks(OwnedBy(owner, i)) else {}
  }

  /** The blocks logged are one block of the directory, the inode blocks and the bitmap blocks. */
  ghost predicate Removes(fs: FileSystem, log: set<nat>, owner: seq<Owner>, dp: nat, i: nat, dir: bool, gone: bool) {
    exists x :: x in OwnedBy(owner, dp)
        && log == {x} + InodeBlocks(fs, dp, i, dir) + BitmapBlocks(fs, owner, i, gone)
  }

  ghost predicate OwnerShape(sb: Super, owner: seq<Owner>) {
    |owner| == sb.size && forall b :: 0 <= b < sb.size ==> (owner[b] == Meta <==> b < sb.datastart)
  }

  /** At most two blocks, a third for a directory, and the bitmap blocks for data if the inode goes. With the regions
      in mkfs order they are all different, so this adds up exactly. */
  lemma RemovalCost(fs: FileSystem, log: set<nat>, owner: seq<Owner>, dp: nat, i: nat, dir: bool, gone: bool)
    requires OwnerShape(fs.sb, owner) && dp < fs.sb.ninodes && i < fs.sb.ninodes
    requires Removes(fs, log, owner, dp, i, dir, gone)
    ensures |log| <= 2 + (if dir then 1 else 0) + (if gone then fs.sb.DataBitmaps() else 0)
    ensures fs.LaidOut() ==>
              |log| == 1 + |InodeBlocks(fs, dp, i, dir)| + |BitmapBlocks(fs, owner, i, gone)|
  {
    hide fs.sb.DataBitmaps, OwnedBy, fs.BBlocks;
    var x :| x in OwnedBy(owner, dp) && log == {x} + InodeBlocks(fs, dp, i, dir) + BitmapBlocks(fs, owner, i, gone);
    var ib, bb := InodeBlocks(fs, dp, i, dir), BitmapBlocks(fs, owner, i, gone);
    CardUnion({x}, ib);
    CardUnion({x} + ib, bb);
    if gone { fs.TruncCost(owner, i); }
    if fs.LaidOut() { RegionsApart(fs, owner, dp, i, dir, gone, x); }
  }

  lemma RegionsApart(fs: FileSystem, owner: seq<Owner>, dp: nat, i: nat, dir: bool, gone: bool, x: nat)
    requires OwnerShape(fs.sb, owner) && fs.LaidOut() && dp < fs.sb.ninodes && i < fs.sb.ninodes
    requires x in OwnedBy(owner, dp)
    ensures x !in InodeBlocks(fs, dp, i, dir) && x !in BitmapBlocks(fs, owner, i, gone)
    ensures InodeBlocks(fs, dp, i, dir) !! BitmapBlocks(fs, owner, i, gone)
  {
    assert x >= fs.sb.datastart && fs.IBlock(i) < fs.sb.bmapstart && fs.IBlock(dp) < fs.sb.bmapstart;
  }

  function Unlinked(ip: Dinode, once: bool): Dinode {
    ip.(nlink := ip.nlink - if once then 1 else 0)
  }

  function Gone(ip: Dinode): Dinode {
    Emptied(ip).(nlink := 0, kind := 0)
  }

  /** An inode gets another link count, in memory and on disk. */
  method SetLinks(fs: FileSystem, i: nat, nlink: int, kind: int)
    requires fs.Valid() && i < |fs.mem|
    modifies fs`mem, fs`disk, fs`logged
    ensures fs.Valid() && fs.mem == old(fs.mem)[i := old(fs.mem)[i].(nlink := nlink, kind := kind)]
    ensures fs.logged == old(fs.logged) + {fs.IBlock(i)}
    ensures forall j :: 0 <= j < |fs.mem| ==> File(fs.data, fs.mem[j]) == File(fs.data, old(fs.mem)[j])
  {
    hide OwnsSlots, Addr, Blocks, GetWord, fs.IBlock;
    var ip := fs.mem[i].(nlink := nlink, kind := kind);
    SameAddrs(fs.data, fs.mem[i], ip);
    OwnsSize(fs.data, fs.mem, fs.owner, i, ip);
    fs.mem := fs.mem[i := ip];
    fs.Iupdate(i);
  }

  lemma SameAddrs(data: seq<Block>, ip: Dinode, ip': Dinode)
    requires |ip.addrs| == NDIRECT + 1 && ip'.addrs == ip.addrs && ip'.size == ip.size && NoHoles(data, ip)
    ensures NoHoles(data, ip') && File(data, ip') == File(data, ip)
  {
    assert forall k: nat :: k < SLOTS ==> Addr(data, ip', k) == Addr(data, ip, k);
    assert forall x: nat :: x < MAXFILE * BSIZE ==> ByteAt(data, ip', x) == ByteAt(data, ip, x);
  }

  lemma OneBlock(off: nat)
    requires off % DIRENT == 0
    ensures FileSystem.Touched(off, DIRENT) == 1
  {
  }

  lemma NoGrowth(size: nat, end: nat)
    requires end <= size
    ensures Growth(Blocks(size), Max(Blocks(size), Blocks(end))) == 0
  {
  }

  lemma TheBlock(fs: FileSystem, dp: nat) returns (x: nat)
    requires fs.LoggedData({}, fs.logged, fs.owner, dp, 1)
    ensures x in OwnedBy(fs.owner, dp) && fs.logged == {x}
  {
    var ds: set<nat> :| |ds| == 1 && ds <= OwnedBy(fs.owner, dp) && fs.logged == {} + ds;
    x :| x in ds;
    assert |ds - {x}| == 0;
    assert ds == {x};
  }

  /** unlink's writei: it never fails, because the entry is there. */
  method ClearEntry(fs: FileSystem, dp: nat, off: nat) returns (ok: bool, ghost x: nat)
    requires fs.Valid() && dp < |fs.mem| && fs.logged == {}
    requires off % DIRENT == 0 && off + DIRENT <= fs.mem[dp].size
    modifies fs
    ensures ok && fs.Valid() && fs.mem == old(fs.mem) && fs.owner == old(fs.owner) && fs.bitmap == old(fs.bitmap)
    ensures EntryGone(old(File(fs.data, fs.mem[dp])), File(fs.data, fs.mem[dp]), off)
    ensures forall j :: 0 <= j < |fs.mem| && j != dp ==> File(fs.data, fs.mem[j]) == old(File(fs.data, fs.mem[j]))
    ensures x in OwnedBy(fs.owner, dp) && fs.logged == {x}
  {
    hide OwnsSlots, Addr, Splice, File, OwnedBy, fs.BBlocks, fs.IBlock, fs.Touched, fs.WriteCost, fs.LaidOut,
         fs.Scattered, fs.AtHome, FreeBlocks, Growth, Blocks, NoEntry, Dense;
    OneBlock(off);
    NoGrowth(fs.mem[dp].size, off + DIRENT);
    assert MAXFILE * BSIZE < WORD;
    var r;
    ok, r := fs.Writei(dp, off, NoEntry());
    ok := ok && r == DIRENT;
    x := TheBlock(fs, dp);
    SpliceGone(old(File(fs.data, fs.mem[dp])), off);
  }

  /** iput at the last link and the last reference. */
  method FreeInode(fs: FileSystem, i: nat)
    requires fs.Valid() && i < |fs.mem| && fs.mem[i].nlink == 0
    modifies fs
    ensures fs.Valid() && fs.data == old(fs.data)
    ensures fs.mem == old(fs.mem)[i := Emptied(old(fs.mem)[i]).(kind := 0)]
    ensures forall b: nat :: b < fs.sb.size ==>
              (fs.bitmap[b] <==> old(fs.bitmap)[b] && b !in OwnedBy(old(fs.owner), i))
    ensures fs.logged == old(fs.logged) + fs.BBlocks(OwnedBy(old(fs.owner), i)) + {fs.IBlock(i)}
  {
    hide OwnsSlots, Addr, File, fs.BBlocks, fs.IBlock, Blocks, Dense;
    fs.Itrunc(i);
    SetLinks(fs, i, 0, 0);
  }

  /** The disk side of unlink, for the entry at off in directory dp that names inode i: the entry is cleared, the links
      are dropped, and at the last link and reference the inode goes with its blocks, and only those. */
  method Remove(fs: FileSystem, dp: nat, off: nat, i: nat, last: bool) returns (ok: bool)
    requires fs.Valid() && dp < |fs.mem| && i < |fs.mem| && dp != i && fs.logged == {}
    requires off % DIRENT == 0 && off + DIRENT <= fs.mem[dp].size
    modifies fs
    ensures ok && fs.Valid() && OwnerShape(fs.sb, old(fs.owner))
    ensures var dir, gone := old(fs.mem)[i].kind == T_DIR, old(fs.mem)[i].nlink == 1 && last;
            && fs.mem == old(fs.mem)[dp := Unlinked(old(fs.mem)[dp], dir)]
                                    [i := if gone then Gone(old(fs.mem)[i]) else Unlinked(old(fs.mem)[i], true)]
            && (forall b: nat :: b < fs.sb.size ==>
                  (fs.bitmap[b] <==> old(fs.bitmap)[b] && !(gone && b in OwnedBy(old(fs.owner), i))))
            && (forall j :: 0 <= j < |fs.mem| && j != dp && !(gone && j == i) ==>
                  File(fs.data, fs.mem[j]) == old(File(fs.data, fs.mem[j])))
            && Removes(fs, fs.logged, old(fs.owner), dp, i, dir, gone)
    ensures EntryGone(old(File(fs.data, fs.mem[dp])), File(fs.data, fs.mem[dp]), off)
  {
    hide OwnsSlots, Addr, Splice, File, NoHoles, OwnedBy, fs.BBlocks, fs.IBlock, NoEntry;
    ghost var x;
    ok, x := ClearEntry(fs, dp, off);
    var dir := fs.mem[i].kind == T_DIR;
    if dir { SetLinks(fs, dp, fs.mem[dp].nlink - 1, fs.mem[dp].kind); }
    SetLinks(fs, i, fs.mem[i].nlink - 1, fs.mem[i].kind);
    assert fs.mem == old(fs.mem)[dp := Unlinked(old(fs.mem)[dp], dir)][i := Unlinked(old(fs.mem)[i], true)];
    assert fs.logged == {x} + InodeBlocks(fs, dp, i, dir);
    if fs.mem[i].nlink == 0 && last { FreeInode(fs, i); }
  }
}

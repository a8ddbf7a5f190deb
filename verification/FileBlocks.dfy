/** The block layer of fs.c: which inode slot owns each disk block, and what a file's bytes are. */
module FileBlocks {
  import opened Basics

  const BSIZE: nat := 512
  const NDIRECT: nat := 12
  const NINDIRECT: nat := 128
  const MAXFILE: nat := NDIRECT + NINDIRECT
  const SLOTS: nat := MAXFILE + 1

  type Byte = b: int | 0 <= b < 256 witness 0
  type Block = b: seq<Byte> | |b| == BSIZE witness seq(BSIZE, _ => 0)

  const ZERO: Block := seq(BSIZE, _ => 0)

  datatype Dinode = Dinode(kind: int, major: int, minor: int, nlink: int, size: nat, addrs: seq<nat>)

  /** sb: the file system has `size` blocks; those below `datastart` are boot, super, log, inode and bitmap blocks. */
  datatype Super = Super(size: nat, inodestart: nat, bmapstart: nat, datastart: nat, ninodes: nat) {
    predicate Ok() {
      0 < datastart <= size < WORD
    }

    /** How many bitmap blocks have bits for data blocks. */
    function DataBitmaps(): nat {
      if datastart < size then (size - 1) / (BSIZE * 8) - datastart / (BSIZE * 8) + 1 else 0
    }
  }

  // ------------------------------------------------------ words in a block

  function GetWord(b: Block, j: nat): nat
    requires j < NINDIRECT
  {
    b[4 * j] as int + 256 * b[4 * j + 1] as int + 65536 * b[4 * j + 2] as int + 16777216 * b[4 * j + 3] as int
  }

  function PutWord(b: Block, j: nat, v: nat): Block
    requires j < NINDIRECT && v < WORD
  {
    var q := v / 256;
    var r := q / 256;
    b[4 * j := v % 256][4 * j + 1 := q % 256][4 * j + 2 := r % 256][4 * j + 3 := r / 256]
  }

  lemma WordRoundTrip(b: Block, j: nat, v: nat)
    requires j < NINDIRECT && v < WORD
    ensures GetWord(PutWord(b, j, v), j) == v
  {
    var q := v / 256;
    var r := q / 256;
    assert v == 256 * q + v % 256 && q == 256 * r + q % 256 && r == 256 * (r / 256) + r % 256;
    var c := PutWord(b, j, v);
    assert c[4 * j] == v % 256 && c[4 * j + 1] == q % 256 && c[4 * j + 2] == r % 256 && c[4 * j + 3] == r / 256;
  }

  lemma WordOther(b: Block, j: nat, v: nat, k: nat)
    requires j < NINDIRECT && v < WORD && k < NINDIRECT && k != j
    ensures GetWord(PutWord(b, j, v), k) == GetWord(b, k)
  {
  }

  lemma WordZero(k: nat)
    requires k < NINDIRECT
    ensures GetWord(ZERO, k) == 0
  {
  }

  // ------------------------------------------------------ slots and owners

  /** Slot k of an inode: a direct address (k < NDIRECT), the indirect pointer (k == NDIRECT), or entry k - NDIRECT - 1
      of the indirect block. Zero means no block. */
  function Addr(data: seq<Block>, ip: Dinode, k: nat): nat
    requires |ip.addrs| == NDIRECT + 1 && k < SLOTS
  {
    if k <= NDIRECT then ip.addrs[k]
    else if 0 < ip.addrs[NDIRECT] < |data| then GetWord(data[ip.addrs[NDIRECT]], k - NDIRECT - 1)
    else 0
  }

  /** The slot that holds the file's bn-th block. */
  function SlotOf(bn: nat): (k: nat)
    requires bn < MAXFILE
    ensures k < SLOTS && k != NDIRECT
  {
    if bn < NDIRECT then bn else bn + 1
  }

  datatype Owner = Meta | Free | Slot(inum: nat, k: nat)

  /** Each block has one owner: the metadata, nobody, or exactly one slot of exactly one inode;
      the bitmap bit is set exactly for the blocks that are not free. */
  ghost predicate Owned(sb: Super, bitmap: seq<bool>, data: seq<Block>, inodes: seq<Dinode>, owner: seq<Owner>) {
    && sb.Ok()
    && |bitmap| == |data| == |owner| == sb.size
    && |inodes| == sb.ninodes
    && (forall i :: 0 <= i < |inodes| ==> |inodes[i].addrs| == NDIRECT + 1)
    && (forall b :: 0 <= b < sb.size ==> (bitmap[b] <==> owner[b] != Free))
    && (forall b :: 0 <= b < sb.size ==> (owner[b] == Meta <==> b < sb.datastart))
    && OwnsSlots(data, inodes, owner)
  }

  ghost predicate SlotOwns(data: seq<Block>, ip: Dinode, owner: seq<Owner>, i: nat, k: nat)
    requires |ip.addrs| == NDIRECT + 1 && k < SLOTS
  {
    var a := Addr(data, ip, k);
    a != 0 ==> a < |owner| && owner[a] == Slot(i, k)
  }

  ghost predicate OwnerHolds(data: seq<Block>, inodes: seq<Dinode>, owner: seq<Owner>, b: nat)
    requires forall i :: 0 <= i < |inodes| ==> |inodes[i].addrs| == NDIRECT + 1
    requires b < |owner|
  {
    owner[b].Slot? ==>
      && b != 0 && owner[b].inum < |inodes| && owner[b].k < SLOTS
      && Addr(data, inodes[owner[b].inum], owner[b].k) == b
  }

  ghost predicate OwnsSlots(data: seq<Block>, inodes: seq<Dinode>, owner: seq<Owner>)
    requires |data| == |owner|
    requires forall i :: 0 <= i < |inodes| ==> |inodes[i].addrs| == NDIRECT + 1
  {
    && (forall i: nat, k: nat {:trigger Addr(data, inodes[i], k)} :: i < |inodes| && k < SLOTS ==>
          SlotOwns(data, inodes[i], owner, i, k))
    && (forall b: nat :: b < |owner| ==> OwnerHolds(data, inodes, owner, b))
  }

  /** Two different slots never hold the same block. */
  lemma OneOwner(sb: Super, bitmap: seq<bool>, data: seq<Block>, inodes: seq<Dinode>, owner: seq<Owner>,
                 i: nat, k: nat, j: nat, l: nat)
    requires Owned(sb, bitmap, data, inodes, owner)
    requires i < |inodes| && j < |inodes| && k < SLOTS && l < SLOTS
    requires Addr(data, inodes[i], k) == Addr(data, inodes[j], l) != 0
    ensures i == j && k == l
  {
    var a := Addr(data, inodes[i], k);
    assert owner[a] == Slot(i, k);
    assert owner[a] == Slot(j, l);
  }

  lemma SlotInUse(sb: Super, bitmap: seq<bool>, data: seq<Block>, inodes: seq<Dinode>, owner: seq<Owner>, i: nat,
                  k: nat)
    requires Owned(sb, bitmap, data, inodes, owner) && i < |inodes| && k < SLOTS
    ensures var a := Addr(data, inodes[i], k); a != 0 ==> 0 < a < sb.size && owner[a] == Slot(i, k)
  {
    assert SlotOwns(data, inodes[i], owner, i, k);
  }

  /** A block's bit is set exactly when it is metadata or some inode slot holds it. */
  lemma BitMeansOwned(sb: Super, bitmap: seq<bool>, data: seq<Block>, inodes: seq<Dinode>, owner: seq<Owner>, b: nat)
    requires Owned(sb, bitmap, data, inodes, owner) && b < sb.size
    ensures bitmap[b] <==>
            b < sb.datastart || exists i: nat, k: nat :: i < |inodes| && k < SLOTS && Addr(data, inodes[i], k) == b
  {
    assert OwnerHolds(data, inodes, owner, b);
    if i: nat, k: nat :| i < |inodes| && k < SLOTS && Addr(data, inodes[i], k) == b {
      if b != 0 { assert owner[b] == Slot(i, k); }
    }
  }

  // ------------------------------------------------ updates that keep ownership

  /** The contents of a block matter to ownership only if it is some inode's indirect block. */
  lemma AddrFrame(data: seq<Block>, inodes: seq<Dinode>, owner: seq<Owner>, x: nat, v: Block, i: nat, k: nat)
    requires |data| == |owner| && x < |data| && i < |inodes| && k < SLOTS
    requires forall i :: 0 <= i < |inodes| ==> |inodes[i].addrs| == NDIRECT + 1
    requires OwnsSlots(data, inodes, owner)
    requires owner[x].Slot? ==> owner[x].k != NDIRECT
    ensures Addr(data[x := v], inodes[i], k) == Addr(data, inodes[i], k)
  {
    var p := Addr(data, inodes[i], NDIRECT);
    assert p != 0 ==> owner[p] == Slot(i, NDIRECT);
  }

  lemma OwnsDataWrite(data: seq<Block>, inodes: seq<Dinode>, owner: seq<Owner>, x: nat, v: Block)
    requires |data| == |owner| && x < |data|
    requires forall i :: 0 <= i < |inodes| ==> |inodes[i].addrs| == NDIRECT + 1
    requires OwnsSlots(data, inodes, owner)
    requires owner[x].Slot? ==> owner[x].k != NDIRECT
    ensures OwnsSlots(data[x := v], inodes, owner)
  {
    var d := data[x := v];
    forall i: nat, k: nat | i < |inodes| && k < SLOTS
      ensures SlotOwns(d, inodes[i], owner, i, k)
    {
      AddrFrame(data, inodes, owner, x, v, i, k);
      assert SlotOwns(data, inodes[i], owner, i, k);
    }
    forall b: nat | b < |owner|
      ensures OwnerHolds(d, inodes, owner, b)
    {
      assert OwnerHolds(data, inodes, owner, b);
      if owner[b].Slot? { AddrFrame(data, inodes, owner, x, v, owner[b].inum, owner[b].k); }
    }
  }

  /** A free, zeroed block put into an empty direct slot or the empty indirect pointer. */
  lemma OwnsAssign(data: seq<Block>, inodes: seq<Dinode>, owner: seq<Owner>, i: nat, k: nat, b: nat)
    requires |data| == |owner| && 0 < b < |data| && i < |inodes| && k <= NDIRECT
    requires forall i :: 0 <= i < |inodes| ==> |inodes[i].addrs| == NDIRECT + 1
    requires OwnsSlots(data, inodes, owner) && owner[b] == Free && data[b] == ZERO
    requires inodes[i].addrs[k] == 0
    ensures OwnsSlots(data, inodes[i := inodes[i].(addrs := inodes[i].addrs[k := b])], owner[b := Slot(i, k)])
  {
    var ip := inodes[i].(addrs := inodes[i].addrs[k := b]);
    var nodes, own := inodes[i := ip], owner[b := Slot(i, k)];
    forall l: nat | l < SLOTS
      ensures Addr(data, ip, l) == if l == k then b else Addr(data, inodes[i], l)
    {
      if k == NDIRECT && l > NDIRECT { WordZero(l - NDIRECT - 1); }
    }
    forall j: nat, l: nat | j < |nodes| && l < SLOTS
      ensures SlotOwns(data, nodes[j], own, j, l)
    {
      assert SlotOwns(data, inodes[j], owner, j, l);
    }
    forall x: nat | x < |own|
      ensures OwnerHolds(data, nodes, own, x)
    {
      assert OwnerHolds(data, inodes, owner, x);
      assert Addr(data, inodes[i], k) == 0;
    }
  }

  /** A free block put into an empty entry of the inode's indirect block. */
  lemma OwnsAssignIndirect(data: seq<Block>, inodes: seq<Dinode>, owner: seq<Owner>, i: nat, e: nat, b: nat)
    requires |data| == |owner| <= WORD && 0 < b < |data| && i < |inodes| && e < NINDIRECT
    requires forall i :: 0 <= i < |inodes| ==> |inodes[i].addrs| == NDIRECT + 1
    requires OwnsSlots(data, inodes, owner) && owner[b] == Free
    requires 0 < inodes[i].addrs[NDIRECT] < |data| && GetWord(data[inodes[i].addrs[NDIRECT]], e) == 0
    ensures var p := inodes[i].addrs[NDIRECT];
            OwnsSlots(data[p := PutWord(data[p], e, b)], inodes, owner[b := Slot(i, NDIRECT + 1 + e)])
  {
    var p := inodes[i].addrs[NDIRECT];
    var d, own := data[p := PutWord(data[p], e, b)], owner[b := Slot(i, NDIRECT + 1 + e)];
    assert Addr(data, inodes[i], NDIRECT) == p;
    forall j: nat, l: nat | j < |inodes| && l < SLOTS
      ensures Addr(d, inodes[j], l) == if j == i && l == NDIRECT + 1 + e then b else Addr(data, inodes[j], l)
    {
      IndirectAddr(data, inodes, owner, i, e, b, j, l);
    }
    forall j: nat, l: nat | j < |inodes| && l < SLOTS
      ensures SlotOwns(d, inodes[j], own, j, l)
    {
      assert SlotOwns(data, inodes[j], owner, j, l);
    }
    forall x: nat | x < |own|
      ensures OwnerHolds(d, inodes, own, x)
    {
      assert OwnerHolds(data, inodes, owner, x);
      assert Addr(data, inodes[i], NDIRECT + 1 + e) == 0;
    }
  }

  lemma IndirectAddr(data: seq<Block>, inodes: seq<Dinode>, owner: seq<Owner>, i: nat, e: nat, b: nat, j: nat, l: nat)
    requires |data| == |owner| <= WORD && b < |data| && i < |inodes| && e < NINDIRECT && j < |inodes| && l < SLOTS
    requires forall i :: 0 <= i < |inodes| ==> |inodes[i].addrs| == NDIRECT + 1
    requires OwnsSlots(data, inodes, owner)
    requires 0 < inodes[i].addrs[NDIRECT] < |data|
    ensures var p := inodes[i].addrs[NDIRECT];
            Addr(data[p := PutWord(data[p], e, b)], inodes[j], l) ==
            if j == i && l == NDIRECT + 1 + e then b else Addr(data, inodes[j], l)
  {
    var p := inodes[i].addrs[NDIRECT];
    assert Addr(data, inodes[i], NDIRECT) == p && owner[p] == Slot(i, NDIRECT);
    assert Addr(data, inodes[j], NDIRECT) == p ==> j == i;
    WordRoundTrip(data[p], e, b);
    if l > NDIRECT && l != NDIRECT + 1 + e { WordOther(data[p], e, b, l - NDIRECT - 1); }
  }

  // ------------------------------------------------------------- files

  /** The number of blocks that hold `size` bytes. */
  function Blocks(size: nat): nat {
    (size + BSIZE - 1) / BSIZE
  }

  /** Exactly the first n blocks of the file are allocated, and the indirect block exactly if it is needed for them. */
  ghost predicate Dense(data: seq<Block>, ip: Dinode, n: nat)
    requires |ip.addrs| == NDIRECT + 1
  {
    && n <= MAXFILE
    && (forall bn: nat :: bn < MAXFILE ==> (Addr(data, ip, SlotOf(bn)) != 0 <==> bn < n))
    && (ip.addrs[NDIRECT] != 0 <==> n > NDIRECT)
  }

  /** A block slot is in use exactly when it lies below the file size rounded up to blocks. */
  ghost predicate NoHoles(data: seq<Block>, ip: Dinode)
    requires |ip.addrs| == NDIRECT + 1
  {
    ip.size <= MAXFILE * BSIZE && Dense(data, ip, Blocks(ip.size))
  }

  /** The x-th byte of the file. */
  function ByteAt(data: seq<Block>, ip: Dinode, x: nat): Byte
    requires |ip.addrs| == NDIRECT + 1 && x < MAXFILE * BSIZE
  {
    var a := Addr(data, ip, SlotOf(x / BSIZE));
    if a < |data| then data[a][x % BSIZE] else 0
  }

  function File(data: seq<Block>, ip: Dinode): (f: seq<Byte>)
    requires |ip.addrs| == NDIRECT + 1 && ip.size <= MAXFILE * BSIZE
    ensures |f| == ip.size
  {
    seq(ip.size, x requires 0 <= x < ip.size => ByteAt(data, ip, x))
  }

  /** f with the bytes s written at off, growing if need be. */
  function Splice(f: seq<Byte>, off: nat, s: seq<Byte>): seq<Byte>
    requires off <= |f|
  {
    if off + |s| <= |f| then f[..off] + s + f[off + |s|..] else f[..off] + s
  }

  // ------------------------------------------- what allocation leaves alone

  /** Blocks in use keep their owner, and their contents too unless they are inode i's indirect block;
      inode i's slots in use keep their block. */
  ghost predicate Extends(data: seq<Block>, ip: Dinode, owner: seq<Owner>,
                          data': seq<Block>, ip': Dinode, owner': seq<Owner>, i: nat)
    requires |ip.addrs| == NDIRECT + 1 && |ip'.addrs| == NDIRECT + 1
  {
    && |data'| == |owner'| == |data| == |owner|
    && ip' == ip.(addrs := ip'.addrs)
    && (forall b: nat :: b < |owner| && owner[b] != Free ==> owner'[b] == owner[b])
    && (forall b: nat :: b < |owner| && owner[b] != Free && owner[b] != Slot(i, NDIRECT) ==> data'[b] == data[b])
    && (forall k: nat :: k < SLOTS && Addr(data, ip, k) != 0 ==> Addr(data', ip', k) == Addr(data, ip, k))
  }

  lemma ExtendsTrans(data: seq<Block>, ip: Dinode, owner: seq<Owner>,
                     data': seq<Block>, ip': Dinode, owner': seq<Owner>,
                     data'': seq<Block>, ip'': Dinode, owner'': seq<Owner>, i: nat)
    requires |ip.addrs| == |ip'.addrs| == |ip''.addrs| == NDIRECT + 1
    requires Extends(data, ip, owner, data', ip', owner', i)
    requires Extends(data', ip', owner', data'', ip'', owner'', i)
    ensures Extends(data, ip, owner, data'', ip'', owner'', i)
  {
  }

  /** Giving inode i a new block in slot k <= NDIRECT. */
  lemma AssignExtends(data: seq<Block>, inodes: seq<Dinode>, owner: seq<Owner>, i: nat, k: nat, b: nat)
    requires |data| == |owner| && 0 < b < |data| && i < |inodes| && k <= NDIRECT
    requires forall i :: 0 <= i < |inodes| ==> |inodes[i].addrs| == NDIRECT + 1
    requires OwnsSlots(data, inodes, owner) && owner[b] == Free && inodes[i].addrs[k] == 0
    ensures var ip := inodes[i].(addrs := inodes[i].addrs[k := b]);
            && Extends(data, inodes[i], owner, data[b := ZERO], ip, owner[b := Slot(i, k)], i)
            && forall l: nat :: l < SLOTS ==>
                 Addr(data[b := ZERO], ip, l) == if l == k then b else Addr(data, inodes[i], l)
  {
    var ip := inodes[i].(addrs := inodes[i].addrs[k := b]);
    forall l: nat | l < SLOTS
      ensures Addr(data[b := ZERO], ip, l) == if l == k then b else Addr(data, inodes[i], l)
    {
      AddrFrame(data, inodes, owner, b, ZERO, i, l);
      if k == NDIRECT && l > NDIRECT { WordZero(l - NDIRECT - 1); }
    }
  }

  /** Giving inode i a new block in entry e of its indirect block. */
  lemma AssignIndirectExtends(data: seq<Block>, inodes: seq<Dinode>, owner: seq<Owner>, i: nat, e: nat, b: nat)
    requires |data| == |owner| <= WORD && 0 < b < |data| && i < |inodes| && e < NINDIRECT
    requires forall i :: 0 <= i < |inodes| ==> |inodes[i].addrs| == NDIRECT + 1
    requires OwnsSlots(data, inodes, owner) && owner[b] == Free
    requires 0 < inodes[i].addrs[NDIRECT] < |data| && GetWord(data[inodes[i].addrs[NDIRECT]], e) == 0
    ensures var p, z := inodes[i].addrs[NDIRECT], data[b := ZERO];
            var d := z[p := PutWord(z[p], e, b)];
            && Extends(data, inodes[i], owner, d, inodes[i], owner[b := Slot(i, NDIRECT + 1 + e)], i)
            && forall l: nat :: l < SLOTS ==>
                 Addr(d, inodes[i], l) == if l == NDIRECT + 1 + e then b else Addr(data, inodes[i], l)
  {
    var p, z := inodes[i].addrs[NDIRECT], data[b := ZERO];
    var d := z[p := PutWord(z[p], e, b)];
    OwnsDataWrite(data, inodes, owner, b, ZERO);
    assert Addr(data, inodes[i], NDIRECT) == p && owner[p] == Slot(i, NDIRECT);
    forall l: nat | l < SLOTS
      ensures Addr(d, inodes[i], l) == if l == NDIRECT + 1 + e then b else Addr(data, inodes[i], l)
    {
      AddrFrame(data, inodes, owner, b, ZERO, i, l);
      IndirectAddr(z, inodes, owner, i, e, b, i, l);
    }
  }

  lemma DenseNext(data: seq<Block>, ip: Dinode, data': seq<Block>, ip': Dinode, n: nat, b: nat)
    requires |ip.addrs| == NDIRECT + 1 && |ip'.addrs| == NDIRECT + 1
    requires Dense(data, ip, n) && n < MAXFILE && b != 0
    requires forall l: nat :: l < SLOTS && l != NDIRECT ==>
               Addr(data', ip', l) == if l == SlotOf(n) then b else Addr(data, ip, l)
    requires ip'.addrs[NDIRECT] != 0 <==> n >= NDIRECT
    ensures Dense(data', ip', n + 1)
  {
  }

  /** Inode i's slot k now holds b, and nothing else about its slots or the blocks in use has changed. */
  ghost predicate Fills(data: seq<Block>, ip: Dinode, owner: seq<Owner>,
                        data': seq<Block>, ip': Dinode, owner': seq<Owner>, i: nat, k: nat, b: nat)
    requires |ip.addrs| == NDIRECT + 1 && |ip'.addrs| == NDIRECT + 1
  {
    && Extends(data, ip, owner, data', ip', owner', i)
    && forall l: nat :: l < SLOTS ==> Addr(data', ip', l) == if l == k then b else Addr(data, ip, l)
  }

  /** The two allocations of an indirect block: first the pointer if needed, then the entry. */
  lemma FillsTwice(data: seq<Block>, ip: Dinode, owner: seq<Owner>,
                   data': seq<Block>, ip': Dinode, owner': seq<Owner>,
                   data'': seq<Block>, ip'': Dinode, owner'': seq<Owner>, i: nat, bn: nat, n: nat, p: nat, b: nat)
    requires |ip.addrs| == |ip'.addrs| == |ip''.addrs| == NDIRECT + 1
    requires NDIRECT <= bn < MAXFILE && bn <= n && p != 0 && b != 0
    requires Fills(data, ip, owner, data', ip', owner', i, NDIRECT, p)
    requires Fills(data', ip', owner', data'', ip'', owner'', i, bn + 1, b)
    requires Dense(data, ip, n)
    ensures Extends(data, ip, owner, data'', ip'', owner'', i)
    ensures Dense(data'', ip'', if bn < n then n else n + 1)
  {
    ExtendsTrans(data, ip, owner, data', ip', owner', data'', ip'', owner'', i);
    assert Addr(data'', ip'', NDIRECT) == p;
    if bn == n {
      DenseNext(data, ip, data'', ip'', n, b);
    } else {
      assert Addr(data, ip, SlotOf(bn)) != 0;
    }
  }

  /** Another inode's file is untouched when inode i is extended. */
  lemma OtherFile(data: seq<Block>, inodes: seq<Dinode>, owner: seq<Owner>, data': seq<Block>,
                  i: nat, j: nat, x: nat)
    requires |data'| == |data| == |owner| && i < |inodes| && j < |inodes| && i != j && x < MAXFILE * BSIZE
    requires forall i :: 0 <= i < |inodes| ==> |inodes[i].addrs| == NDIRECT + 1
    requires OwnsSlots(data, inodes, owner)
    requires forall b: nat :: b < |owner| && owner[b].Slot? && owner[b].inum == j ==> data'[b] == data[b]
    requires Addr(data, inodes[j], SlotOf(x / BSIZE)) != 0
    ensures ByteAt(data', inodes[j], x) == ByteAt(data, inodes[j], x)
  {
    var k := SlotOf(x / BSIZE);
    var p, a := Addr(data, inodes[j], NDIRECT), Addr(data, inodes[j], k);
    assert SlotOwns(data, inodes[j], owner, j, NDIRECT) && SlotOwns(data, inodes[j], owner, j, k);
    assert Addr(data', inodes[j], k) == a;
  }

  /** One block of a write: m bytes at byte o of the file's block bn. */
  function Patch(b: Block, o: nat, s: seq<Byte>): Block
    requires o + |s| <= BSIZE
  {
    b[..o] + s + b[o + |s|..]
  }

  lemma PatchAt(b: Block, o: nat, s: seq<Byte>, y: nat)
    requires o + |s| <= BSIZE && y < BSIZE
    ensures Patch(b, o, s)[y] == if o <= y < o + |s| then s[y - o] else b[y]
  {
  }

  /** Patching the file's block bn changes exactly the bytes it covers. */
  lemma PatchByte(data: seq<Block>, inodes: seq<Dinode>, owner: seq<Owner>, i: nat, bn: nat, o: nat, s: seq<Byte>,
                  x: nat)
    requires |data| == |owner| && i < |inodes| && bn < MAXFILE && o + |s| <= BSIZE && x < MAXFILE * BSIZE
    requires forall i :: 0 <= i < |inodes| ==> |inodes[i].addrs| == NDIRECT + 1
    requires OwnsSlots(data, inodes, owner)
    requires var a := Addr(data, inodes[i], SlotOf(bn)); 0 < a < |data|
    requires Addr(data, inodes[i], SlotOf(x / BSIZE)) != 0
    ensures var a := Addr(data, inodes[i], SlotOf(bn));
            ByteAt(data[a := Patch(data[a], o, s)], inodes[i], x) ==
            if bn * BSIZE + o <= x < bn * BSIZE + o + |s| then s[x - bn * BSIZE - o] else ByteAt(data, inodes[i], x)
  {
    var a := Addr(data, inodes[i], SlotOf(bn));
    var v := Patch(data[a], o, s);
    var c := Addr(data, inodes[i], SlotOf(x / BSIZE));
    assert SlotOwns(data, inodes[i], owner, i, SlotOf(bn)) && SlotOwns(data, inodes[i], owner, i, SlotOf(x / BSIZE));
    AddrFrame(data, inodes, owner, a, v, i, SlotOf(x / BSIZE));
    assert c == a <==> x / BSIZE == bn;
    PatchAt(data[a], o, s, x % BSIZE);
  }

  // ------------------------------------------------------------- writing

  /** Bytes s have been written at pos of inode i's file, whose first n blocks were allocated: other bytes of the file,
      other inodes' blocks and all owners are as before. */
  ghost predicate Wrote(data: seq<Block>, ip: Dinode, owner: seq<Owner>,
                        data': seq<Block>, ip': Dinode, owner': seq<Owner>, i: nat, pos: nat, s: seq<Byte>, n: nat)
    requires |ip.addrs| == NDIRECT + 1 && |ip'.addrs| == NDIRECT + 1
  {
    && |data'| == |owner'| == |data| == |owner|
    && ip' == ip.(addrs := ip'.addrs)
    && (forall b: nat :: b < |owner| && owner[b] != Free ==> owner'[b] == owner[b])
    && (forall b: nat :: b < |owner| && owner[b].Slot? && owner[b].inum != i ==> data'[b] == data[b])
    && (forall x: nat :: x < MAXFILE * BSIZE && (x / BSIZE < n || pos <= x < pos + |s|) ==>
          ByteAt(data', ip', x) == if pos <= x < pos + |s| then s[x - pos] else ByteAt(data, ip, x))
  }

  lemma WroteNothing(data: seq<Block>, ip: Dinode, owner: seq<Owner>, i: nat, pos: nat, n: nat)
    requires |ip.addrs| == NDIRECT + 1 && |data| == |owner|
    ensures Wrote(data, ip, owner, data, ip, owner, i, pos, [], n)
  {
  }

  /** Two writes in a row are one write of both pieces. */
  lemma WroteAppend(data: seq<Block>, ip: Dinode, owner: seq<Owner>,
                    data': seq<Block>, ip': Dinode, owner': seq<Owner>,
                    data'': seq<Block>, ip'': Dinode, owner'': seq<Owner>,
                    i: nat, pos: nat, s: seq<Byte>, t: seq<Byte>, n: nat, n': nat)
    requires |ip.addrs| == |ip'.addrs| == |ip''.addrs| == NDIRECT + 1
    requires n <= n' && Blocks(pos + |s|) <= n'
    requires Wrote(data, ip, owner, data', ip', owner', i, pos, s, n)
    requires Wrote(data', ip', owner', data'', ip'', owner'', i, pos + |s|, t, n')
    ensures Wrote(data, ip, owner, data'', ip'', owner'', i, pos, s + t, n)
  {
    forall x: nat | x < MAXFILE * BSIZE && (x / BSIZE < n || pos <= x < pos + |s + t|)
      ensures ByteAt(data'', ip'', x) == if pos <= x < pos + |s + t| then (s + t)[x - pos] else ByteAt(data, ip, x)
    {
      assert pos <= x < pos + |s| ==> x / BSIZE < Blocks(pos + |s|);
    }
  }

  /** Allocation changes no byte of the blocks the file already had. */
  lemma ExtendsByte(data: seq<Block>, inodes: seq<Dinode>, owner: seq<Owner>,
                    data': seq<Block>, ip': Dinode, owner': seq<Owner>, i: nat, x: nat)
    requires |data| == |owner| && i < |inodes| && x < MAXFILE * BSIZE && |ip'.addrs| == NDIRECT + 1
    requires forall i :: 0 <= i < |inodes| ==> |inodes[i].addrs| == NDIRECT + 1
    requires OwnsSlots(data, inodes, owner)
    requires Extends(data, inodes[i], owner, data', ip', owner', i)
    requires Addr(data, inodes[i], SlotOf(x / BSIZE)) != 0
    ensures ByteAt(data', ip', x) == ByteAt(data, inodes[i], x)
  {
    var k := SlotOf(x / BSIZE);
    assert SlotOwns(data, inodes[i], owner, i, k);
    assert Addr(data', ip', k) == Addr(data, inodes[i], k);
  }

  /** Allocating block bn if need be and then patching it is a write. */
  lemma PatchWrote(data: seq<Block>, inodes: seq<Dinode>, owner: seq<Owner>, n: nat,
                   data': seq<Block>, inodes': seq<Dinode>, owner': seq<Owner>, n': nat,
                   i: nat, bn: nat, o: nat, s: seq<Byte>)
    requires |data| == |owner| && |data'| == |owner'| && i < |inodes| == |inodes'|
    requires forall i :: 0 <= i < |inodes| ==> |inodes[i].addrs| == NDIRECT + 1 && |inodes'[i].addrs| == NDIRECT + 1
    requires OwnsSlots(data, inodes, owner) && Dense(data, inodes[i], n)
    requires OwnsSlots(data', inodes', owner') && Dense(data', inodes'[i], n')
    requires Extends(data, inodes[i], owner, data', inodes'[i], owner', i)
    requires n <= n' && bn < n' && o + |s| <= BSIZE
    requires var a := Addr(data', inodes'[i], SlotOf(bn)); 0 < a < |data'| && owner'[a] == Slot(i, SlotOf(bn))
    ensures var a := Addr(data', inodes'[i], SlotOf(bn));
            Wrote(data, inodes[i], owner, data'[a := Patch(data'[a], o, s)], inodes'[i], owner', i, bn * BSIZE + o, s,
                n)
  {
    var a, pos := Addr(data', inodes'[i], SlotOf(bn)), bn * BSIZE + o;
    var e := data'[a := Patch(data'[a], o, s)];
    forall x: nat | x < MAXFILE * BSIZE && (x / BSIZE < n || pos <= x < pos + |s|)
      ensures ByteAt(e, inodes'[i], x) ==
              if pos <= x < pos + |s| then s[x - pos] else ByteAt(data, inodes[i], x)
    {
      PatchWroteByte(data, inodes, owner, n, data', inodes', owner', n', i, bn, o, s, x);
    }
    forall b: nat | b < |owner| && owner[b].Slot? && owner[b].inum != i
      ensures e[b] == data[b]
    {
      assert owner'[b] == owner[b];
    }
  }

  lemma PatchWroteByte(data: seq<Block>, inodes: seq<Dinode>, owner: seq<Owner>, n: nat,
                       data': seq<Block>, inodes': seq<Dinode>, owner': seq<Owner>, n': nat,
                       i: nat, bn: nat, o: nat, s: seq<Byte>, x: nat)
    requires |data| == |owner| && |data'| == |owner'| && i < |inodes| == |inodes'|
    requires forall i :: 0 <= i < |inodes| ==> |inodes[i].addrs| == NDIRECT + 1 && |inodes'[i].addrs| == NDIRECT + 1
    requires OwnsSlots(data, inodes, owner) && Dense(data, inodes[i], n)
    requires OwnsSlots(data', inodes', owner') && Dense(data', inodes'[i], n')
    requires Extends(data, inodes[i], owner, data', inodes'[i], owner', i)
    requires n <= n' && bn < n' && o + |s| <= BSIZE
    requires var a := Addr(data', inodes'[i], SlotOf(bn)); 0 < a < |data'|
    requires x < MAXFILE * BSIZE && (x / BSIZE < n || bn * BSIZE + o <= x < bn * BSIZE + o + |s|)
    ensures var a, pos := Addr(data', inodes'[i], SlotOf(bn)), bn * BSIZE + o;
            ByteAt(data'[a := Patch(data'[a], o, s)], inodes'[i], x) ==
            if pos <= x < pos + |s| then s[x - pos] else ByteAt(data, inodes[i], x)
  {
    hide OwnsSlots, GetWord;
    assert Addr(data', inodes'[i], SlotOf(x / BSIZE)) != 0;
    PatchByte(data', inodes', owner', i, bn, o, s, x);
    if x / BSIZE < n {
      assert Addr(data, inodes[i], SlotOf(x / BSIZE)) != 0;
      ExtendsByte(data, inodes, owner, data', inodes'[i], owner', i, x);
    }
  }

  /** A finished write splices the bytes into the file. */
  lemma WroteIsSplice(data: seq<Block>, ip: Dinode, owner: seq<Owner>,
                      data': seq<Block>, ip': Dinode, owner': seq<Owner>, i: nat, off: nat, s: seq<Byte>)
    requires |ip.addrs| == NDIRECT + 1 && |ip'.addrs| == NDIRECT + 1
    requires off <= ip.size && ip.size <= MAXFILE * BSIZE && off + |s| <= MAXFILE * BSIZE
    requires Wrote(data, ip, owner, data', ip', owner', i, off, s, Blocks(ip.size))
    ensures var size := if off + |s| > ip.size then off + |s| else ip.size;
            File(data', ip'.(size := size)) == Splice(File(data, ip), off, s)
  {
    var size := if off + |s| > ip.size then off + |s| else ip.size;
    var f, g := File(data', ip'.(size := size)), Splice(File(data, ip), off, s);
    hide File, ByteAt, Blocks, Wrote;
    assert |f| == |g|;
    forall x: nat | x < |f|
      ensures f[x] == g[x]
    {
      WroteIsSpliceAt(data, ip, owner, data', ip', owner', i, off, s, x);
    }
  }

  lemma WroteIsSpliceAt(data: seq<Block>, ip: Dinode, owner: seq<Owner>,
                        data': seq<Block>, ip': Dinode, owner': seq<Owner>, i: nat, off: nat, s: seq<Byte>, x: nat)
    requires |ip.addrs| == NDIRECT + 1 && |ip'.addrs| == NDIRECT + 1
    requires off <= ip.size && ip.size <= MAXFILE * BSIZE && off + |s| <= MAXFILE * BSIZE
    requires Wrote(data, ip, owner, data', ip', owner', i, off, s, Blocks(ip.size))
    requires x < ip.size || x < off + |s|
    ensures var size := if off + |s| > ip.size then off + |s| else ip.size;
            File(data', ip'.(size := size))[x] == Splice(File(data, ip), off, s)[x]
  {
    hide File, Splice, ByteAt, Blocks;
    var size := if off + |s| > ip.size then off + |s| else ip.size;
    ByteAtSize(data', ip', size, x);
    FileAt(data', ip'.(size := size), x);
    SpliceAt(File(data, ip), off, s, x);
    if x < ip.size {
      BelowBlocks(x, ip.size);
      FileAt(data, ip, x);
    }
  }

  lemma FileAt(data: seq<Block>, ip: Dinode, x: nat)
    requires |ip.addrs| == NDIRECT + 1 && x < ip.size <= MAXFILE * BSIZE
    ensures File(data, ip)[x] == ByteAt(data, ip, x)
  {
  }

  lemma SpliceAt(f: seq<Byte>, off: nat, s: seq<Byte>, x: nat)
    requires off <= |f| && (x < |f| || x < off + |s|)
    ensures |Splice(f, off, s)| == if off + |s| > |f| then off + |s| else |f|
    ensures Splice(f, off, s)[x] == if off <= x < off + |s| then s[x - off] else f[x]
  {
  }

  lemma BelowBlocks(x: nat, size: nat)
    requires x < size
    ensures x / BSIZE < Blocks(size)
  {
  }

  lemma ByteAtSize(data: seq<Block>, ip: Dinode, size: nat, x: nat)
    requires |ip.addrs| == NDIRECT + 1 && x < MAXFILE * BSIZE
    ensures ByteAt(data, ip.(size := size), x) == ByteAt(data, ip, x)
  {
  }

  /** A write to inode i leaves inode j's slots, density and contents alone. */
  lemma OthersKeep(data: seq<Block>, inodes: seq<Dinode>, owner: seq<Owner>, data': seq<Block>, i: nat, j: nat)
    requires |data'| == |data| == |owner| && j < |inodes| && i != j
    requires forall i :: 0 <= i < |inodes| ==> |inodes[i].addrs| == NDIRECT + 1
    requires OwnsSlots(data, inodes, owner) && NoHoles(data, inodes[j])
    requires forall b: nat :: b < |owner| && owner[b].Slot? && owner[b].inum != i ==> data'[b] == data[b]
    ensures NoHoles(data', inodes[j]) && File(data', inodes[j]) == File(data, inodes[j])
  {
    var p := Addr(data, inodes[j], NDIRECT);
    assert SlotOwns(data, inodes[j], owner, j, NDIRECT);
    assert forall k: nat :: k < SLOTS ==> Addr(data', inodes[j], k) == Addr(data, inodes[j], k);
    forall x: nat | x < inodes[j].size
      ensures ByteAt(data', inodes[j], x) == ByteAt(data, inodes[j], x)
    {
      assert SlotOwns(data, inodes[j], owner, j, SlotOf(x / BSIZE));
      assert x / BSIZE < Blocks(inodes[j].size);
    }
  }

  lemma WroteOthers(data: seq<Block>, inodes: seq<Dinode>, owner: seq<Owner>,
                    data': seq<Block>, ip': Dinode, owner': seq<Owner>, i: nat, off: nat, s: seq<Byte>, n: nat)
    requires |data| == |owner| && i < |inodes|
    requires forall i :: 0 <= i < |inodes| ==> |inodes[i].addrs| == NDIRECT + 1
    requires OwnsSlots(data, inodes, owner) && |ip'.addrs| == NDIRECT + 1
    requires forall j :: 0 <= j < |inodes| ==> NoHoles(data, inodes[j])
    requires Wrote(data, inodes[i], owner, data', ip', owner', i, off, s, n)
    ensures forall j :: 0 <= j < |inodes| && j != i ==>
              NoHoles(data', inodes[j]) && File(data', inodes[j]) == File(data, inodes[j])
  {
    hide OwnsSlots, Dense, File, ByteAt;
    forall j | 0 <= j < |inodes| && j != i
      ensures NoHoles(data', inodes[j]) && File(data', inodes[j]) == File(data, inodes[j])
    {
      OthersKeep(data, inodes, owner, data', i, j);
    }
  }

  lemma DenseSize(data: seq<Block>, ip: Dinode, n: nat, size: nat)
    requires |ip.addrs| == NDIRECT + 1 && Dense(data, ip, n)
    ensures Dense(data, ip.(size := size), n)
  {
    assert forall k: nat :: k < SLOTS ==> Addr(data, ip.(size := size), k) == Addr(data, ip, k);
  }

  lemma OwnsSize(data: seq<Block>, inodes: seq<Dinode>, owner: seq<Owner>, i: nat, ip: Dinode)
    requires |data| == |owner| && i < |inodes| && ip.addrs == inodes[i].addrs
    requires forall i :: 0 <= i < |inodes| ==> |inodes[i].addrs| == NDIRECT + 1
    requires OwnsSlots(data, inodes, owner)
    ensures OwnsSlots(data, inodes[i := ip], owner)
  {
    var nodes := inodes[i := ip];
    forall j: nat, k: nat | j < |nodes| && k < SLOTS
      ensures SlotOwns(data, nodes[j], owner, j, k)
    {
      assert SlotOwns(data, inodes[j], owner, j, k);
    }
    forall b: nat | b < |owner|
      ensures OwnerHolds(data, nodes, owner, b)
    {
      assert OwnerHolds(data, inodes, owner, b);
    }
  }

  lemma SpliceLength(f: seq<Byte>, off: nat, s: seq<Byte>)
    requires off <= |f|
    ensures |Splice(f, off, s)| == if off + |s| > |f| then off + |s| else |f|
  {
  }

  lemma SpliceSplice(f: seq<Byte>, off: nat, s: seq<Byte>, t: seq<Byte>)
    requires off <= |f|
    ensures off + |s| <= |Splice(f, off, s)|
    ensures Splice(Splice(f, off, s), off + |s|, t) == Splice(f, off, s + t)
  {
    hide Splice;
    SpliceLength(f, off, s);
    var e := Splice(f, off, s);
    SpliceLength(e, off + |s|, t);
    SpliceLength(f, off, s + t);
    forall x: nat | x < |Splice(f, off, s + t)|
      ensures Splice(e, off + |s|, t)[x] == Splice(f, off, s + t)[x]
    {
      SpliceAt(e, off + |s|, t, x);
      SpliceAt(f, off, s + t, x);
      if x < |e| { SpliceAt(f, off, s, x); }
    }
  }

  lemma SpliceNothing(f: seq<Byte>, off: nat)
    requires off <= |f|
    ensures Splice(f, off, []) == f
  {
  }

  // ---------------------------------------------------------- truncation

  /** The blocks that inode i held in slots lo..hi-1 have become free; no other owner has changed. */
  ghost predicate Freed(owner: seq<Owner>, owner': seq<Owner>, i: nat, lo: nat, hi: nat) {
    && |owner'| == |owner|
    && forall b: nat :: b < |owner| ==>
         owner'[b] == if owner[b].Slot? && owner[b].inum == i && lo <= owner[b].k < hi then Free else owner[b]
  }

  /** a is the one block that inode i's slot k holds, if any. */
  ghost predicate Holds(owner: seq<Owner>, i: nat, k: nat, a: nat) {
    && (a != 0 ==> a < |owner| && owner[a] == Slot(i, k))
    && (forall b: nat :: b < |owner| && owner[b].Slot? && owner[b].inum == i && owner[b].k == k ==> b == a != 0)
  }

  lemma SlotHolds(data: seq<Block>, inodes: seq<Dinode>, owner: seq<Owner>, i: nat, k: nat)
    requires |data| == |owner| && i < |inodes| && k < SLOTS
    requires forall i :: 0 <= i < |inodes| ==> |inodes[i].addrs| == NDIRECT + 1
    requires OwnsSlots(data, inodes, owner)
    ensures Holds(owner, i, k, Addr(data, inodes[i], k))
  {
    assert SlotOwns(data, inodes[i], owner, i, k);
    forall b: nat | b < |owner| && owner[b].Slot? && owner[b].inum == i && owner[b].k == k
      ensures b == Addr(data, inodes[i], k) != 0
    {
      assert OwnerHolds(data, inodes, owner, b);
    }
  }

  /** Freeing other slots does not disturb slot k. */
  lemma HoldsFreed(owner: seq<Owner>, owner': seq<Owner>, i: nat, lo: nat, hi: nat, k: nat, a: nat)
    requires Holds(owner, i, k, a) && Freed(owner, owner', i, lo, hi) && !(lo <= k < hi)
    ensures Holds(owner', i, k, a)
  {
  }

  /** Freeing the block of one more slot. */
  lemma FreedNext(owner: seq<Owner>, owner': seq<Owner>, i: nat, lo: nat, k: nat, a: nat)
    requires lo <= k && Freed(owner, owner', i, lo, k) && Holds(owner, i, k, a)
    ensures a == 0 ==> Freed(owner, owner', i, lo, k + 1)
    ensures a != 0 ==> a < |owner'| && owner'[a] == Slot(i, k) && Freed(owner, owner'[a := Free], i, lo, k + 1)
  {
  }

  lemma FreedAll(o0: seq<Owner>, o1: seq<Owner>, o2: seq<Owner>, o3: seq<Owner>, i: nat)
    requires Freed(o0, o1, i, 0, NDIRECT) && Freed(o1, o2, i, NDIRECT + 1, SLOTS)
             && Freed(o2, o3, i, NDIRECT, NDIRECT + 1)
    ensures Freed(o0, o3, i, 0, SLOTS)
  {
  }

  /** The inode that itrunc leaves. */
  function Emptied(ip: Dinode): Dinode {
    ip.(size := 0, addrs := seq(NDIRECT + 1, _ => 0))
  }

  /** With all of inode i's blocks freed and its addresses cleared, every remaining slot still owns its block. */
  lemma TruncOwns(data: seq<Block>, inodes: seq<Dinode>, owner: seq<Owner>, owner': seq<Owner>, i: nat)
    requires |data| == |owner| && i < |inodes|
    requires forall i :: 0 <= i < |inodes| ==> |inodes[i].addrs| == NDIRECT + 1
    requires OwnsSlots(data, inodes, owner) && Freed(owner, owner', i, 0, SLOTS)
    ensures OwnsSlots(data, inodes[i := Emptied(inodes[i])], owner') && NoHoles(data, Emptied(inodes[i]))
    ensures |owner'| == |owner|
    ensures forall b: nat :: b < |owner| ==>
              owner'[b] == if owner[b].Slot? && owner[b].inum == i then Free else owner[b]
  {
    assert Blocks(0) == 0;
    forall b: nat | b < |owner| && owner[b].Slot?
      ensures owner[b].k < SLOTS
    {
      assert OwnerHolds(data, inodes, owner, b);
    }
    var nodes := inodes[i := Emptied(inodes[i])];
    forall j: nat, k: nat | j < |nodes| && k < SLOTS
      ensures SlotOwns(data, nodes[j], owner', j, k)
    {
      assert SlotOwns(data, inodes[j], owner, j, k);
    }
    forall b: nat | b < |owner'|
      ensures OwnerHolds(data, nodes, owner', b)
    {
      assert OwnerHolds(data, inodes, owner, b);
    }
  }
}

/** Blocks of a heap, addressed in header units, and the ordered list of free ones. */
module FreeList {

  datatype Block = Block(addr: int, size: nat)

  function End(b: Block): int { b.addr + b.size }

  predicate In(b: Block, x: int) { b.addr <= x < End(b) }

  ghost predicate Covered(s: seq<Block>, x: int) {
    exists k :: 0 <= k < |s| && In(s[k], x)
  }

  /** Position 0 is the permanent empty block; the rest are in address order with a gap between any two. */
  ghost predicate Ordered(fl: seq<Block>) {
    && |fl| > 0 && fl[0].size == 0
    && (forall i :: 0 < i < |fl| ==> fl[i].size > 0)
    && (forall i, j :: 0 <= i < j < |fl| ==> End(fl[i]) < fl[j].addr)
  }

  function Units(s: seq<Block>): nat {
    if s == [] then 0 else s[0].size + Units(s[1..])
  }

  lemma {:induction false} UnitsConcat(s: seq<Block>, t: seq<Block>)
    ensures Units(s + t) == Units(s) + Units(t)
  {
    if s == [] {
      assert s + t == t;
    } else {
      assert (s + t)[1..] == s[1..] + t;
      UnitsConcat(s[1..], t);
    }
  }

  lemma UnitsAround(s: seq<Block>, t: seq<Block>, u: seq<Block>)
    ensures Units(s + t + u) == Units(s) + Units(t) + Units(u)
  {
    UnitsConcat(s + t, u);
    UnitsConcat(s, t);
  }

  /** The blocks from position a up to c become m. */
  function Replace(fl: seq<Block>, a: nat, c: nat, m: Block): seq<Block>
    requires a <= c <= |fl|
  {
    fl[..a] + [m] + fl[c..]
  }

  lemma ReplaceOrdered(fl: seq<Block>, a: nat, c: nat, m: Block)
    requires Ordered(fl) && 0 < a <= c <= |fl| && m.size > 0
    requires End(fl[a - 1]) < m.addr && (c < |fl| ==> End(m) < fl[c].addr)
    ensures Ordered(Replace(fl, a, c, m))
  {
    var r := Replace(fl, a, c, m);
    forall i, j | 0 <= i < j < |r|
      ensures End(r[i]) < r[j].addr
    {
      if i < a { assert i < a - 1 ==> End(fl[i]) < fl[a - 1].addr; }
      if j > a { assert r[j] == fl[c + (j - a - 1)]; }
      if i > a { assert r[i] == fl[c + (i - a - 1)]; }
    }
  }

  lemma ReplaceUnits(fl: seq<Block>, a: nat, c: nat, m: Block)
    requires a <= c <= |fl|
    ensures Units(Replace(fl, a, c, m)) + Units(fl[a..c]) == Units(fl) + m.size
  {
    assert fl == fl[..a] + fl[a..c] + fl[c..];
    UnitsAround(fl[..a], fl[a..c], fl[c..]);
    UnitsAround(fl[..a], [m], fl[c..]);
  }

  lemma CoveredConcat(s: seq<Block>, t: seq<Block>, x: int)
    ensures Covered(s + t, x) <==> Covered(s, x) || Covered(t, x)
  {
    if Covered(s, x) {
      var k :| 0 <= k < |s| && In(s[k], x);
      assert In((s + t)[k], x);
    }
    if Covered(t, x) {
      var k :| 0 <= k < |t| && In(t[k], x);
      assert In((s + t)[|s| + k], x);
    }
  }

  lemma ReplaceCovered(fl: seq<Block>, a: nat, c: nat, m: Block, x: int)
    requires a <= c <= |fl|
    ensures Covered(Replace(fl, a, c, m), x) <==> Covered(fl[..a], x) || In(m, x) || Covered(fl[c..], x)
    ensures Covered(fl, x) <==> Covered(fl[..a], x) || Covered(fl[a..c], x) || Covered(fl[c..], x)
  {
    hide Covered;
    CoveredConcat(fl[..a] + [m], fl[c..], x);
    CoveredConcat(fl[..a], [m], x);
    CoveredOne(m, x);
    assert fl == fl[..a] + fl[a..c] + fl[c..];
    CoveredConcat(fl[..a] + fl[a..c], fl[c..], x);
    CoveredConcat(fl[..a], fl[a..c], x);
  }

  lemma CoveredOne(b: Block, x: int)
    ensures Covered([b], x) <==> In(b, x)
    ensures !Covered([], x)
  {
    if In(b, x) { assert In([b][0], x); }
  }

  // ---------------------------------------------------------------- freeing

  /** Block b goes right after position i, merged with its neighbours where it touches them. */
  function Insert(fl: seq<Block>, i: nat, b: Block): seq<Block>
    requires i < |fl|
  {
    var up := i + 1 < |fl| && End(b) == fl[i + 1].addr;
    var low := End(fl[i]) == b.addr;
    Replace(fl, if low then i else i + 1, if up then i + 2 else i + 1,
            Block(if low then fl[i].addr else b.addr,
                  (if low then fl[i].size else 0) + b.size + (if up then fl[i + 1].size else 0)))
  }

  /** Position i is where b belongs. */
  ghost predicate Belongs(fl: seq<Block>, i: nat, b: Block) {
    && i < |fl| && b.size > 0 && fl[i].addr < b.addr && End(fl[i]) <= b.addr
    && (i + 1 < |fl| ==> End(b) <= fl[i + 1].addr)
  }

  lemma InsertOrdered(fl: seq<Block>, i: nat, b: Block)
    requires Ordered(fl) && Belongs(fl, i, b)
    ensures Ordered(Insert(fl, i, b)) && Insert(fl, i, b)[0] == fl[0]
  {
    hide Ordered;
    var up := i + 1 < |fl| && End(b) == fl[i + 1].addr;
    var low := End(fl[i]) == b.addr;
    var a, c := if low then i else i + 1, if up then i + 2 else i + 1;
    var m := Block(if low then fl[i].addr else b.addr,
                   (if low then fl[i].size else 0) + b.size + (if up then fl[i + 1].size else 0));
    OrderedAt(fl);
    ReplaceOrdered(fl, a, c, m);
  }

  lemma OrderedAt(fl: seq<Block>)
    requires Ordered(fl)
    ensures |fl| > 0 && fl[0].size == 0
    ensures forall i :: 0 < i < |fl| ==> End(fl[i - 1]) < fl[i].addr
  {
  }

  lemma InsertUnits(fl: seq<Block>, i: nat, b: Block)
    requires i < |fl|
    ensures Units(Insert(fl, i, b)) == Units(fl) + b.size
  {
    var up := i + 1 < |fl| && End(b) == fl[i + 1].addr;
    var low := End(fl[i]) == b.addr;
    var a, c := if low then i else i + 1, if up then i + 2 else i + 1;
    ReplaceUnits(fl, a, c, Insert(fl, i, b)[a]);
    SliceUnits(fl, a, c);
  }

  lemma SliceUnits(fl: seq<Block>, a: nat, c: nat)
    requires a <= c <= |fl| && c <= a + 2
    ensures c == a ==> Units(fl[a..c]) == 0
    ensures c == a + 1 ==> Units(fl[a..c]) == fl[a].size
    ensures c == a + 2 ==> Units(fl[a..c]) == fl[a].size + fl[a + 1].size
  {
    if c == a + 1 { assert fl[a..c] == [fl[a]]; }
    if c == a + 2 {
      assert fl[a..c] == [fl[a]] + [fl[a + 1]];
      UnitsConcat([fl[a]], [fl[a + 1]]);
    }
  }

  /** Exactly the units of b join the free ones. */
  lemma InsertCovered(fl: seq<Block>, i: nat, b: Block, x: int)
    requires i < |fl|
    ensures Covered(Insert(fl, i, b), x) <==> Covered(fl, x) || In(b, x)
  {
    hide Covered;
    var up := i + 1 < |fl| && End(b) == fl[i + 1].addr;
    var low := End(fl[i]) == b.addr;
    var a, c := if low then i else i + 1, if up then i + 2 else i + 1;
    ReplaceCovered(fl, a, c, Insert(fl, i, b)[a], x);
    SliceCovered(fl, a, c, x);
  }

  lemma SliceCovered(fl: seq<Block>, a: nat, c: nat, x: int)
    requires a <= c <= |fl| && c <= a + 2
    ensures c == a ==> !Covered(fl[a..c], x)
    ensures c == a + 1 ==> (Covered(fl[a..c], x) <==> In(fl[a], x))
    ensures c == a + 2 ==> (Covered(fl[a..c], x) <==> In(fl[a], x) || In(fl[a + 1], x))
  {
    hide Covered;
    if c == a {
      assert fl[a..c] == [];
      CoveredOne(Block(0, 0), x);
    }
    if c == a + 1 {
      assert fl[a..c] == [fl[a]];
      CoveredOne(fl[a], x);
    }
    if c == a + 2 {
      assert fl[a..c] == [fl[a]] + [fl[a + 1]];
      CoveredConcat([fl[a]], [fl[a + 1]], x);
      CoveredOne(fl[a], x);
      CoveredOne(fl[a + 1], x);
    }
  }

  // ------------------------------------------------------------- allocating

  /** The last n units of block i. */
  function Tail(b: Block, n: nat): Block
    requires n <= b.size
  {
    Block(End(b) - n, n)
  }

  /** What is left of the free list without them. */
  function Take(fl: seq<Block>, i: nat, n: nat): seq<Block>
    requires i < |fl| && n <= fl[i].size
  {
    if fl[i].size == n then fl[..i] + fl[i + 1..] else fl[i := Block(fl[i].addr, fl[i].size - n)]
  }

  lemma TakeOrdered(fl: seq<Block>, i: nat, n: nat)
    requires Ordered(fl) && 0 < i < |fl| && 0 < n <= fl[i].size
    ensures Ordered(Take(fl, i, n)) && Take(fl, i, n)[0] == fl[0]
  {
  }

  lemma TakeUnits(fl: seq<Block>, i: nat, n: nat)
    requires i < |fl| && n <= fl[i].size
    ensures Units(Take(fl, i, n)) + n == Units(fl)
  {
    hide Units;
    SliceUnits(fl, i, i + 1);
    if fl[i].size == n {
      assert fl == fl[..i] + fl[i..i + 1] + fl[i + 1..];
      UnitsAround(fl[..i], fl[i..i + 1], fl[i + 1..]);
      UnitsConcat(fl[..i], fl[i + 1..]);
    } else {
      var m := Block(fl[i].addr, fl[i].size - n);
      assert fl[i := m] == Replace(fl, i, i + 1, m);
      ReplaceUnits(fl, i, i + 1, m);
    }
  }

  /** No unit is in two free blocks. */
  lemma OnlyOne(fl: seq<Block>, i: nat, x: int)
    requires Ordered(fl) && i < |fl| && In(fl[i], x)
    ensures !Covered(fl[..i], x) && !Covered(fl[i + 1..], x)
  {
  }

  /** Exactly the units of the tail leave the free ones. */
  lemma TakeCovered(fl: seq<Block>, i: nat, n: nat, x: int)
    requires Ordered(fl) && 0 < i < |fl| && 0 < n <= fl[i].size
    ensures Covered(fl, x) <==> Covered(Take(fl, i, n), x) || In(Tail(fl[i], n), x)
    ensures !(Covered(Take(fl, i, n), x) && In(Tail(fl[i], n), x))
  {
    hide Covered, Ordered;
    var m := Block(fl[i].addr, fl[i].size - n);
    ReplaceCovered(fl, i, i + 1, m, x);
    SliceCovered(fl, i, i + 1, x);
    if In(fl[i], x) { OnlyOne(fl, i, x); }
    if fl[i].size == n {
      CoveredConcat(fl[..i], fl[i + 1..], x);
    } else {
      assert fl[i := m] == Replace(fl, i, i + 1, m);
    }
  }

  /** Freeing what was just taken restores the list. */
  lemma TakeThenInsert(fl: seq<Block>, i: nat, n: nat)
    requires Ordered(fl) && 0 < i < |fl| && 0 < n <= fl[i].size
    ensures var home := if fl[i].size == n then i - 1 else i;
            && Belongs(Take(fl, i, n), home, Tail(fl[i], n))
            && Insert(Take(fl, i, n), home, Tail(fl[i], n)) == fl
  {
    hide Ordered;
    OrderedAt(fl);
  }

  // ----------------------------------------------------------- circular scan

  /** The position after i on a circle of n. */
  function Next(n: nat, i: nat): (r: nat)
    requires i < n
    ensures r < n
  {
    if i + 1 == n then 0 else i + 1
  }

  /** Steps round the circle from i to stop. */
  function Distance(n: nat, i: nat, stop: nat): (r: nat)
    requires i < n && stop < n
    ensures r < n && (r == 0 <==> i == stop)
  {
    if i <= stop then stop - i else n - i + stop
  }

  /** First position after i, round the circle and ending with stop, that holds n units; the length if none does. */
  function NextFit(fl: seq<Block>, i: nat, stop: nat, n: nat): (r: nat)
    requires i < |fl| && stop < |fl|
    ensures r <= |fl| && (r < |fl| ==> fl[r].size >= n)
    decreases Distance(|fl|, Next(|fl|, i), stop)
  {
    var j := Next(|fl|, i);
    if fl[j].size >= n then j else if j == stop then |fl| else NextFit(fl, j, stop, n)
  }

  /** A scan sees every block on its way. */
  lemma {:induction false} ScanSees(fl: seq<Block>, i: nat, stop: nat, n: nat, k: nat)
    requires i < |fl| && stop < |fl| && k < |fl| && fl[k].size >= n
    requires Distance(|fl|, k, stop) <= Distance(|fl|, Next(|fl|, i), stop)
    ensures NextFit(fl, i, stop, n) < |fl|
    decreases Distance(|fl|, Next(|fl|, i), stop)
  {
    var j := Next(|fl|, i);
    if fl[j].size < n {
      assert k != j;
      Further(|fl|, j, stop, k);
      ScanSees(fl, j, stop, n, k);
    }
  }

  lemma Further(n: nat, j: nat, stop: nat, k: nat)
    requires j < n && stop < n && k < n && k != j && Distance(n, k, stop) <= Distance(n, j, stop)
    ensures j != stop && Distance(n, Next(n, j), stop) == Distance(n, j, stop) - 1 >= Distance(n, k, stop)
  {
  }

  /** How many steps round the circle lead from i to k; a whole round if they are the same. */
  function Steps(n: nat, i: nat, k: nat): int {
    if i < k then k - i else n - i + k
  }

  /** It is the first that fits: no block that the scan comes to before has n units. */
  lemma {:induction false} NextFitFirst(fl: seq<Block>, i: nat, stop: nat, n: nat, k: nat)
    requires i < |fl| && stop < |fl| && k < |fl| && NextFit(fl, i, stop, n) < |fl|
    requires Steps(|fl|, i, k) < Steps(|fl|, i, NextFit(fl, i, stop, n))
    ensures fl[k].size < n
    decreases Distance(|fl|, Next(|fl|, i), stop)
  {
    var j := Next(|fl|, i);
    if fl[j].size < n && k != j {
      var r := NextFit(fl, j, stop, n);
      assert r != j;
      NextFitFirst(fl, j, stop, n, k);
    }
  }

  ghost predicate NoFit(fl: seq<Block>, n: nat) {
    forall k :: 0 <= k < |fl| ==> fl[k].size < n
  }

  /** Starting just after stop it sees them all. */
  lemma FullScan(fl: seq<Block>, stop: nat, n: nat)
    requires stop < |fl|
    ensures NextFit(fl, stop, stop, n) == |fl| <==> NoFit(fl, n)
    ensures NextFit(fl, stop, stop, n) < |fl| ==> fl[NextFit(fl, stop, stop, n)].size >= n
  {
    if k :| 0 <= k < |fl| && fl[k].size >= n { ScanSees(fl, stop, stop, n, k); }
  }
}

/** The allocator behind malloc and free. */
module Heap {
  import opened Basics
  import opened FreeList

  const HEADER: nat := 8
  const CHUNK: nat := 4096
  const KERNBASE: nat := 0x8000_0000

  /** Units for a request: the payload rounded up, in 32-bit arithmetic, and a header. */
  function UnitsFor(nbytes: nat): (n: nat)
    ensures n > 0
  {
    (nbytes + HEADER - 1) % WORD / HEADER + 1
  }

  /** The block has room for the request exactly when the rounding does not wrap. */
  lemma RoundingIff(nbytes: nat)
    requires nbytes < WORD
    ensures (UnitsFor(nbytes) - 1) * HEADER >= nbytes <==> nbytes + HEADER - 1 < WORD
    ensures nbytes + HEADER - 1 < WORD ==> (UnitsFor(nbytes) - 1) * HEADER < nbytes + HEADER
  {
    var t := nbytes + HEADER - 1;
    if t < WORD {
      assert t % WORD == t;
    } else {
      assert t % WORD == t - WORD;
    }
  }

  /** What sbrk is passed for n units: the product in 32 bits, read as a signed number. */
  function Ask(n: nat): int {
    var x := n * HEADER % WORD;
    if x < 0x8000_0000 then x else x - WORD
  }

  /** What sbrk returns, the size it leaves recorded, and the bytes the process holds then. */
  datatype Grant = Grant(addr: Option<nat>, sz: nat, held: nat)

  /** sbrk by n bytes in a process of sz bytes. `frames` says whether the kernel has the frames it needs to grow.
      Shrinking to nothing frees every page, and is then reported as a failure with the size as it was. */
  function Sbrk(sz: nat, n: int, frames: bool): Grant {
    if n > 0 then
      if sz + n >= KERNBASE || !frames then Grant(None, sz, sz) else Grant(Some(sz), sz + n, sz + n)
    else if n == 0 then Grant(Some(sz), sz, sz)
    else
      var newsz := (sz + n) % WORD;
      if newsz >= sz then Grant(Some(sz), sz, sz)
      else if newsz == 0 then Grant(None, sz, 0)
      else Grant(Some(sz), newsz, newsz)
  }

  /** When sbrk succeeds, the n units from the address it returns belong to the process exactly when n units are less
      than 2^31 bytes; otherwise it has not grown at all, and may have shrunk. */
  lemma GrantIff(sz: nat, n: nat, frames: bool)
    requires sz < KERNBASE && 0 < n * HEADER <= WORD
    ensures var g := Sbrk(sz, Ask(n), frames);
            && (g.addr.Some? ==> g.addr.value == sz && (g.held >= sz + n * HEADER <==> n * HEADER < 0x8000_0000))
            && (n * HEADER < 0x8000_0000 ==> (g.addr.Some? <==> frames && sz + n * HEADER < KERNBASE))
            && (g.addr.None? ==> g.held == if n * HEADER < 0x8000_0000 then sz else 0)
            && (n * HEADER >= 0x8000_0000 ==> g.held <= sz)
            && g.held < KERNBASE && (sz % HEADER == 0 ==> g.held % HEADER == 0)
  {
    var x := n * HEADER;
    if x < WORD { assert x % WORD == x; }
    if x >= 0x8000_0000 && x < WORD {
      assert Ask(n) == x - WORD;
      assert (sz + x - WORD) % WORD == if sz + x < WORD then sz + x else sz + x - WORD;
      assert sz % HEADER == 0 ==> (sz + x - WORD) % HEADER == 0;
    }
  }

  /** malloc's two 32-bit computations are both right exactly for requests of at most 2^31 - 16 bytes. */
  lemma RoomIff(nbytes: nat)
    requires nbytes < WORD
    ensures UnitsFor(nbytes) * HEADER <= WORD
    ensures (UnitsFor(nbytes) - 1) * HEADER >= nbytes && UnitsFor(nbytes) * HEADER < 0x8000_0000 <==>
            nbytes <= 0x8000_0000 - 2 * HEADER
  {
    RoundingIff(nbytes);
    var t := nbytes + HEADER - 1;
    assert t % WORD == if t < WORD then t else t - WORD;
  }

  /** For instance a request for the largest size gets a bare header. */
  lemma RoomCanWrap()
    ensures UnitsFor(WORD - 1) == 1
  {
    assert (WORD - 1 + HEADER - 1) % WORD == 6;
  }

  /** A request just below that asks sbrk for nothing, which sbrk grants. */
  lemma AskCanBeZero(sz: nat)
    ensures UnitsFor(0xFFFF_FFF8) == 0x2000_0000 && Ask(0x2000_0000) == 0
    ensures Sbrk(sz, Ask(0x2000_0000), true) == Grant(Some(sz), sz, sz)
  {
    assert (0xFFFF_FFF8 + HEADER - 1) % WORD == 0xFFFF_FFFF;
  }

  /** A slightly smaller one gives memory back: a process of 16384 bytes keeps 12296. */
  lemma AskCanShrink()
    ensures UnitsFor(0xFFFF_F000) == 0x1FFF_FE01 && Ask(0x1FFF_FE01) == -0xFF8
    ensures Sbrk(0x4000, Ask(0x1FFF_FE01), true) == Grant(Some(0x4000), 0x3008, 0x3008)
  {
    assert (0xFFFF_F000 + HEADER - 1) % WORD == 0xFFFF_F007;
    assert 0x1FFF_FE01 * HEADER % WORD == 0xFFFF_F008;
    assert (0x4000 - 0xFF8) % WORD == 0x3008;
  }

  /** And one that takes everything: in a process of 16384 bytes sbrk frees every page and reports a failure. */
  lemma AskCanTakeAll()
    ensures UnitsFor(0xFFFF_BFF8) == 0x1FFF_F800 && Ask(0x1FFF_F800) == -0x4000
    ensures Sbrk(0x4000, Ask(0x1FFF_F800), true) == Grant(None, 0x4000, 0)
  {
    assert (0xFFFF_BFF8 + HEADER - 1) % WORD == 0xFFFF_BFFF;
    assert 0x1FFF_F800 * HEADER % WORD == 0xFFFF_C000;
    assert (0x4000 - 0x4000) % WORD == 0;
  }

  // ---------------------------------------------- what the headers represent

  predicate LinkedAt(ptr: map<int, int>, size: map<int, nat>, fl: seq<Block>, k: nat)
    requires k < |fl|
  {
    && fl[k].addr in size && size[fl[k].addr] == fl[k].size
    && fl[k].addr in ptr && ptr[fl[k].addr] == fl[Next(|fl|, k)].addr
  }

  /** The headers link the free list in a circle. */
  ghost predicate Represents(ptr: map<int, int>, size: map<int, nat>, fl: seq<Block>) {
    forall k: nat :: k < |fl| ==> LinkedAt(ptr, size, fl, k)
  }

  /** Free and live blocks are disjoint and together are what was obtained, all of it above base. */
  ghost predicate Conserved(fl: seq<Block>, live: seq<Block>, arena: set<int>, base: int) {
    && (forall x :: x in arena <==> Covered(fl, x) || Covered(live, x))
    && (forall x :: !(Covered(fl, x) && Covered(live, x)))
    && (forall i, j, x :: 0 <= i < j < |live| && In(live[i], x) ==> !In(live[j], x))
    && (forall k :: 0 <= k < |live| ==> live[k].size > 0)
    && (forall x :: x in arena ==> base < x)
    && Units(fl) + Units(live) == |arena|
  }

  lemma WithoutCovered(live: seq<Block>, k: nat, x: int)
    requires k < |live|
    ensures Covered(live, x) <==> Covered(Without(live, k), x) || In(live[k], x)
  {
    hide Covered;
    assert live == live[..k] + live[k..k + 1] + live[k + 1..];
    ReplaceCovered(live, k, k + 1, live[k], x);
    SliceCovered(live, k, k + 1, x);
    CoveredConcat(live[..k], live[k + 1..], x);
  }

  lemma WithoutUnits(live: seq<Block>, k: nat)
    requires k < |live|
    ensures Units(live) == Units(Without(live, k)) + live[k].size
  {
    hide Units;
    assert live == live[..k] + live[k..k + 1] + live[k + 1..];
    UnitsAround(live[..k], live[k..k + 1], live[k + 1..]);
    SliceUnits(live, k, k + 1);
    UnitsConcat(live[..k], live[k + 1..]);
  }

  /** No unit of a live block is in another. */
  lemma LiveOnce(live: seq<Block>, k: nat, x: int)
    requires k < |live| && In(live[k], x)
    requires forall i, j, x :: 0 <= i < j < |live| && In(live[i], x) ==> !In(live[j], x)
    ensures !Covered(Without(live, k), x)
  {
    var w := Without(live, k);
    forall j | 0 <= j < |w|
      ensures !In(w[j], x)
    {
      assert w[j] == live[if j < k then j else j + 1];
    }
  }

  lemma ConservedFree(fl: seq<Block>, live: seq<Block>, arena: set<int>, base: int, i: nat, k: nat)
    requires Conserved(fl, live, arena, base) && i < |fl| && k < |live|
    ensures Conserved(Insert(fl, i, live[k]), Without(live, k), arena, base)
  {
    hide Covered, Units, Insert;
    var fl', live' := Insert(fl, i, live[k]), Without(live, k);
    forall x
      ensures (x in arena <==> Covered(fl', x) || Covered(live', x)) && !(Covered(fl', x) && Covered(live', x))
    {
      InsertCovered(fl, i, live[k], x);
      WithoutCovered(live, k, x);
      if In(live[k], x) { LiveOnce(live, k, x); }
    }
    InsertUnits(fl, i, live[k]);
    WithoutUnits(live, k);
  }

  lemma ConservedTake(fl: seq<Block>, live: seq<Block>, arena: set<int>, base: int, i: nat, n: nat)
    requires Conserved(fl, live, arena, base) && Ordered(fl) && 0 < i < |fl| && 0 < n <= fl[i].size
    ensures Conserved(Take(fl, i, n), live + [Tail(fl[i], n)], arena, base)
  {
    hide Covered, Units, Take, Ordered;
    var fl', b := Take(fl, i, n), Tail(fl[i], n);
    var live' := live + [b];
    forall x
      ensures (x in arena <==> Covered(fl', x) || Covered(live', x)) && !(Covered(fl', x) && Covered(live', x))
      ensures In(b, x) ==> !Covered(live, x)
    {
      TakeCovered(fl, i, n, x);
      CoveredConcat(live, [b], x);
      CoveredOne(b, x);
    }
    forall i, j, x | 0 <= i < j < |live'| && In(live'[i], x)
      ensures !In(live'[j], x)
    {
      if j == |live| { InCovered(live, i, x); }
    }
    TakeUnits(fl, i, n);
    UnitsConcat(live, [b]);
    UnitsOne(b);
  }

  lemma InCovered(s: seq<Block>, i: nat, x: int)
    requires i < |s| && In(s[i], x)
    ensures Covered(s, x)
  {
  }

  lemma UncoveredAt(s: seq<Block>, i: nat, x: int)
    requires i < |s| && !Covered(s, x)
    ensures !In(s[i], x)
  {
  }

  lemma UnitsOne(b: Block)
    ensures Units([b]) == b.size
  {
    assert [b][1..] == [];
  }

  /** The units of a block, as a set. */
  ghost function Range(b: Block): (s: set<int>)
    ensures forall x :: x in s <==> In(b, x)
    ensures |s| == b.size
    decreases b.size
  {
    if b.size == 0 then {} else Range(Block(b.addr, b.size - 1)) + {End(b) - 1}
  }

  lemma ConservedGrow(fl: seq<Block>, live: seq<Block>, arena: set<int>, base: int, b: Block)
    requires Conserved(fl, live, arena, base) && b.size > 0 && (forall x :: In(b, x) ==> base < x && x !in arena)
    ensures Conserved(fl, live + [b], arena + Range(b), base)
  {
    hide Covered, Units, Range;
    var live', arena' := live + [b], arena + Range(b);
    forall x
      ensures (x in arena' <==> Covered(fl, x) || Covered(live', x)) && !(Covered(fl, x) && Covered(live', x))
      ensures In(b, x) ==> !Covered(live, x)
    {
      CoveredConcat(live, [b], x);
      CoveredOne(b, x);
    }
    forall i, j, x | 0 <= i < j < |live'| && In(live'[i], x)
      ensures !In(live'[j], x)
    {
      if j == |live| { InCovered(live, i, x); }
    }
    UnitsConcat(live, [b]);
    UnitsOne(b);
    NewUnits(arena, b);
  }

  lemma NoRange(b: Block)
    requires b.size == 0
    ensures Range(b) == {}
  {
  }

  lemma RangeStep(b: Block)
    requires b.size > 0
    ensures Range(b) == Range(Block(b.addr, b.size - 1)) + {End(b) - 1}
  {
  }

  lemma {:induction false} NewUnits(s: set<int>, b: Block)
    requires forall x :: In(b, x) ==> x !in s
    ensures |s + Range(b)| == |s| + b.size
    decreases b.size
  {
    hide Range;
    if b.size == 0 {
      NoRange(b);
      assert s + {} == s;
    } else {
      var c, e := Block(b.addr, b.size - 1), End(b) - 1;
      RangeStep(b);
      assert forall x :: In(c, x) ==> In(b, x);
      NewUnits(s, c);
      assert In(b, e) && !In(c, e);
      assert s + (Range(c) + {e}) == (s + Range(c)) + {e};
    }
  }

  // ------------------------------------------- how the headers follow the list

  lemma RepresentsAt(ptr: map<int, int>, size: map<int, nat>, fl: seq<Block>, k: nat)
    requires Represents(ptr, size, fl) && k < |fl|
    ensures LinkedAt(ptr, size, fl, k)
  {
  }

  /** Free's header updates, for block bp after p: merge above, or link; then merge below, or link. */
  function FreePtr(ptr: map<int, int>, size: map<int, nat>, p: int, bp: int): map<int, int>
    requires p in ptr && p in size && bp in size && ptr[p] in ptr && ptr[p] in size
  {
    var n := ptr[p];
    var q := ptr[bp := if bp + size[bp] == n then ptr[n] else n];
    q[p := if p + size[p] == bp then q[bp] else bp]
  }

  function FreeSize(ptr: map<int, int>, size: map<int, nat>, p: int, bp: int): map<int, nat>
    requires p in ptr && p in size && bp in size && ptr[p] in size
  {
    var n := ptr[p];
    var s := if bp + size[bp] == n then size[bp := size[bp] + size[n]] else size;
    if p + s[p] == bp then s[p := s[p] + s[bp]] else s
  }

  predicate SameHeader(ptr: map<int, int>, size: map<int, nat>, ptr': map<int, int>, size': map<int, nat>, x: int) {
    && x in ptr && x in ptr' && ptr'[x] == ptr[x]
    && x in size && x in size' && size'[x] == size[x]
  }

  predicate Header(ptr: map<int, int>, size: map<int, nat>, x: int, next: int, n: nat) {
    x in ptr && ptr[x] == next && x in size && size[x] == n
  }

  /** To replace blocks a up to c by m: m's header is set, the one before links to it, the rest stay. */
  lemma ReplaceRepresents(ptr: map<int, int>, size: map<int, nat>, fl: seq<Block>, a: nat, c: nat, m: Block,
                          ptr': map<int, int>, size': map<int, nat>)
    requires Represents(ptr, size, fl) && 0 < a <= c <= |fl|
    requires forall k :: 0 <= k < a - 1 || c <= k < |fl| ==> SameHeader(ptr, size, ptr', size', fl[k].addr)
    requires Header(ptr', size', fl[a - 1].addr, m.addr, fl[a - 1].size)
    requires Header(ptr', size', m.addr, if c < |fl| then fl[c].addr else fl[0].addr, m.size)
    ensures Represents(ptr', size', Replace(fl, a, c, m))
  {
    var fl' := Replace(fl, a, c, m);
    forall k: nat | k < |fl'|
      ensures LinkedAt(ptr', size', fl', k)
    {
      if k < a - 1 {
        RepresentsAt(ptr, size, fl, k);
      } else if k > a {
        RepresentsAt(ptr, size, fl, c + (k - a - 1));
        assert SameHeader(ptr, size, ptr', size', fl[c + (k - a - 1)].addr);
      }
    }
  }

  lemma OthersSame(ptr: map<int, int>, size: map<int, nat>, fl: seq<Block>, ptr': map<int, int>, size': map<int, nat>,
                   k: nat, p: int, q: int)
    requires Represents(ptr, size, fl) && k < |fl| && fl[k].addr != p && fl[k].addr != q
    requires forall x :: x in ptr && x != p && x != q ==> x in ptr' && ptr'[x] == ptr[x]
    requires forall x :: x in size && x != p && x != q ==> x in size' && size'[x] == size[x]
    ensures SameHeader(ptr, size, ptr', size', fl[k].addr)
  {
    RepresentsAt(ptr, size, fl, k);
  }

  /** Addresses in the list are distinct, and b's is not among them. */
  lemma Apart(fl: seq<Block>, i: nat, b: Block)
    requires Ordered(fl) && Belongs(fl, i, b)
    ensures forall k :: 0 <= k < |fl| ==> fl[k].addr != b.addr && (k != i ==> fl[k].addr != fl[i].addr)
  {
    forall k | 0 <= k < |fl|
      ensures fl[k].addr != b.addr && (k != i ==> fl[k].addr != fl[i].addr)
    {
      if k < i { assert End(fl[k]) < fl[i].addr; }
      if k > i { assert End(fl[i]) < fl[k].addr; }
      if k > i + 1 { assert End(fl[i + 1]) < fl[k].addr; }
    }
  }

  /** The headers of p and bp afterwards. */
  lemma FreeHeaders(ptr: map<int, int>, size: map<int, nat>, p: int, bp: int)
    requires p in ptr && p in size && bp in size && ptr[p] in ptr && ptr[p] in size && p != bp && ptr[p] != bp
    ensures var ptr', size' := FreePtr(ptr, size, p, bp), FreeSize(ptr, size, p, bp);
            var n := ptr[p];
            var up, low := bp + size[bp] == n, p + size[p] == bp;
            var next, got := if up then ptr[n] else n, size[bp] + if up then size[n] else 0;
            && (low ==> Header(ptr', size', p, next, size[p] + got))
            && (!low ==> Header(ptr', size', p, bp, size[p]) && Header(ptr', size', bp, next, got))
  {
  }

  lemma FreeRepresents(ptr: map<int, int>, size: map<int, nat>, fl: seq<Block>, i: nat, b: Block)
    requires Represents(ptr, size, fl) && Ordered(fl) && Belongs(fl, i, b) && b.addr in size && size[b.addr] == b.size
    ensures fl[i].addr in ptr && fl[i].addr in size && ptr[fl[i].addr] in ptr && ptr[fl[i].addr] in size
    ensures Represents(FreePtr(ptr, size, fl[i].addr, b.addr), FreeSize(ptr, size, fl[i].addr, b.addr),
            Insert(fl, i, b))
  {
    hide Represents, Ordered, FreePtr, FreeSize;
    RepresentsAt(ptr, size, fl, i);
    RepresentsAt(ptr, size, fl, Next(|fl|, i));
    OrderedAt(fl);
    Apart(fl, i, b);
    BaseBelow(fl, i, b);
    var p, bp := fl[i].addr, b.addr;
    var ptr', size' := FreePtr(ptr, size, p, bp), FreeSize(ptr, size, p, bp);
    var up := i + 1 < |fl| && End(b) == fl[i + 1].addr;
    var c := if up then i + 2 else i + 1;
    FreeHeaders(ptr, size, p, bp);
    forall k | 0 <= k < i || c <= k < |fl|
      ensures SameHeader(ptr, size, ptr', size', fl[k].addr)
    {
      FreeKeeps(ptr, size, p, bp);
      OthersSame(ptr, size, fl, ptr', size', k, p, bp);
    }
    if up { RepresentsAt(ptr, size, fl, i + 1); }
    var got := b.size + if up then fl[i + 1].size else 0;
    if End(fl[i]) == bp {
      RepresentsAt(ptr, size, fl, i - 1);
      assert SameHeader(ptr, size, ptr', size', fl[i - 1].addr);
      ReplaceRepresents(ptr, size, fl, i, c, Block(p, fl[i].size + got), ptr', size');
    } else {
      ReplaceRepresents(ptr, size, fl, i + 1, c, Block(bp, got), ptr', size');
    }
  }

  lemma FreeKeeps(ptr: map<int, int>, size: map<int, nat>, p: int, bp: int)
    requires p in ptr && p in size && bp in size && ptr[p] in ptr && ptr[p] in size
    ensures var ptr', size' := FreePtr(ptr, size, p, bp), FreeSize(ptr, size, p, bp);
            && (forall x :: x in ptr && x != p && x != bp ==> x in ptr' && ptr'[x] == ptr[x])
            && (forall x :: x in size && x != p && x != bp ==> x in size' && size'[x] == size[x])
  {
  }

  lemma BaseBelow(fl: seq<Block>, i: nat, b: Block)
    requires Ordered(fl) && Belongs(fl, i, b)
    ensures fl[0].addr < b.addr
  {
    if i > 0 { assert End(fl[0]) < fl[i].addr; }
  }

  /** Malloc's header updates: unlink the block, or shorten it and give the tail a header. */
  lemma TakeRepresents(ptr: map<int, int>, size: map<int, nat>, fl: seq<Block>, i: nat, n: nat)
    requires Represents(ptr, size, fl) && Ordered(fl) && 0 < i < |fl| && 0 < n <= fl[i].size
    ensures var b := fl[i];
            && b.addr in ptr
            && (b.size == n ==> Represents(ptr[fl[i - 1].addr := ptr[b.addr]], size, Take(fl, i, n)))
            && (b.size > n ==> Represents(ptr, size[b.addr := b.size - n][End(b) - n := n], Take(fl, i, n)))
  {
    hide Represents, Ordered;
    RepresentsAt(ptr, size, fl, i);
    RepresentsAt(ptr, size, fl, i - 1);
    if fl[i].size == n { UnlinkRepresents(ptr, size, fl, i); } else { ShortenRepresents(ptr, size, fl, i, n); }
  }

  lemma DistinctAddrs(fl: seq<Block>, i: nat)
    requires Ordered(fl) && i < |fl|
    ensures forall k :: 0 <= k < |fl| && k != i ==> fl[k].addr != fl[i].addr
    ensures forall k :: 0 <= k < |fl| && k != i ==> !(fl[i].addr < fl[k].addr < End(fl[i]))
  {
    forall k | 0 <= k < |fl| && k != i
      ensures fl[k].addr != fl[i].addr && !(fl[i].addr < fl[k].addr < End(fl[i]))
    {
      if k < i { assert End(fl[k]) < fl[i].addr; } else { assert End(fl[i]) < fl[k].addr; }
    }
  }

  lemma UnlinkRepresents(ptr: map<int, int>, size: map<int, nat>, fl: seq<Block>, i: nat)
    requires Represents(ptr, size, fl) && Ordered(fl) && 0 < i < |fl| && fl[i].addr in ptr
    ensures Represents(ptr[fl[i - 1].addr := ptr[fl[i].addr]], size, fl[..i] + fl[i + 1..])
  {
    hide Ordered;
    var ptr', fl' := ptr[fl[i - 1].addr := ptr[fl[i].addr]], fl[..i] + fl[i + 1..];
    DistinctAddrs(fl, i - 1);
    RepresentsAt(ptr, size, fl, i);
    forall k: nat | k < |fl'|
      ensures LinkedAt(ptr', size, fl', k)
    {
      RepresentsAt(ptr, size, fl, if k < i then k else k + 1);
    }
  }

  lemma ShortenRepresents(ptr: map<int, int>, size: map<int, nat>, fl: seq<Block>, i: nat, n: nat)
    requires Represents(ptr, size, fl) && Ordered(fl) && 0 < i < |fl| && 0 < n < fl[i].size
    ensures Represents(ptr, size[fl[i].addr := fl[i].size - n][End(fl[i]) - n := n],
                       fl[i := Block(fl[i].addr, fl[i].size - n)])
  {
    hide Ordered;
    var size', fl' := size[fl[i].addr := fl[i].size - n][End(fl[i]) - n := n],
        fl[i := Block(fl[i].addr, fl[i].size - n)];
    DistinctAddrs(fl, i);
    forall k: nat | k < |fl'|
      ensures LinkedAt(ptr, size', fl', k)
    {
      RepresentsAt(ptr, size, fl, k);
    }
  }

  /** The headers of live blocks hold their sizes. */
  ghost predicate Sized(size: map<int, nat>, live: seq<Block>) {
    forall k :: 0 <= k < |live| ==> live[k].addr in size && size[live[k].addr] == live[k].size
  }

  /** A live block lies apart from the free ones, so it belongs somewhere among them. */
  lemma LiveFits(fl: seq<Block>, live: seq<Block>, arena: set<int>, base: int, k: nat, i: nat)
    requires Conserved(fl, live, arena, base) && Ordered(fl) && fl[0].addr == base && k < |live| && i < |fl|
    requires fl[i].addr < live[k].addr && (i + 1 < |fl| ==> live[k].addr < fl[i + 1].addr)
    ensures Belongs(fl, i, live[k])
  {
    hide Units;
    var b := live[k];
    assert In(b, b.addr) && Covered(live, b.addr) && !Covered(fl, b.addr);
    assert !In(fl[i], b.addr);
    if i + 1 < |fl| {
      var x := fl[i + 1].addr;
      assert In(fl[i + 1], x) && Covered(fl, x) && !Covered(live, x);
      assert !In(b, x);
    }
  }

  /** A live block's address is above base and is not a free block's. */
  lemma LiveElsewhere(fl: seq<Block>, live: seq<Block>, arena: set<int>, base: int, k: nat)
    requires Conserved(fl, live, arena, base) && Ordered(fl) && fl[0].addr == base && k < |live|
    ensures base < live[k].addr && forall i :: 0 <= i < |fl| ==> fl[i].addr != live[k].addr
  {
    hide Units;
    var b := live[k];
    assert In(b, b.addr) && Covered(live, b.addr);
    assert b.addr in arena;
    forall i | 0 <= i < |fl|
      ensures fl[i].addr != b.addr
    {
      assert !In(fl[i], b.addr);
    }
  }

  /** Where the block belongs: after the last free block below it. */
  ghost function Home(fl: seq<Block>, x: int): (i: nat)
    requires Ordered(fl) && fl[0].addr < x
    ensures i < |fl| && fl[i].addr < x && (i + 1 < |fl| ==> x <= fl[i + 1].addr)
  {
    HomeFrom(fl, x, 0)
  }

  ghost function HomeFrom(fl: seq<Block>, x: int, i: nat): (r: nat)
    requires i < |fl| && fl[i].addr < x
    ensures r < |fl| && fl[r].addr < x && (r + 1 < |fl| ==> x <= fl[r + 1].addr)
    decreases |fl| - i
  {
    if i + 1 < |fl| && fl[i + 1].addr < x then HomeFrom(fl, x, i + 1) else i
  }

  class Allocator {
    const base: int
    var freep: int                // where the last search stopped; 0 before the first malloc
    var ptr: map<int, int>        // the two words of each header
    var size: map<int, nat>
    ghost var fl: seq<Block>      // the free list, from base
    ghost var live: seq<Block>    // blocks handed out
    ghost var arena: set<int>     // units obtained from sbrk

    /** The headers form one circle of free blocks in address order, and freep is on it. */
    ghost predicate Circle() reads this {
      && Ordered(fl) && fl[0] == Block(base, 0) && Represents(ptr, size, fl)
      && exists j: nat :: j < |fl| && fl[j].addr == freep
    }

    ghost predicate Valid() reads this {
      base > 0 &&
      if freep == 0 then fl == [] && live == [] && arena == {}
      else Circle() && Sized(size, live) && Conserved(fl, live, arena, base)
    }

    constructor (base: int)
      requires base > 0
      ensures Valid() && freep == 0 && this.base == base
    {
      this.base, freep, ptr, size := base, 0, map[], map[];
      fl, live, arena := [], [], {};
    }

    /** Walks from freep to the free block that bp comes after. */
    method FindHome(bp: int) returns (p: int, ghost i: nat)
      requires Circle() && base < bp && forall k :: 0 <= k < |fl| ==> fl[k].addr != bp
      ensures i < |fl| && p == fl[i].addr < bp && (i + 1 < |fl| ==> bp < fl[i + 1].addr)
    {
      hide Ordered, Represents, Home, HomeFrom;
      p := freep;
      i :| i < |fl| && fl[i].addr == freep;
      ghost var home := Home(fl, bp);
      RepresentsAt(ptr, size, fl, i);
      OrderedAt(fl);
      while !(bp > p && bp < ptr[p])
        invariant i < |fl| && fl[i].addr == p && LinkedAt(ptr, size, fl, i)
        decreases Distance(|fl|, i, home)
      {
        BaseFirst(fl, i);
        if p >= ptr[p] && (bp > p || bp < ptr[p]) { break; }
        RepresentsAt(ptr, size, fl, Next(|fl|, i));
        p, i := ptr[p], Next(|fl|, i);
      }
      BaseFirst(fl, i);
    }

    /** Block k of the live ones returns to the free list. */
    method Free(ap: int, ghost k: nat)
      requires Valid() && k < |live| && live[k].addr == ap - 1
      modifies this
      ensures Valid() && freep != 0 && arena == old(arena) && live == Without(old(live), k)
      ensures exists i: nat :: Belongs(old(fl), i, old(live)[k]) && fl == Insert(old(fl), i, old(live)[k])
      ensures exists j :: 0 <= j < |fl| && fl[j].size >= old(live)[k].size
    {
      hide Ordered, Represents, Conserved, Insert, Belongs, FreePtr, FreeSize, Sized;
      ghost var b := live[k];
      var bp := ap - 1;
      LiveElsewhere(fl, live, arena, base, k);
      SizedAt(size, live, k);
      ghost var i;
      var p;
      p, i := FindHome(bp);
      LiveFits(fl, live, arena, base, k, i);
      BaseFirst(fl, i);
      RepresentsAt(ptr, size, fl, i);
      FreeRepresents(ptr, size, fl, i, b);
      FreeKeeps(ptr, size, p, bp);
      SizedAfterFree(ptr, size, fl, live, arena, base, i, k);
      InsertOrdered(fl, i, b);
      InsertHolds(fl, i, b);
      ConservedFree(fl, live, arena, base, i, k);
      ghost var ptr0, size0 := ptr, size;
      if bp + size[bp] == ptr[p] {
        size := size[bp := size[bp] + size[ptr[p]]];
        ptr := ptr[bp := ptr[ptr[p]]];
      } else {
        ptr := ptr[bp := ptr[p]];
      }
      if p + size[p] == bp {
        size := size[p := size[p] + size[bp]];
        ptr := ptr[p := ptr[bp]];
      } else {
        ptr := ptr[p := bp];
      }
      FreeMaps(ptr0, size0, p, bp, ptr, size);
      freep := p;
      fl, live := Insert(fl, i, b), Without(live, k);
      assert fl[i].addr == freep;
    }

    /** Asks sbrk for at least nu units in a process of sz bytes, and frees what it takes to be granted. */
    method Morecore(nu: nat, sz: nat, frames: bool) returns (p: int, held: nat, ghost got: Option<int>)
      requires Valid() && freep != 0 && nu > 0 && Backed(arena, base, sz)
      modifies this
      ensures got == Got(nu, sz, frames) && held == HeldAfter(nu, sz, frames)
      ensures Valid() && freep != 0 && live == old(live)
      ensures got.None? ==> p == 0 && fl == old(fl) && arena == old(arena) && freep == old(freep)
      ensures got.Some? ==> p == freep && Grown(old(fl), fl, old(arena), arena, Obtained(got.value, nu))
      ensures got.Some? ==> !NoFit(fl, nu)
    {
      hide Ordered, Represents, Conserved, Insert, Sized, Range, Sbrk, Ask;
      var n := if nu < CHUNK then CHUNK else nu;
      var g := Sbrk(sz, Ask(n), frames);
      got, held := Got(nu, sz, frames), g.held;
      if g.addr.None? { return 0, held, got; }
      GrantNew(arena, base, nu, sz, frames);
      var hp := g.addr.value / HEADER;
      ghost var b := Obtained(got.value, nu);
      NewElsewhere(fl, live, arena, base, b);
      ConservedGrow(fl, live, arena, base, b);
      SizedGrow(size, live, b);
      NewSizes(ptr, size, fl, b);
      size := size[hp := n];
      live, arena := live + [b], arena + Range(b);
      Free(hp + 1, |live| - 1);
      assert live == old(live);
      return freep, held, got;
    }

    /** The free list as malloc first sees it. */
    ghost function Start(): seq<Block> reads this {
      if freep == 0 then [Block(base, 0)] else fl
    }

    /** Takes n units off the end of block i, which p points at; the block before it is where the next search starts. */
    method Carve(prevp: int, p: int, n: nat, ghost i: nat) returns (r: int)
      requires Valid() && freep != 0 && 0 < i < |fl| && 0 < n <= fl[i].size
      requires prevp == fl[i - 1].addr && p == fl[i].addr
      modifies this
      ensures Valid() && freep != 0 && arena == old(arena)
      ensures fl == Take(old(fl), i, n) && live == old(live) + [Tail(old(fl)[i], n)]
              && r == Tail(old(fl)[i], n).addr + 1
    {
      hide Ordered, Represents, Conserved, Sized;
      RepresentsAt(ptr, size, fl, i);
      RepresentsAt(ptr, size, fl, i - 1);
      TakeOrdered(fl, i, n);
      TakeRepresents(ptr, size, fl, i, n);
      ConservedTake(fl, live, arena, base, i, n);
      SizedTake(size, fl, live, arena, base, i, n);
      BaseFirst(fl, i - 1);
      var q := p;
      if size[p] == n {
        ptr := ptr[prevp := ptr[p]];
      } else {
        size := size[p := size[p] - n];
        q := p + size[p];
        size := size[q := n];
      }
      freep := prevp;
      live, fl := live + [Tail(fl[i], n)], Take(fl, i, n);
      assert fl[i - 1].addr == freep;
      return q + 1;
    }

    /** The search loop of malloc: next fit from freep; if a whole round finds nothing, one more after morecore does. */
    method Search(n: nat, sz: nat, frames: bool)
      returns (r: Option<int>, held: nat, ghost from: seq<Block>, ghost s: nat, ghost k: nat)
      requires Valid() && freep != 0 && n > 0 && Backed(arena, base, sz)
      modifies this
      ensures Valid()
      ensures held == if NoFit(old(fl), n) then HeldAfter(n, sz, frames) else sz
      ensures r.None? <==> Got(n, sz, frames).None? && NoFit(old(fl), n)
      ensures r.None? ==> fl == old(fl) && live == old(live) && arena == old(arena)
      ensures r.Some? ==> Placed(from, s, k, n, r.value, fl) && live == old(live) + [Block(r.value - 1, n)]
      ensures r.Some? && !NoFit(old(fl), n) ==> from == old(fl) && from[s].addr == old(freep) && arena == old(arena)
      ensures r.Some? && NoFit(old(fl), n) ==>
              Grown(old(fl), from, old(arena), arena, Obtained(Got(n, sz, frames).value, n))
    {
      hide Ordered, Represents, Conserved, Grown, Sized, NextFit, Backed, Obtained, NoFit, Take, Got, HeldAfter;
      ghost var got := Got(n, sz, frames);
      var prevp := freep;
      s :| s < |fl| && fl[s].addr == freep;
      from, k, held := fl, 0, sz;
      ghost var a: nat := s;
      ghost var grown := false;
      RepresentsAt(ptr, size, fl, a);
      var p := ptr[prevp];
      while true
        invariant Valid() && freep != 0 && live == old(live) && fl == from
        invariant s < |fl| && a < |fl| && fl[s].addr == freep && fl[a].addr == prevp && p == fl[Next(|fl|, a)].addr
        invariant NextFit(fl, a, s, n) == NextFit(fl, s, s, n)
        invariant held == if grown then HeldAfter(n, sz, frames) else sz
        invariant !grown ==> from == old(fl) && arena == old(arena) && freep == old(freep)
        invariant grown ==> NextFit(fl, s, s, n) < |fl| && NoFit(old(fl), n) && got.Some?
        invariant grown ==> Grown(old(fl), from, old(arena), arena, Obtained(got.value, n))
        decreases !grown, Distance(|fl|, Next(|fl|, a), s)
      {
        ghost var i: nat := Next(|fl|, a);
        RepresentsAt(ptr, size, fl, i);
        FitHere(fl, a, s, n);
        FullScan(fl, s, n);
        if size[p] >= n {
          k := i;
          EmptyFirst(fl);
          var q := Carve(prevp, p, n, i);
          return Some(q), held, from, s, k;
        }
        SamePlace(fl, i, s);
        if p == freep {
          ghost var asked;
          p, held, asked := Morecore(n, sz, frames);
          if p == 0 { return None, held, from, s, k; }
          s :| s < |fl| && fl[s].addr == freep;
          from, i, grown := fl, s, true;
          FullScan(fl, s, n);
        }
        RepresentsAt(ptr, size, fl, i);
        prevp, a := p, i;
        p := ptr[p];
      }
      assert false;
    }

    /** malloc in a process of sz bytes. The process holds all the units of the allocator afterwards, with room for the
        request, exactly when the request is at most 2^31 - 16 bytes. */
    method Malloc(nbytes: nat, sz: nat, frames: bool)
      returns (r: Option<int>, held: nat, ghost from: seq<Block>, ghost s: nat, ghost k: nat)
      requires Valid() && nbytes < WORD && Backed(arena, base, sz)
      modifies this
      ensures Valid()
      ensures Backed(arena, base, held) && (UnitsFor(nbytes) - 1) * HEADER >= nbytes <==>
              nbytes <= 0x8000_0000 - 2 * HEADER
      ensures r.None? <==> Got(UnitsFor(nbytes), sz, frames).None? && NoFit(old(Start()), UnitsFor(nbytes))
      ensures r.None? ==> fl == old(Start()) && live == old(live) && arena == old(arena)
      ensures r.Some? ==> Placed(from, s, k, UnitsFor(nbytes), r.value, fl)
      ensures r.Some? ==> live == old(live) + [Block(r.value - 1, UnitsFor(nbytes))]
      ensures r.Some? && !NoFit(old(Start()), UnitsFor(nbytes)) ==>
                from == old(Start()) && from[s].addr == (if old(freep) == 0 then base else old(freep))
                    && arena == old(arena)
      ensures r.Some? && NoFit(old(Start()), UnitsFor(nbytes)) ==>
                Grown(old(Start()), from, old(arena), arena,
                    Obtained(Got(UnitsFor(nbytes), sz, frames).value, UnitsFor(nbytes)))
    {
      hide Ordered, Represents, Conserved, Grown, Sized, NextFit, Backed, NoFit, UnitsFor, Placed, Got, HeldAfter,
           Obtained;
      var n := UnitsFor(nbytes);
      if freep == 0 {
        FirstValid(base);
        freep, ptr, size := base, map[base := base], map[base := 0];
        fl := [Block(base, 0)];
        assert fl[0].addr == freep;
      }
      ghost var fl0, arena0 := fl, arena;
      RoomIff(nbytes);
      if n * HEADER >= 0x8000_0000 { FitBacked(fl, live, arena, base, sz, n); }
      r, held, from, s, k := Search(n, sz, frames);
      AskedBacked(arena0, base, n, sz, frames);
      if r.Some? && NoFit(fl0, n) { GrownArena(fl0, from, arena0, arena, Obtained(Got(n, sz, frames).value, n)); }
    }
  }

  /** The block handed out is the end of the first one that fits, in the circle after position s. */
  ghost predicate Placed(from: seq<Block>, s: nat, k: nat, n: nat, r: int, fl: seq<Block>) {
    && s < |from| && k == NextFit(from, s, s, n) < |from|
    && fl == Take(from, k, n) && r == from[k].addr + from[k].size - n + 1
  }

  /** The free list and the arena after morecore frees block b. */
  ghost predicate Grown(fl: seq<Block>, fl': seq<Block>, arena: set<int>, arena': set<int>, b: Block) {
    && arena' == arena + Range(b)
    && exists i: nat :: i < |fl| && fl' == Insert(fl, i, b)
  }

  /** Everything the allocator uses lies in the process, whose size is a whole number of headers. */
  ghost predicate Backed(arena: set<int>, base: int, sz: nat) {
    && sz < KERNBASE && sz % HEADER == 0 && (base + 1) * HEADER <= sz
    && forall x :: x in arena ==> x < sz / HEADER
  }

  /** The unit address at which morecore gets its block. */
  function Got(nu: nat, sz: nat, frames: bool): Option<int> {
    var g := Sbrk(sz, Ask(if nu < CHUNK then CHUNK else nu), frames);
    if g.addr.None? then None else Some(g.addr.value / HEADER)
  }

  function HeldAfter(nu: nat, sz: nat, frames: bool): nat {
    Sbrk(sz, Ask(if nu < CHUNK then CHUNK else nu), frames).held
  }

  /** What sbrk returns is above base and new. */
  lemma GrantNew(arena: set<int>, base: int, nu: nat, sz: nat, frames: bool)
    requires base > 0 && Backed(arena, base, sz) && Got(nu, sz, frames).Some?
    ensures var hp := Got(nu, sz, frames).value;
            hp > 0 && forall x :: In(Obtained(hp, nu), x) ==> base < x && x !in arena
  {
  }

  /** A block as large as 2^31 bytes does not fit in a process. */
  lemma FitBacked(fl: seq<Block>, live: seq<Block>, arena: set<int>, base: int, sz: nat, n: nat)
    requires Conserved(fl, live, arena, base) && Backed(arena, base, sz) && n * HEADER >= 0x8000_0000 && base > 0
    ensures NoFit(fl, n)
  {
    hide Units;
    forall k | 0 <= k < |fl|
      ensures fl[k].size < n
    {
      if fl[k].size > 0 {
        assert In(fl[k], fl[k].addr) && In(fl[k], End(fl[k]) - 1);
        assert Covered(fl, fl[k].addr) && Covered(fl, End(fl[k]) - 1);
      }
    }
  }

  /** The process holds what sbrk appeared to grant exactly when less than 2^31 bytes were asked for. */
  lemma AskedBacked(arena: set<int>, base: int, n: nat, sz: nat, frames: bool)
    requires base > 0 && Backed(arena, base, sz) && 0 < n * HEADER <= WORD
    ensures Got(n, sz, frames).Some? ==>
              (Backed(arena + Range(Obtained(Got(n, sz, frames).value, n)), base, HeldAfter(n, sz, frames)) <==>
               n * HEADER < 0x8000_0000)
    ensures Got(n, sz, frames).None? ==> (Backed(arena, base, HeldAfter(n, sz, frames)) <==> n * HEADER < 0x8000_0000)
  {
    var m := if n < CHUNK then CHUNK else n;
    hide Sbrk, Ask;
    GrantIff(sz, m, frames);
    var g := Sbrk(sz, Ask(m), frames);
    if g.addr.Some? {
      var b := Obtained(sz / HEADER, n);
      assert End(b) - 1 in Range(b);
    }
  }

  lemma GrownArena(fl: seq<Block>, fl': seq<Block>, arena: set<int>, arena': set<int>, b: Block)
    requires Grown(fl, fl', arena, arena', b)
    ensures arena' == arena + Range(b)
  {
  }

  lemma FitHere(fl: seq<Block>, a: nat, s: nat, n: nat)
    requires a < |fl| && s < |fl|
    ensures var i := Next(|fl|, a);
            NextFit(fl, a, s, n) == if fl[i].size >= n then i else if i == s then |fl| else NextFit(fl, i, s, n)
  {
  }

  lemma EmptyFirst(fl: seq<Block>)
    requires Ordered(fl)
    ensures fl[0].size == 0
  {
  }

  lemma SamePlace(fl: seq<Block>, i: nat, j: nat)
    requires Ordered(fl) && i < |fl| && j < |fl|
    ensures fl[i].addr == fl[j].addr <==> i == j
  {
    hide Ordered;
    DistinctAddrs(fl, i);
  }

  lemma FirstValid(base: int)
    requires base > 0
    ensures Ordered([Block(base, 0)]) && Represents(map[base := base], map[base := 0], [Block(base, 0)])
    ensures Sized(map[base := 0], []) && Conserved([Block(base, 0)], [], {}, base)
  {
    UnitsOne(Block(base, 0));
  }

  /** The tail's header does not disturb the live blocks' headers. */
  lemma SizedTake(size: map<int, nat>, fl: seq<Block>, live: seq<Block>, arena: set<int>, base: int, i: nat, n: nat)
    requires Sized(size, live) && Conserved(fl, live, arena, base) && Ordered(fl) && fl[0].addr == base
    requires 0 < i < |fl| && 0 < n <= fl[i].size && fl[i].addr in size && size[fl[i].addr] == fl[i].size
    ensures fl[i].size == n ==> Sized(size, live + [Tail(fl[i], n)])
    ensures fl[i].size > n ==> Sized(size[fl[i].addr := fl[i].size - n][End(fl[i]) - n := n], live + [Tail(fl[i], n)])
  {
    hide Units, Ordered;
    forall k | 0 <= k < |live|
      ensures !In(fl[i], live[k].addr)
    {
      InCovered(live, k, live[k].addr);
      UncoveredAt(fl, i, live[k].addr);
    }
  }

  /** Morecore asks for at least a chunk. */
  function Obtained(hp: int, nu: nat): Block {
    Block(hp, if nu < CHUNK then CHUNK else nu)
  }

  lemma NewElsewhere(fl: seq<Block>, live: seq<Block>, arena: set<int>, base: int, b: Block)
    requires Conserved(fl, live, arena, base) && Ordered(fl) && fl[0].addr == base
    requires b.size > 0 && forall x :: In(b, x) ==> base < x && x !in arena
    ensures forall k :: 0 <= k < |fl| ==> fl[k].addr != b.addr
    ensures forall k :: 0 <= k < |live| ==> live[k].addr != b.addr
  {
    hide Units;
    assert In(b, b.addr) && !Covered(fl, b.addr) && !Covered(live, b.addr);
    forall k | 0 <= k < |fl|
      ensures fl[k].addr != b.addr
    {
      assert !In(fl[k], b.addr);
    }
    forall k | 0 <= k < |live|
      ensures live[k].addr != b.addr
    {
      assert !In(live[k], b.addr);
    }
  }

  lemma SizedGrow(size: map<int, nat>, live: seq<Block>, b: Block)
    requires Sized(size, live) && forall k :: 0 <= k < |live| ==> live[k].addr != b.addr
    ensures Sized(size[b.addr := b.size], live + [b])
  {
  }

  lemma NewSizes(ptr: map<int, int>, size: map<int, nat>, fl: seq<Block>, b: Block)
    requires Represents(ptr, size, fl) && forall k :: 0 <= k < |fl| ==> fl[k].addr != b.addr
    ensures Represents(ptr, size[b.addr := b.size], fl)
  {
    var size' := size[b.addr := b.size];
    forall k: nat | k < |fl|
      ensures LinkedAt(ptr, size', fl, k)
    {
      RepresentsAt(ptr, size, fl, k);
    }
  }

  lemma SizedAt(size: map<int, nat>, live: seq<Block>, k: nat)
    requires Sized(size, live) && k < |live|
    ensures live[k].addr in size && size[live[k].addr] == live[k].size
  {
  }

  /** The updates as the code makes them, one at a time. */
  lemma FreeMaps(ptr: map<int, int>, size: map<int, nat>, p: int, bp: int, ptr': map<int, int>, size': map<int, nat>)
    requires p in ptr && p in size && bp in size && ptr[p] in ptr && ptr[p] in size
    requires var n := ptr[p];
             var s := if bp + size[bp] == n then size[bp := size[bp] + size[n]] else size;
             var q := if bp + size[bp] == n then ptr[bp := ptr[n]] else ptr[bp := n];
             && size' == (if p + s[p] == bp then s[p := s[p] + s[bp]] else s)
             && ptr' == (if p + s[p] == bp then q[p := q[bp]] else q[p := bp])
    requires p != bp
    ensures ptr' == FreePtr(ptr, size, p, bp) && size' == FreeSize(ptr, size, p, bp)
  {
  }

  lemma SizedAfterFree(ptr: map<int, int>, size: map<int, nat>, fl: seq<Block>, live: seq<Block>, arena: set<int>,
                       base: int,
                       i: nat, k: nat)
    requires Sized(size, live) && Conserved(fl, live, arena, base) && Ordered(fl) && fl[0].addr == base
    requires i < |fl| && k < |live| && LinkedAt(ptr, size, fl, i) && ptr[fl[i].addr] in ptr && ptr[fl[i].addr] in size
    ensures Sized(FreeSize(ptr, size, fl[i].addr, live[k].addr), Without(live, k))
  {
    hide Ordered, Conserved, FreeSize;
    SizedAt(size, live, k);
    FreeKeeps(ptr, size, fl[i].addr, live[k].addr);
    var w := Without(live, k);
    forall j | 0 <= j < |w|
      ensures w[j].addr in FreeSize(ptr, size, fl[i].addr, live[k].addr)
      ensures FreeSize(ptr, size, fl[i].addr, live[k].addr)[w[j].addr] == w[j].size
    {
      var l := if j < k then j else j + 1;
      assert w[j] == live[l];
      SizedAt(size, live, l);
      LiveElsewhere(fl, live, arena, base, l);
      LiveDistinct(fl, live, arena, base, k, l);
    }
  }

  lemma LiveDistinct(fl: seq<Block>, live: seq<Block>, arena: set<int>, base: int, k: nat, l: nat)
    requires Conserved(fl, live, arena, base) && k < |live| && l < |live| && k != l
    ensures live[k].addr != live[l].addr
  {
    hide Covered, Units;
    assert In(live[k], live[k].addr) && In(live[l], live[l].addr);
  }

  lemma InsertHolds(fl: seq<Block>, i: nat, b: Block)
    requires i < |fl|
    ensures exists j :: 0 <= j < |Insert(fl, i, b)| && Insert(fl, i, b)[j].size >= b.size
    ensures i < |Insert(fl, i, b)| && Insert(fl, i, b)[i].addr == fl[i].addr
  {
    assert Insert(fl, i, b)[if End(fl[i]) == b.addr then i else i + 1].size >= b.size;
  }

  lemma BaseFirst(fl: seq<Block>, i: nat)
    requires Ordered(fl) && i < |fl|
    ensures i > 0 ==> fl[0].addr < fl[i].addr
    ensures fl[i].addr >= fl[Next(|fl|, i)].addr <==> i + 1 == |fl|
  {
    if i > 0 { assert End(fl[0]) < fl[i].addr; }
    if i + 1 < |fl| { assert End(fl[i]) < fl[i + 1].addr; }
  }
}

/** Physical pages, two-level page tables over them, and who owns each page. */
module VmSpec {
  import opened Basics

  const NPTE: nat := 1024
  const NPAGES: nat := 0x10_0000          // pages in the 32-bit space
  const USER: nat := 0x8_0000             // pages below KERNBASE
  const PGSIZE: nat := 4096

  datatype Perm = Perm(w: bool, u: bool)

  datatype Pte = Absent | Present(ppn: nat, perm: Perm)

  /** What a physical page holds: a link of the free list, a page directory, a page table, or user data. */
  datatype Page = Run(next: Option<nat>) | Dir(pdes: seq<Option<nat>>) | Table(ptes: seq<Pte>) | Frame(bytes: seq<char>)

  type Mem = map<nat, Page>

  /** The one owner of a page: the free list, itself as a directory, a directory's slot, a user page, or someone
      else. */
  datatype Owner = FreeList | DirOwner | TableOf(d: nat, i: nat) | FrameOf(d: nat, v: nat) | Held

  type Owners = map<nat, Owner>

  // -------------------------------------------------------- two-level lookup

  function Pdx(v: nat): nat { v / NPTE }

  function Ptx(v: nat): (j: nat)
    ensures j < NPTE
  {
    v % NPTE
  }

  lemma IndexPair(v: nat, w: nat)
    ensures v == Pdx(v) * NPTE + Ptx(v) && (Pdx(v) == Pdx(w) && Ptx(v) == Ptx(w) ==> v == w)
    ensures v < NPAGES ==> Pdx(v) < NPTE
    ensures v < USER ==> Pdx(v) < NPTE / 2
    ensures USER <= v ==> NPTE / 2 <= Pdx(v)
  {
  }

  function TableAt(mem: Mem, d: nat, i: nat): Option<nat> {
    if d in mem && mem[d].Dir? && i < |mem[d].pdes| then mem[d].pdes[i] else None
  }

  /** The flat view of a directory: the entry for page v. */
  function Lookup(mem: Mem, d: nat, v: nat): Pte {
    match TableAt(mem, d, Pdx(v))
    case None => Absent
    case Some(t) => if t in mem && mem[t].Table? && Ptx(v) < |mem[t].ptes| then mem[t].ptes[Ptx(v)] else Absent
  }

  // ---------------------------------------------------------------- invariant

  predicate IsDir(owner: Owners, d: nat) {
    d in owner && owner[d] == DirOwner
  }

  /** The page is what its owner says. */
  predicate PageOk(mem: Mem, owner: Owners, p: nat)
    requires p in mem && p in owner
  {
    match owner[p]
    case FreeList => mem[p].Run?
    case DirOwner => mem[p].Dir? && |mem[p].pdes| == NPTE
    case TableOf(d, i) => mem[p].Table? && |mem[p].ptes| == NPTE && IsDir(owner, d) && TableAt(mem, d, i) == Some(p)
    case FrameOf(d, v) =>
      mem[p].Frame? && |mem[p].bytes| == PGSIZE && IsDir(owner, d) && v < USER
      && Lookup(mem, d, v).Present? && Lookup(mem, d, v).ppn == p
    case Held => true
  }

  /** A directory's slot leads to a table that it owns. */
  predicate TableOk(mem: Mem, owner: Owners, d: nat, i: nat) {
    IsDir(owner, d) && TableAt(mem, d, i).Some? ==>
      var t := TableAt(mem, d, i).value;
      t in mem && t in owner && owner[t] == TableOf(d, i)
  }

  /** A user page's entry leads to a frame that it owns; the kernel's entries are not for users. */
  predicate FrameOk(mem: Mem, owner: Owners, d: nat, v: nat) {
    IsDir(owner, d) && Lookup(mem, d, v).Present? ==>
      if v < USER then
        var f := Lookup(mem, d, v).ppn;
        f in mem && f in owner && owner[f] == FrameOf(d, v)
      else !Lookup(mem, d, v).perm.u
  }

  /** Every page has exactly one owner, and the owner points back at it. */
  ghost predicate OwnInv(mem: Mem, owner: Owners) {
    && mem.Keys == owner.Keys
    && (forall p :: p in mem ==> PageOk(mem, owner, p))
    && (forall d: nat, i: nat :: TableOk(mem, owner, d, i))
    && (forall d: nat, v: nat :: FrameOk(mem, owner, d, v))
  }

  lemma InvPage(mem: Mem, owner: Owners, p: nat)
    requires OwnInv(mem, owner) && (p in mem || p in owner)
    ensures p in mem && p in owner && PageOk(mem, owner, p)
  {
  }

  lemma InvTable(mem: Mem, owner: Owners, d: nat, i: nat)
    requires OwnInv(mem, owner)
    ensures TableOk(mem, owner, d, i)
    ensures IsDir(owner, d) ==> d in mem && PageOk(mem, owner, d)
    ensures IsDir(owner, d) && TableAt(mem, d, i).Some? ==> PageOk(mem, owner, TableAt(mem, d, i).value)
  {
    assert TableOk(mem, owner, d, i);
    assert IsDir(owner, d) ==> d in mem && PageOk(mem, owner, d);
  }

  lemma InvFrame(mem: Mem, owner: Owners, d: nat, v: nat)
    requires OwnInv(mem, owner)
    ensures FrameOk(mem, owner, d, v)
    ensures IsDir(owner, d) && v < USER && Lookup(mem, d, v).Present? ==> PageOk(mem, owner, Lookup(mem, d, v).ppn)
  {
    assert FrameOk(mem, owner, d, v);
  }

  lemma InvKeys(mem: Mem, owner: Owners)
    requires OwnInv(mem, owner)
    ensures mem.Keys == owner.Keys
  {
  }

  lemma OwnInvIs(mem: Mem, owner: Owners)
    requires mem.Keys == owner.Keys
    requires forall p :: p in mem ==> PageOk(mem, owner, p)
    requires forall d: nat, i: nat :: TableOk(mem, owner, d, i)
    requires forall d: nat, v: nat :: FrameOk(mem, owner, d, v)
    ensures OwnInv(mem, owner)
  {
  }

  // ------------------------------------------------ writing outside the tables

  /** A page that is neither a directory nor a table. */
  predicate Leaf(owner: Owners, p: nat) {
    p in owner && owner[p] != DirOwner && !owner[p].TableOf?
  }

  /** Writing it changes no directory's view. */
  lemma LeafLookup(mem: Mem, owner: Owners, p: nat, page: Page, d: nat, i: nat, v: nat)
    requires OwnInv(mem, owner) && Leaf(owner, p) && IsDir(owner, d)
    ensures TableAt(mem[p := page], d, i) == TableAt(mem, d, i)
    ensures Lookup(mem[p := page], d, v) == Lookup(mem, d, v)
  {
    hide OwnInv, Pdx, Ptx;
    InvTable(mem, owner, d, i);
    InvTable(mem, owner, d, Pdx(v));
  }

  /** The page stays with its owner, or passes between the free list and a holder. */
  predicate LeafMove(o: Owner, o': Owner, page: Page) {
    || (o' == Held && (o == Held || o == FreeList))
    || (o' == FreeList && page.Run? && (o == Held || o == FreeList))
    || (o' == o && o.FrameOf? && page.Frame? && |page.bytes| == PGSIZE)
  }

  lemma LeafInv(mem: Mem, owner: Owners, p: nat, page: Page, o: Owner)
    requires OwnInv(mem, owner) && Leaf(owner, p) && LeafMove(owner[p], o, page)
    ensures OwnInv(mem[p := page], owner[p := o])
  {
    hide OwnInv, PageOk, TableOk, FrameOk, Lookup, TableAt, LeafMove;
    var mem', owner' := mem[p := page], owner[p := o];
    InvKeys(mem, owner);
    forall q | q in mem'
      ensures PageOk(mem', owner', q)
    {
      LeafPageOk(mem, owner, p, page, o, q);
    }
    forall d: nat, i: nat
      ensures TableOk(mem', owner', d, i)
    {
      LeafTableOk(mem, owner, p, page, o, d, i);
    }
    forall d: nat, v: nat
      ensures FrameOk(mem', owner', d, v)
    {
      LeafFrameOk(mem, owner, p, page, o, d, v);
    }
    OwnInvIs(mem', owner');
  }

  lemma LeafPageOk(mem: Mem, owner: Owners, p: nat, page: Page, o: Owner, q: nat)
    requires OwnInv(mem, owner) && Leaf(owner, p) && LeafMove(owner[p], o, page) && q in mem
    ensures q in owner && PageOk(mem[p := page], owner[p := o], q)
  {
    hide OwnInv, Lookup, TableAt;
    InvPage(mem, owner, q);
    match owner[q]
    case TableOf(d, i) => LeafLookup(mem, owner, p, page, d, i, 0);
    case FrameOf(d, v) => LeafLookup(mem, owner, p, page, d, 0, v);
    case _ =>
  }

  lemma LeafTableOk(mem: Mem, owner: Owners, p: nat, page: Page, o: Owner, d: nat, i: nat)
    requires OwnInv(mem, owner) && Leaf(owner, p) && LeafMove(owner[p], o, page)
    ensures TableOk(mem[p := page], owner[p := o], d, i)
  {
    hide OwnInv, Lookup, TableAt;
    InvTable(mem, owner, d, i);
    if IsDir(owner, d) { LeafLookup(mem, owner, p, page, d, i, 0); }
  }

  lemma LeafFrameOk(mem: Mem, owner: Owners, p: nat, page: Page, o: Owner, d: nat, v: nat)
    requires OwnInv(mem, owner) && Leaf(owner, p) && LeafMove(owner[p], o, page)
    ensures FrameOk(mem[p := page], owner[p := o], d, v)
  {
    hide OwnInv, Lookup, TableAt;
    InvFrame(mem, owner, d, v);
    if IsDir(owner, d) { LeafLookup(mem, owner, p, page, d, 0, v); }
  }

  // --------------------------------------------------------- a new directory

  function NoTables(): Page { Dir(seq(NPTE, i => None)) }

  lemma NewDirLookup(mem: Mem, owner: Owners, p: nat, d: nat, i: nat, v: nat)
    requires OwnInv(mem, owner) && Leaf(owner, p)
    ensures d != p && IsDir(owner, d) ==>
              TableAt(mem[p := NoTables()], d, i) == TableAt(mem, d, i)
                  && Lookup(mem[p := NoTables()], d, v) == Lookup(mem, d, v)
    ensures TableAt(mem[p := NoTables()], p, i) == None && Lookup(mem[p := NoTables()], p, v) == Absent
  {
    hide OwnInv, Pdx, Ptx;
    if d != p && IsDir(owner, d) { LeafLookup(mem, owner, p, NoTables(), d, i, v); }
  }

  lemma NewDirInv(mem: Mem, owner: Owners, p: nat)
    requires OwnInv(mem, owner) && p in owner && owner[p] == Held
    ensures OwnInv(mem[p := NoTables()], owner[p := DirOwner])
  {
    hide OwnInv, Lookup, TableAt;
    var mem', owner' := mem[p := NoTables()], owner[p := DirOwner];
    InvKeys(mem, owner);
    forall q | q in mem'
      ensures PageOk(mem', owner', q)
    {
      InvPage(mem, owner, q);
      match owner[q]
      case TableOf(d, i) => NewDirLookup(mem, owner, p, d, i, 0);
      case FrameOf(d, v) => NewDirLookup(mem, owner, p, d, 0, v);
      case _ =>
    }
    forall d: nat, i: nat
      ensures TableOk(mem', owner', d, i)
    {
      InvTable(mem, owner, d, i);
      NewDirLookup(mem, owner, p, d, i, 0);
    }
    forall d: nat, v: nat
      ensures FrameOk(mem', owner', d, v)
    {
      InvFrame(mem, owner, d, v);
      NewDirLookup(mem, owner, p, d, 0, v);
    }
    OwnInvIs(mem', owner');
  }

  // ------------------------------------------------------------- a new table

  function NoEntries(): Page { Table(seq(NPTE, j => Absent)) }

  function AddTable(mem: Mem, d: nat, i: nat, t: nat): Mem
    requires d in mem && mem[d].Dir? && i < |mem[d].pdes|
  {
    mem[t := NoEntries()][d := Dir(mem[d].pdes[i := Some(t)])]
  }

  ghost predicate CanAddTable(mem: Mem, owner: Owners, d: nat, i: nat, t: nat) {
    && OwnInv(mem, owner) && IsDir(owner, d) && i < NPTE && TableAt(mem, d, i) == None && t in owner && owner[t] == Held
    && d in mem && mem[d].Dir? && |mem[d].pdes| == NPTE
  }

  /** An empty table changes no view. */
  lemma AddTableLookup(mem: Mem, owner: Owners, d: nat, i: nat, t: nat, e: nat, k: nat, v: nat)
    requires CanAddTable(mem, owner, d, i, t) && IsDir(owner, e)
    ensures TableAt(AddTable(mem, d, i, t), e, k) == if e == d && k == i then Some(t) else TableAt(mem, e, k)
    ensures Lookup(AddTable(mem, d, i, t), e, v) == Lookup(mem, e, v)
  {
    hide OwnInv, Pdx, Ptx;
    InvTable(mem, owner, e, k);
    InvTable(mem, owner, e, Pdx(v));
  }

  lemma AddTableInv(mem: Mem, owner: Owners, d: nat, i: nat, t: nat)
    requires CanAddTable(mem, owner, d, i, t)
    ensures OwnInv(AddTable(mem, d, i, t), owner[t := TableOf(d, i)])
  {
    hide OwnInv, Lookup, TableAt;
    var mem', owner' := AddTable(mem, d, i, t), owner[t := TableOf(d, i)];
    InvKeys(mem, owner);
    forall q | q in mem'
      ensures PageOk(mem', owner', q)
    {
      InvPage(mem, owner, q);
      AddTableLookup(mem, owner, d, i, t, d, i, 0);
      match owner[q]
      case TableOf(e, k) => AddTableLookup(mem, owner, d, i, t, e, k, 0);
      case FrameOf(e, v) => AddTableLookup(mem, owner, d, i, t, e, 0, v);
      case _ =>
    }
    forall e: nat, k: nat
      ensures TableOk(mem', owner', e, k)
    {
      InvTable(mem, owner, e, k);
      if IsDir(owner, e) { AddTableLookup(mem, owner, d, i, t, e, k, 0); }
    }
    forall e: nat, v: nat
      ensures FrameOk(mem', owner', e, v)
    {
      InvFrame(mem, owner, e, v);
      if IsDir(owner, e) { AddTableLookup(mem, owner, d, i, t, e, 0, v); }
    }
    OwnInvIs(mem', owner');
  }

  // ---------------------------------------------------------------- one entry

  function SetPte(mem: Mem, t: nat, j: nat, e: Pte): Mem
    requires t in mem && mem[t].Table? && j < |mem[t].ptes|
  {
    mem[t := Table(mem[t].ptes[j := e])]
  }

  /** The table that holds page v's entry is there. */
  ghost predicate HasTable(mem: Mem, owner: Owners, d: nat, v: nat) {
    && OwnInv(mem, owner) && IsDir(owner, d) && TableAt(mem, d, Pdx(v)).Some?
  }

  function TableFor(mem: Mem, d: nat, v: nat): nat
    requires TableAt(mem, d, Pdx(v)).Some?
  {
    TableAt(mem, d, Pdx(v)).value
  }

  lemma TableShape(mem: Mem, owner: Owners, d: nat, v: nat)
    requires HasTable(mem, owner, d, v)
    ensures var t := TableFor(mem, d, v);
            && t in mem && t in owner && owner[t] == TableOf(d, Pdx(v)) && mem[t].Table? && |mem[t].ptes| == NPTE
            && mem[t].ptes[Ptx(v)] == Lookup(mem, d, v)
  {
    hide OwnInv, Pdx, Ptx;
    InvTable(mem, owner, d, Pdx(v));
  }

  /** Writing one entry changes one page of one directory's view. */
  lemma SetPteLookup(mem: Mem, owner: Owners, d: nat, v: nat, pte: Pte, e: nat, k: nat, w: nat)
    requires HasTable(mem, owner, d, v) && IsDir(owner, e)
    ensures TableFor(mem, d, v) in mem && mem[TableFor(mem, d, v)].Table? && |mem[TableFor(mem, d, v)].ptes| == NPTE
    ensures var mem' := SetPte(mem, TableFor(mem, d, v), Ptx(v), pte);
            && TableAt(mem', e, k) == TableAt(mem, e, k)
            && Lookup(mem', e, w) == if e == d && w == v then pte else Lookup(mem, e, w)
  {
    hide OwnInv, Pdx, Ptx;
    TableShape(mem, owner, d, v);
    InvTable(mem, owner, e, k);
    InvTable(mem, owner, e, Pdx(w));
    IndexPair(v, w);
  }

  /** The owners after page v's entry becomes pte: the old frame is let go, the new one is taken. */
  function Reowned(owner: Owners, d: nat, v: nat, was: Pte, pte: Pte): Owners {
    var o := if v < USER && was.Present? then owner[was.ppn := Held] else owner;
    if v < USER && pte.Present? then o[pte.ppn := FrameOf(d, v)] else o
  }

  /** A kernel entry must not be for users; a user entry takes a held frame, and only where there was none. */
  ghost predicate CanSet(mem: Mem, owner: Owners, d: nat, v: nat, pte: Pte) {
    && HasTable(mem, owner, d, v)
    && (pte.Present? ==>
          if v < USER then
            && Lookup(mem, d, v) == Absent && pte.ppn in mem && pte.ppn in owner && owner[pte.ppn] == Held
            && mem[pte.ppn].Frame? && |mem[pte.ppn].bytes| == PGSIZE
          else !pte.perm.u)
  }

  lemma SetPtePage(mem: Mem, owner: Owners, d: nat, v: nat, pte: Pte, q: nat)
    requires CanSet(mem, owner, d, v, pte) && q in mem
    requires TableFor(mem, d, v) in mem && mem[TableFor(mem, d, v)].Table? && |mem[TableFor(mem, d, v)].ptes| == NPTE
    ensures q in Reowned(owner, d, v, Lookup(mem, d, v), pte)
    ensures PageOk(SetPte(mem, TableFor(mem, d, v), Ptx(v), pte), Reowned(owner, d, v, Lookup(mem, d, v), pte), q)
  {
    hide OwnInv, Lookup, TableAt, Pdx, Ptx;
    TableShape(mem, owner, d, v);
    InvPage(mem, owner, q);
    InvFrame(mem, owner, d, v);
    SetPteLookup(mem, owner, d, v, pte, d, 0, v);
    match owner[q]
    case TableOf(e, k) => SetPteLookup(mem, owner, d, v, pte, e, k, 0);
    case FrameOf(e, w) => SetPteLookup(mem, owner, d, v, pte, e, 0, w);
    case _ =>
  }

  lemma SetPteFrame(mem: Mem, owner: Owners, d: nat, v: nat, pte: Pte, e: nat, w: nat)
    requires CanSet(mem, owner, d, v, pte)
    requires TableFor(mem, d, v) in mem && mem[TableFor(mem, d, v)].Table? && |mem[TableFor(mem, d, v)].ptes| == NPTE
    ensures FrameOk(SetPte(mem, TableFor(mem, d, v), Ptx(v), pte), Reowned(owner, d, v, Lookup(mem, d, v), pte), e, w)
  {
    hide OwnInv, Lookup, TableAt, Pdx, Ptx;
    InvFrame(mem, owner, d, v);
    InvFrame(mem, owner, e, w);
    if IsDir(owner, e) { SetPteLookup(mem, owner, d, v, pte, e, 0, w); }
  }

  lemma SetPteTable(mem: Mem, owner: Owners, d: nat, v: nat, pte: Pte, e: nat, k: nat)
    requires CanSet(mem, owner, d, v, pte)
    requires TableFor(mem, d, v) in mem && mem[TableFor(mem, d, v)].Table? && |mem[TableFor(mem, d, v)].ptes| == NPTE
    ensures TableOk(SetPte(mem, TableFor(mem, d, v), Ptx(v), pte), Reowned(owner, d, v, Lookup(mem, d, v), pte), e, k)
  {
    hide OwnInv, Lookup, TableAt, Pdx, Ptx;
    InvFrame(mem, owner, d, v);
    InvTable(mem, owner, e, k);
    if IsDir(owner, e) { SetPteLookup(mem, owner, d, v, pte, e, k, 0); }
  }

  lemma SetPteInv(mem: Mem, owner: Owners, d: nat, v: nat, pte: Pte)
    requires CanSet(mem, owner, d, v, pte)
    ensures TableFor(mem, d, v) in mem && mem[TableFor(mem, d, v)].Table? && |mem[TableFor(mem, d, v)].ptes| == NPTE
    ensures OwnInv(SetPte(mem, TableFor(mem, d, v), Ptx(v), pte), Reowned(owner, d, v, Lookup(mem, d, v), pte))
  {
    hide OwnInv, Lookup, TableAt, Pdx, Ptx, PageOk, FrameOk, TableOk;
    TableShape(mem, owner, d, v);
    var mem', owner' := SetPte(mem, TableFor(mem, d, v), Ptx(v), pte), Reowned(owner, d, v, Lookup(mem, d, v), pte);
    assert mem'.Keys == owner'.Keys by {
      InvKeys(mem, owner);
      OldFrameKnown(mem, owner, d, v);
    }
    forall q | q in mem' ensures PageOk(mem', owner', q) { SetPtePage(mem, owner, d, v, pte, q); }
    forall e: nat, k: nat ensures TableOk(mem', owner', e, k) { SetPteTable(mem, owner, d, v, pte, e, k); }
    forall e: nat, w: nat ensures FrameOk(mem', owner', e, w) { SetPteFrame(mem, owner, d, v, pte, e, w); }
    OwnInvIs(mem', owner');
  }

  lemma OldFrameKnown(mem: Mem, owner: Owners, d: nat, v: nat)
    requires OwnInv(mem, owner) && IsDir(owner, d)
    ensures v < USER && Lookup(mem, d, v).Present? ==> Lookup(mem, d, v).ppn in owner && Lookup(mem, d, v).ppn in mem
  {
    InvFrame(mem, owner, d, v);
  }

  // ------------------------------------------------- taking a directory apart

  /** The directory and its tables are on their own. */
  function Dismantled(owner: Owners, d: nat): Owners {
    map p | p in owner :: if p == d || (owner[p].TableOf? && owner[p].d == d) then Held else owner[p]
  }

  lemma DismantledInv(mem: Mem, owner: Owners, d: nat)
    requires OwnInv(mem, owner) && IsDir(owner, d) && forall v: nat :: v < USER ==> Lookup(mem, d, v) == Absent
    ensures OwnInv(mem, Dismantled(owner, d))
  {
    hide OwnInv, Lookup, TableAt;
    var owner' := Dismantled(owner, d);
    InvKeys(mem, owner);
    assert owner'.Keys == owner.Keys;
    forall p | p in mem
      ensures PageOk(mem, owner', p)
    {
      InvPage(mem, owner, p);
    }
    forall e: nat, i: nat
      ensures TableOk(mem, owner', e, i)
    {
      InvTable(mem, owner, e, i);
    }
    forall e: nat, v: nat
      ensures FrameOk(mem, owner', e, v)
    {
      InvFrame(mem, owner, e, v);
    }
    OwnInvIs(mem, owner');
  }

  // --------------------------------------------------- how owners may change

  /** The page belongs to directory d. */
  predicate InSpace(o: Owner, p: nat, d: nat) {
    (o == DirOwner && p == d) || (o.TableOf? && o.d == d) || (o.FrameOf? && o.d == d)
  }

  /** Only free pages changed owner, and they went to d. */
  ghost predicate Taken(owner: Owners, owner': Owners, d: nat) {
    && owner'.Keys == owner.Keys
    && forall p :: p in owner ==> owner'[p] == owner[p] || (owner[p] == FreeList && InSpace(owner'[p], p, d))
  }

  /** Only free pages changed owner, and they became tables of d. */
  ghost predicate TakenTables(owner: Owners, owner': Owners, d: nat) {
    && owner'.Keys == owner.Keys
    && forall p :: p in owner ==>
          owner'[p] == owner[p] || (owner[p] == FreeList && owner'[p].TableOf? && owner'[p].d == d)
  }

  /** The frames of d's pages from lo up to hi are free. */
  function Released(owner: Owners, d: nat, lo: nat, hi: nat): Owners {
    map p | p in owner :: if owner[p].FrameOf? && owner[p].d == d && lo <= owner[p].v < hi then FreeList else owner[p]
  }

  /** Everything d owned is free. */
  function Returned(owner: Owners, d: nat): Owners {
    map p | p in owner :: if InSpace(owner[p], p, d) then FreeList else owner[p]
  }

  /** Nothing belongs to d. */
  ghost predicate Unused(owner: Owners, d: nat) {
    forall p :: p in owner ==> !InSpace(owner[p], p, d)
  }

  /** What was taken for a new directory is exactly what freeing it returns. */
  lemma TakenReturned(owner: Owners, owner': Owners, d: nat)
    requires Taken(owner, owner', d) && Unused(owner, d)
    ensures Returned(owner', d) == owner
  {
    var r := Returned(owner', d);
    assert r.Keys == owner.Keys;
    forall p | p in owner
      ensures r[p] == owner[p]
    {
    }
  }

  /** User frames, and pages held elsewhere, keep their contents for as long as they keep their owner. */
  ghost predicate SameData(mem: Mem, owner: Owners, mem': Mem, owner': Owners) {
    forall p ::
      && p in owner && p in mem && p in owner' && owner'[p] == owner[p]
      && (owner[p].FrameOf? || owner[p] == Held) ==>
        p in mem' && mem'[p] == mem[p]
  }

  /** All directories look the same. */
  ghost predicate AllViews(mem: Mem, owner: Owners, mem': Mem, owner': Owners) {
    && (forall e: nat :: IsDir(owner, e) ==> IsDir(owner', e))
    && (forall e: nat, v: nat :: IsDir(owner, e) ==> Lookup(mem', e, v) == Lookup(mem, e, v))
  }

  /** Page v of directory d has a new entry; nothing else looks different. */
  ghost predicate OneEntry(mem: Mem, owner: Owners, mem': Mem, owner': Owners, d: nat, v: nat, pte: Pte) {
    && (forall e: nat :: IsDir(owner, e) ==> IsDir(owner', e))
    && (forall e: nat, w: nat :: IsDir(owner, e) ==>
          Lookup(mem', e, w) == if e == d && w == v then pte else Lookup(mem, e, w))
  }

  /** Directories other than d look the same. */
  ghost predicate SameViews(mem: Mem, owner: Owners, mem': Mem, owner': Owners, d: nat) {
    && (forall e: nat :: IsDir(owner, e) && e != d ==> IsDir(owner', e))
    && (forall e: nat, v: nat :: IsDir(owner, e) && e != d ==> Lookup(mem', e, v) == Lookup(mem, e, v))
  }

  // ------------------------------------------------------------- the free list

  predicate Linked(mem: Mem, free: seq<nat>, i: nat)
    requires i < |free|
  {
    free[i] in mem && mem[free[i]] == Run(if i + 1 < |free| then Some(free[i + 1]) else None)
  }

  /** The chain from head is free, without repeats, and holds exactly the pages the free list owns. */
  ghost predicate FreeInv(mem: Mem, head: Option<nat>, free: seq<nat>, owner: Owners) {
    && head == (if free == [] then None else Some(free[0]))
    && (forall i: nat :: i < |free| ==> Linked(mem, free, i))
    && (forall i: nat, j: nat :: i < j < |free| ==> free[i] != free[j])
    && (forall p :: p in owner && owner[p] == FreeList <==> p in free)
  }

  lemma FreePop(mem: Mem, head: Option<nat>, free: seq<nat>, owner: Owners)
    requires FreeInv(mem, head, free, owner) && free != []
    ensures head == Some(free[0]) && free[0] in mem && mem[free[0]].Run? && free[0] in owner
            && owner[free[0]] == FreeList
    ensures FreeInv(mem, mem[free[0]].next, free[1..], owner[free[0] := Held])
  {
    assert Linked(mem, free, 0);
    var rest := free[1..];
    forall i: nat | i < |rest|
      ensures Linked(mem, rest, i)
    {
      assert Linked(mem, free, i + 1);
    }
    assert forall p :: p in free <==> p == free[0] || p in rest;
  }

  lemma FreePush(mem: Mem, head: Option<nat>, free: seq<nat>, owner: Owners, p: nat)
    requires FreeInv(mem, head, free, owner) && p in owner && owner[p] != FreeList
    ensures FreeInv(mem[p := Run(head)], Some(p), [p] + free, owner[p := FreeList])
  {
    var mem', free' := mem[p := Run(head)], [p] + free;
    forall i: nat | i < |free'|
      ensures Linked(mem', free', i)
    {
      if i > 0 { assert Linked(mem, free, i - 1) && free[i - 1] in free; }
    }
  }

  /** The free list does not depend on pages it does not own, or on who else owns what. */
  lemma FreeSame(mem: Mem, head: Option<nat>, free: seq<nat>, owner: Owners, mem': Mem, owner': Owners)
    requires FreeInv(mem, head, free, owner)
    requires forall p :: p in owner && owner[p] == FreeList ==> p in mem && p in mem' && mem'[p] == mem[p]
    requires forall p :: (p in owner && owner[p] == FreeList) <==> (p in owner' && owner'[p] == FreeList)
    ensures FreeInv(mem', head, free, owner')
  {
    forall i: nat | i < |free|
      ensures Linked(mem', free, i)
    {
      assert Linked(mem, free, i) && free[i] in free;
    }
  }
}

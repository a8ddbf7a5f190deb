/** How the steps on page tables combine: what stays the same, what is taken from the free list, what is given back. */
module VmSteps {
  import opened Basics
  import opened VmSpec


  // --------------------------------------------------- one step of each kind

  lemma AddTableSteps(mem: Mem, owner: Owners, d: nat, i: nat, t: nat)
    requires CanAddTable(mem, owner, d, i, t)
    ensures var mem', owner' := AddTable(mem, d, i, t), owner[t := TableOf(d, i)];
            && AllViews(mem, owner, mem', owner') && SameData(mem, owner, mem', owner')
            && TableAt(mem', d, i) == Some(t)
  {
    hide OwnInv, Lookup, TableAt;
    InvKeys(mem, owner);
    var mem', owner' := AddTable(mem, d, i, t), owner[t := TableOf(d, i)];
    forall e: nat, v: nat | IsDir(owner, e)
      ensures Lookup(mem', e, v) == Lookup(mem, e, v)
    {
      AddTableLookup(mem, owner, d, i, t, e, 0, v);
    }
    AddTableLookup(mem, owner, d, i, t, d, i, 0);
  }

  lemma SetPteSteps(mem: Mem, owner: Owners, d: nat, v: nat, pte: Pte)
    requires CanSet(mem, owner, d, v, pte)
    ensures TableFor(mem, d, v) in mem && mem[TableFor(mem, d, v)].Table? && |mem[TableFor(mem, d, v)].ptes| == NPTE
    ensures var mem', owner' := SetPte(mem, TableFor(mem, d, v), Ptx(v), pte),
            Reowned(owner, d, v, Lookup(mem, d, v), pte);
            OneEntry(mem, owner, mem', owner', d, v, pte)
  {
    hide OwnInv, Lookup, TableAt, Pdx, Ptx;
    TableShape(mem, owner, d, v);
    InvFrame(mem, owner, d, v);
    var mem', owner' := SetPte(mem, TableFor(mem, d, v), Ptx(v), pte), Reowned(owner, d, v, Lookup(mem, d, v), pte);
    forall e: nat, w: nat | IsDir(owner, e)
      ensures Lookup(mem', e, w) == if e == d && w == v then pte else Lookup(mem, e, w)
    {
      SetPteLookup(mem, owner, d, v, pte, e, 0, w);
    }
  }

  // ------------------------------------------------------- how steps compose

  /** Directory d looks as it did in mem0, but for pages first up to a, which map ppn onwards. */
  ghost predicate View(mem: Mem, d: nat, mem0: Mem, first: nat, a: nat, ppn: nat, perm: Perm) {
    forall v: nat :: Lookup(mem, d, v) == if first <= v < a then Present(ppn + (v - first), perm)
        else Lookup(mem0, d, v)
  }

  lemma ViewStep(mem0: Mem, mem: Mem, owner: Owners, mem1: Mem, owner1: Owners, mem2: Mem, owner2: Owners,
                 d: nat, first: nat, a: nat, ppn: nat, perm: Perm)
    requires View(mem, d, mem0, first, a, ppn, perm) && IsDir(owner, d) && first <= a
    requires AllViews(mem, owner, mem1, owner1)
             && OneEntry(mem1, owner1, mem2, owner2, d, a, Present(ppn + (a - first), perm))
    ensures View(mem2, d, mem0, first, a + 1, ppn, perm)
  {
    hide Lookup;
  }

  lemma ViewWalk(mem0: Mem, mem: Mem, owner: Owners, mem1: Mem, owner1: Owners, d: nat, first: nat, a: nat, ppn: nat,
                 perm: Perm)
    requires View(mem, d, mem0, first, a, ppn, perm) && IsDir(owner, d) && AllViews(mem, owner, mem1, owner1)
    ensures View(mem1, d, mem0, first, a, ppn, perm)
  {
    hide Lookup;
  }

  lemma ViewsTrans(mem0: Mem, owner0: Owners, mem1: Mem, owner1: Owners, mem2: Mem, owner2: Owners, d: nat)
    requires SameViews(mem0, owner0, mem1, owner1, d) && SameViews(mem1, owner1, mem2, owner2, d)
    ensures SameViews(mem0, owner0, mem2, owner2, d)
  {
    hide Lookup;
  }

  lemma TablesTrans(owner0: Owners, owner1: Owners, owner2: Owners, d: nat)
    requires TakenTables(owner0, owner1, d) && TakenTables(owner1, owner2, d)
    ensures TakenTables(owner0, owner2, d)
  {
  }

  lemma DataTrans(mem0: Mem, owner0: Owners, mem1: Mem, owner1: Owners, mem2: Mem, owner2: Owners, d: nat)
    requires TakenTables(owner1, owner2, d) && SameData(mem0, owner0, mem1, owner1)
             && SameData(mem1, owner1, mem2, owner2)
    requires mem0.Keys == owner0.Keys && mem1.Keys == owner1.Keys
    ensures SameData(mem0, owner0, mem2, owner2)
  {
  }

  /** The last page of a range, also of one that ends at the top of the 32-bit space. */
  lemma LastPage(va: nat, size: nat)
    requires 0 < size && va + size <= WORD
    ensures (va + size + WORD - 1) % WORD / PGSIZE == (va + size - 1) / PGSIZE < NPAGES
    ensures va / PGSIZE <= (va + size - 1) / PGSIZE
  {
    assert (va + size + WORD - 1) % WORD == va + size - 1;
  }

  lemma HeadOf(mem: Mem, head: Option<nat>, free: seq<nat>, owner: Owners)
    requires FreeInv(mem, head, free, owner)
    ensures head == if free == [] then None else Some(free[0])
  {
  }

  lemma DirShape(mem: Mem, owner: Owners, d: nat)
    requires OwnInv(mem, owner) && IsDir(owner, d)
    ensures d in mem && mem[d].Dir? && |mem[d].pdes| == NPTE
  {
    InvPage(mem, owner, d);
  }

  lemma LeafViews(mem: Mem, owner: Owners, p: nat, page: Page, o: Owner)
    requires OwnInv(mem, owner) && Leaf(owner, p) && o != DirOwner
    ensures AllViews(mem, owner, mem[p := page], owner[p := o])
  {
    hide OwnInv, Lookup;
    var mem', owner' := mem[p := page], owner[p := o];
    forall e: nat, v: nat | IsDir(owner, e)
      ensures Lookup(mem', e, v) == Lookup(mem, e, v)
    {
      LeafLookup(mem, owner, p, page, e, 0, v);
    }
  }

  lemma NewTableFree(mem: Mem, head: Option<nat>, free: seq<nat>, owner: Owners, d: nat, i: nat, t: nat)
    requires FreeInv(mem, head, free, owner) && CanAddTable(mem, owner, d, i, t)
    ensures FreeInv(AddTable(mem, d, i, t), head, free, owner[t := TableOf(d, i)])
  {
    hide OwnInv, FreeInv;
    InvKeys(mem, owner);
    FreeSame(mem, head, free, owner, AddTable(mem, d, i, t), owner[t := TableOf(d, i)]);
  }

  lemma EntryFree(mem: Mem, head: Option<nat>, free: seq<nat>, owner: Owners, d: nat, v: nat, pte: Pte)
    requires FreeInv(mem, head, free, owner) && CanSet(mem, owner, d, v, pte)
    ensures TableFor(mem, d, v) in mem && mem[TableFor(mem, d, v)].Table? && |mem[TableFor(mem, d, v)].ptes| == NPTE
    ensures FreeInv(SetPte(mem, TableFor(mem, d, v), Ptx(v), pte), head, free,
                    Reowned(owner, d, v, Lookup(mem, d, v), pte))
  {
    hide OwnInv, FreeInv, Lookup, TableAt, Pdx, Ptx;
    InvKeys(mem, owner);
    TableShape(mem, owner, d, v);
    InvFrame(mem, owner, d, v);
    FreeSame(mem, head, free, owner, SetPte(mem, TableFor(mem, d, v), Ptx(v), pte),
             Reowned(owner, d, v, Lookup(mem, d, v), pte));
  }

  /** A held page that has been filled with data. */
  predicate FrameReady(mem: Mem, owner: Owners, p: nat) {
    p in mem && p in owner && owner[p] == Held && mem[p].Frame? && |mem[p].bytes| == PGSIZE
  }

  /** The frame that page v gets in a run of pages that starts with page `first` and frame ppn. */
  function FrameFor(first: nat, ppn: nat, v: nat): nat
    requires first <= v
  {
    ppn + (v - first)
  }

  /** Page p is the frame of a user page below a in such a run. */
  predicate InRun(p: nat, first: nat, a: nat, ppn: nat) {
    ppn <= p && first + (p - ppn) < a && first + (p - ppn) < USER
  }

  /** The frames of the user pages from `first` up to a have become d's. */
  function Framed(owner: Owners, d: nat, first: nat, a: nat, ppn: nat): Owners {
    map p | p in owner :: if InRun(p, first, a, ppn) then FrameOf(d, first + (p - ppn)) else owner[p]
  }

  lemma FramedNone(owner: Owners, d: nat, first: nat, a: nat, ppn: nat)
    requires a <= first || USER <= first
    ensures Framed(owner, d, first, a, ppn) == owner
  {
  }

  lemma FramedOne(owner: Owners, d: nat, first: nat, ppn: nat)
    requires first < USER && ppn in owner
    ensures Framed(owner, d, first, first + 1, ppn) == owner[ppn := FrameOf(d, first)]
  {
  }

  /** The frame of page v is as it was, and ready unless page v has it already. */
  predicate RunPage(memS: Mem, mem: Mem, owner: Owners, first: nat, a: nat, ppn: nat, v: nat)
    requires first <= v
  {
    var p := FrameFor(first, ppn, v);
    && p in memS && p in mem && mem[p] == memS[p] && p in owner
    && if a <= v then FrameReady(mem, owner, p) else owner[p].FrameOf?
  }

  /** How far mappages has come: pages up to a are mapped, and the frames of the rest are ready. */
  ghost predicate Mapping(memS: Mem, ownerS: Owners, mem: Mem, owner: Owners, d: nat, first: nat, a: nat, last: nat,
                          ppn: nat) {
    && SameViews(memS, ownerS, mem, owner, d) && SameData(memS, ownerS, mem, owner)
    && TakenTables(Framed(ownerS, d, first, a, ppn), owner, d)
    && forall v: nat :: first <= v <= last && v < USER ==> RunPage(memS, mem, owner, first, a, ppn, v)
  }

  lemma MappingStart(mem: Mem, owner: Owners, d: nat, first: nat, last: nat, ppn: nat, perm: Perm)
    requires forall v: nat :: first <= v <= last && v < USER ==> FrameReady(mem, owner, FrameFor(first, ppn, v))
    ensures Mapping(mem, owner, mem, owner, d, first, first, last, ppn) && View(mem, d, mem, first, first, ppn, perm)
  {
    FramedNone(owner, d, first, first, ppn);
  }

  lemma StillAbsent(mem: Mem, d: nat, mem0: Mem, first: nat, a: nat, ppn: nat, perm: Perm)
    requires View(mem, d, mem0, first, a, ppn, perm)
    ensures Lookup(mem, d, a) == Lookup(mem0, d, a)
  {
    hide Lookup;
  }

  /** Taking a table for page a. */
  lemma MappingWalk(memS: Mem, ownerS: Owners, mem0: Mem, owner0: Owners, mem1: Mem, owner1: Owners,
                    d: nat, first: nat, a: nat, last: nat, ppn: nat, perm: Perm)
    requires OwnInv(memS, ownerS) && OwnInv(mem0, owner0) && OwnInv(mem1, owner1) && IsDir(owner0, d)
    requires Mapping(memS, ownerS, mem0, owner0, d, first, a, last, ppn) && View(mem0, d, memS, first, a, ppn, perm)
    requires AllViews(mem0, owner0, mem1, owner1) && SameData(mem0, owner0, mem1, owner1)
             && TakenTables(owner0, owner1, d)
    ensures Mapping(memS, ownerS, mem1, owner1, d, first, a, last, ppn) && View(mem1, d, memS, first, a, ppn, perm)
    ensures IsDir(owner1, d)
  {
    hide OwnInv, Lookup, View, SameData, TakenTables, Framed;
    InvKeys(memS, ownerS);
    InvKeys(mem0, owner0);
    ViewWalk(memS, mem0, owner0, mem1, owner1, d, first, a, ppn, perm);
    ViewsTrans(memS, ownerS, mem0, owner0, mem1, owner1, d);
    TablesTrans(Framed(ownerS, d, first, a, ppn), owner0, owner1, d);
    DataTrans(memS, ownerS, mem0, owner0, mem1, owner1, d);
    forall v: nat | first <= v <= last && v < USER
      ensures RunPage(memS, mem1, owner1, first, a, ppn, v)
    {
      assert RunPage(memS, mem0, owner0, first, a, ppn, v);
      RunPageStays(mem0, owner0, mem1, owner1, d, FrameFor(first, ppn, v));
    }
  }

  lemma RunPageStays(mem: Mem, owner: Owners, mem': Mem, owner': Owners, d: nat, p: nat)
    requires p in mem && p in owner && (owner[p].FrameOf? || owner[p] == Held)
    requires TakenTables(owner, owner', d) && SameData(mem, owner, mem', owner')
    ensures p in owner' && owner'[p] == owner[p] && p in mem' && mem'[p] == mem[p]
  {
  }

  /** Writing page a's entry. */
  lemma MappingEntry(memS: Mem, ownerS: Owners, mem1: Mem, owner1: Owners, mem2: Mem, owner2: Owners,
                     d: nat, first: nat, a: nat, last: nat, ppn: nat, perm: Perm, t: nat)
    requires OwnInv(memS, ownerS) && OwnInv(mem1, owner1) && IsDir(owner1, d) && first <= a <= last
    requires Mapping(memS, ownerS, mem1, owner1, d, first, a, last, ppn) && View(mem1, d, memS, first, a, ppn, perm)
    requires OneEntry(mem1, owner1, mem2, owner2, d, a, Present(ppn + (a - first), perm))
             && Lookup(mem1, d, a) == Absent
    requires owner2 == Reowned(owner1, d, a, Lookup(mem1, d, a), Present(ppn + (a - first), perm))
    requires t in mem2 && mem2 == mem1[t := mem2[t]] && t in owner1 && owner1[t].TableOf?
    ensures Mapping(memS, ownerS, mem2, owner2, d, first, a + 1, last, ppn) && IsDir(owner2, d)
    ensures View(mem2, d, memS, first, a + 1, ppn, perm)
  {
    hide OwnInv, Lookup, SameData, TakenTables, Framed, SameViews, RunPage;
    MappingViews(memS, ownerS, mem1, owner1, mem2, owner2, d, first, a, ppn, perm);
    MappingOwners(memS, ownerS, mem1, owner1, owner2, d, first, a, last, ppn);
    MappingData(memS, ownerS, mem1, owner1, mem2, owner2, d, first, a, last, ppn, t);
    var next := a + 1;
    forall v: nat | first <= v <= last && v < USER
      ensures RunPage(memS, mem2, owner2, first, next, ppn, v)
    {
      MappingPage(memS, mem1, owner1, mem2, owner2, d, first, a, ppn, t, v);
    }
  }

  lemma MappingViews(memS: Mem, ownerS: Owners, mem1: Mem, owner1: Owners, mem2: Mem, owner2: Owners,
                     d: nat, first: nat, a: nat, ppn: nat, perm: Perm)
    requires IsDir(owner1, d) && first <= a
    requires SameViews(memS, ownerS, mem1, owner1, d) && View(mem1, d, memS, first, a, ppn, perm)
    requires OneEntry(mem1, owner1, mem2, owner2, d, a, Present(ppn + (a - first), perm))
    ensures SameViews(memS, ownerS, mem2, owner2, d) && View(mem2, d, memS, first, a + 1, ppn, perm) && IsDir(owner2, d)
  {
    hide Lookup;
    assert AllViews(mem1, owner1, mem1, owner1);
    ViewStep(memS, mem1, owner1, mem1, owner1, mem2, owner2, d, first, a, ppn, perm);
    assert SameViews(mem1, owner1, mem2, owner2, d);
  }

  lemma MappingOwners(memS: Mem, ownerS: Owners, mem1: Mem, owner1: Owners, owner2: Owners,
                      d: nat, first: nat, a: nat, last: nat, ppn: nat)
    requires Mapping(memS, ownerS, mem1, owner1, d, first, a, last, ppn) && first <= a <= last
    requires owner2 == if a < USER then owner1[FrameFor(first, ppn, a) := FrameOf(d, a)] else owner1
    ensures TakenTables(Framed(ownerS, d, first, a + 1, ppn), owner2, d)
  {
    hide SameViews, SameData;
    if a < USER { assert RunPage(memS, mem1, owner1, first, a, ppn, a); }
  }

  lemma MappingData(memS: Mem, ownerS: Owners, mem1: Mem, owner1: Owners, mem2: Mem, owner2: Owners,
                    d: nat, first: nat, a: nat, last: nat, ppn: nat, t: nat)
    requires OwnInv(memS, ownerS) && OwnInv(mem1, owner1)
    requires Mapping(memS, ownerS, mem1, owner1, d, first, a, last, ppn) && first <= a <= last
    requires owner2 == if a < USER then owner1[FrameFor(first, ppn, a) := FrameOf(d, a)] else owner1
    requires t in mem2 && mem2 == mem1[t := mem2[t]] && t in owner1 && owner1[t].TableOf?
    ensures SameData(memS, ownerS, mem2, owner2)
  {
    hide SameViews, OwnInv;
    InvKeys(memS, ownerS);
    InvKeys(mem1, owner1);
    if a < USER {
      assert RunPage(memS, mem1, owner1, first, a, ppn, a);
      var f := FrameFor(first, ppn, a);
      assert owner1[f] == Held && f in Framed(ownerS, d, first, a, ppn);
    }
  }

  lemma MappingPage(memS: Mem, mem1: Mem, owner1: Owners, mem2: Mem, owner2: Owners,
                    d: nat, first: nat, a: nat, ppn: nat, t: nat, v: nat)
    requires first <= a && first <= v < USER && RunPage(memS, mem1, owner1, first, a, ppn, v)
    requires owner2 == if a < USER then owner1[FrameFor(first, ppn, a) := FrameOf(d, a)] else owner1
    requires t in mem2 && mem2 == mem1[t := mem2[t]] && t in owner1 && owner1[t].TableOf?
    ensures RunPage(memS, mem2, owner2, first, a + 1, ppn, v)
  {
  }

  /** The frame that the next page needs. */
  lemma MappingReady(memS: Mem, ownerS: Owners, mem: Mem, owner: Owners, d: nat, first: nat, a: nat, last: nat,
                     ppn: nat)
    requires Mapping(memS, ownerS, mem, owner, d, first, a, last, ppn) && first <= a <= last && a < USER
    ensures FrameReady(mem, owner, ppn + (a - first))
  {
    assert RunPage(memS, mem, owner, first, a, ppn, a);
  }

  /** One user page is mapped, or none. */
  lemma MappedOne(memS: Mem, ownerS: Owners, mem: Mem, owner: Owners, d: nat, first: nat, a: nat, ppn: nat)
    requires Mapping(memS, ownerS, mem, owner, d, first, a, first, ppn) && first < USER && first <= a <= first + 1
    ensures SameViews(memS, ownerS, mem, owner, d) && SameData(memS, ownerS, mem, owner)
    ensures ppn in ownerS && ppn in memS && ppn in mem && mem[ppn] == memS[ppn]
    ensures TakenTables(if a == first then ownerS else ownerS[ppn := FrameOf(d, first)], owner, d)
  {
    hide SameViews, SameData;
    assert RunPage(memS, mem, owner, first, a, ppn, first);
    assert ppn in Framed(ownerS, d, first, a, ppn).Keys;
    if a == first { FramedNone(ownerS, d, first, a, ppn); } else { FramedOne(ownerS, d, first, ppn); }
  }

  /** Kernel pages have no frames to own. */
  lemma MappedKernel(memS: Mem, ownerS: Owners, mem: Mem, owner: Owners, d: nat, first: nat, a: nat, last: nat,
                     ppn: nat)
    requires Mapping(memS, ownerS, mem, owner, d, first, a, last, ppn) && USER <= first
    ensures SameViews(memS, ownerS, mem, owner, d) && SameData(memS, ownerS, mem, owner)
            && TakenTables(ownerS, owner, d)
  {
    hide SameViews, SameData;
    FramedNone(ownerS, d, first, a, ppn);
  }

  /** How mappages ends: all mapped, no memory for a table, or the panic on a page that is mapped already. */
  datatype Mapped = AllMapped | NoMemory | Remap

  // ----------------------------------------------------------- shrinking

  /** Pages needed for this many bytes: the address rounded up to a page, in pages. */
  function Pages(sz: nat): nat { (sz + PGSIZE - 1) / PGSIZE }

  function Least(a: nat, b: nat): nat { if a < b then a else b }

  lemma PagesIs(a: nat, sz: nat)
    ensures a * PGSIZE < sz <==> a < Pages(sz)
  {
  }

  lemma PagesBound(newsz: nat, oldsz: nat)
    ensures newsz <= oldsz ==> Pages(newsz) <= Pages(oldsz)
    ensures oldsz <= newsz ==> Pages(oldsz) <= Pages(newsz)
    ensures oldsz <= USER * PGSIZE ==> Pages(oldsz) <= USER
  {
  }

  /** Directory d looks as it did in mem0, but pages lo up to hi are gone. */
  ghost predicate Cleared(mem: Mem, d: nat, mem0: Mem, lo: nat, hi: nat) {
    forall v: nat :: Lookup(mem, d, v) == if lo <= v < hi then Absent else Lookup(mem0, d, v)
  }

  lemma NothingReleased(mem: Mem, owner: Owners, d: nat, lo: nat, hi: nat)
    ensures SameViews(mem, owner, mem, owner, d) && SameData(mem, owner, mem, owner)
    ensures Cleared(mem, d, mem, lo, Least(lo, hi)) && owner == Released(owner, d, lo, Least(lo, hi))
    ensures hi <= lo ==> Cleared(mem, d, mem, lo, hi) && owner == Released(owner, d, lo, hi)
  {
  }

  /** All the pages under an empty slot are absent, so skipping them is as good as visiting each. */
  lemma SlotAbsent(mem: Mem, d: nat, a: nat, v: nat)
    requires TableAt(mem, d, Pdx(a)) == None && a <= v < (Pdx(a) + 1) * NPTE
    ensures Lookup(mem, d, v) == Absent
  {
    assert Pdx(v) == Pdx(a);
  }

  lemma SkipRelations(mem0: Mem, owner0: Owners, mem: Mem, owner: Owners, d: nat, lo: nat, a: nat, hi: nat)
    requires OwnInv(mem, owner) && IsDir(owner, d) && TableAt(mem, d, Pdx(a)) == None && lo <= a < hi
    requires Cleared(mem, d, mem0, lo, a) && owner == Released(owner0, d, lo, a)
    ensures var b := (Pdx(a) + 1) * NPTE;
            a < b && Cleared(mem, d, mem0, lo, Least(b, hi)) && owner == Released(owner0, d, lo, Least(b, hi))
  {
    hide OwnInv, Lookup, TableAt;
    var b := (Pdx(a) + 1) * NPTE;
    assert a < b;
    forall v: nat | a <= v < b
      ensures Lookup(mem, d, v) == Absent
    {
      hide Pdx;
      SlotAbsent(mem, d, a, v);
    }
    AbsentRelations(mem0, owner0, mem, owner, d, lo, a, Least(b, hi));
  }

  lemma AbsentRelations(mem0: Mem, owner0: Owners, mem: Mem, owner: Owners, d: nat, lo: nat, a: nat, b: nat)
    requires OwnInv(mem, owner) && IsDir(owner, d) && lo <= a <= b && forall v: nat :: a <= v < b ==>
             Lookup(mem, d, v) == Absent
    requires Cleared(mem, d, mem0, lo, a) && owner == Released(owner0, d, lo, a)
    ensures Cleared(mem, d, mem0, lo, b) && owner == Released(owner0, d, lo, b)
  {
    hide OwnInv, Lookup, TableAt;
    var r := Released(owner0, d, lo, b);
    forall p | p in owner0
      ensures r[p] == owner[p]
    {
      InvPage(mem, owner, p);
    }
    assert r.Keys == owner.Keys;
  }

  lemma UnmapRelations(memS: Mem, ownerS: Owners, mem: Mem, owner: Owners, mem': Mem, owner': Owners, d: nat, lo: nat,
                       a: nat)
    requires OwnInv(memS, ownerS) && OwnInv(mem, owner) && IsDir(owner, d) && lo <= a < USER
    requires SameViews(memS, ownerS, mem, owner, d) && SameData(memS, ownerS, mem, owner)
    requires Cleared(mem, d, memS, lo, a) && owner == Released(ownerS, d, lo, a)
    requires OneEntry(mem, owner, mem', owner', d, a, Absent) && SameData(mem, owner, mem', owner')
             && Unmapped(mem, owner, owner', d, a)
    ensures SameViews(memS, ownerS, mem', owner', d) && SameData(memS, ownerS, mem', owner') && IsDir(owner', d)
    ensures Cleared(mem', d, memS, lo, a + 1) && owner' == Released(ownerS, d, lo, a + 1)
  {
    hide OwnInv, Lookup, TableAt, Released, SameData;
    UnmapOwners(memS, ownerS, mem, owner, owner', d, lo, a);
    UnmapData(memS, ownerS, mem, owner, mem', owner', d, lo, a);
  }

  /** Page v's frame, if there was one, is free. */
  ghost predicate Unmapped(mem: Mem, owner: Owners, owner': Owners, d: nat, v: nat) {
    var e := Lookup(mem, d, v);
    if e == Absent then owner' == owner
    else e.ppn in owner && owner[e.ppn] == FrameOf(d, v) && owner' == owner[e.ppn := FreeList]
  }

  lemma UnmapData(memS: Mem, ownerS: Owners, mem: Mem, owner: Owners, mem': Mem, owner': Owners, d: nat, lo: nat,
                  a: nat)
    requires OwnInv(memS, ownerS) && OwnInv(mem, owner) && owner == Released(ownerS, d, lo, a)
    requires SameData(memS, ownerS, mem, owner) && SameData(mem, owner, mem', owner')
             && Unmapped(mem, owner, owner', d, a)
    ensures SameData(memS, ownerS, mem', owner')
  {
    hide OwnInv, Lookup;
    InvKeys(memS, ownerS);
    InvKeys(mem, owner);
  }

  lemma UnmapOwners(memS: Mem, ownerS: Owners, mem: Mem, owner: Owners, owner': Owners, d: nat, lo: nat, a: nat)
    requires OwnInv(mem, owner) && IsDir(owner, d) && lo <= a && owner == Released(ownerS, d, lo, a)
    requires Unmapped(mem, owner, owner', d, a)
    ensures owner' == Released(ownerS, d, lo, a + 1)
  {
    hide OwnInv, Lookup;
    var r := Released(ownerS, d, lo, a + 1);
    forall p | p in ownerS
      ensures r[p] == owner'[p]
    {
      InvPage(mem, owner, p);
    }
    assert r.Keys == owner'.Keys;
  }

  // ------------------------------------------------------------- freeing all

  lemma UserPages()
    ensures Pages(USER * PGSIZE) == USER && Pages(0) == 0
  {
  }

  lemma AllCleared(mem: Mem, d: nat, mem0: Mem)
    requires Cleared(mem, d, mem0, 0, USER)
    ensures forall v: nat :: v < USER ==> Lookup(mem, d, v) == Absent
  {
    hide Lookup;
  }

  /** Owners once the tables below slot i are free. */
  function Dismantling(owner: Owners, d: nat, i: nat): Owners {
    map p | p in owner ::
      if p == d then Held
      else if owner[p].TableOf? && owner[p].d == d then if owner[p].i < i then FreeList else Held
      else owner[p]
  }

  lemma StartDismantling(mem: Mem, owner: Owners, d: nat)
    requires OwnInv(mem, owner) && IsDir(owner, d)
    ensures Dismantled(owner, d) == Dismantling(owner, d, 0)
    ensures SameViews(mem, owner, mem, Dismantled(owner, d), d) && SameData(mem, owner, mem, Dismantled(owner, d))
  {
    hide OwnInv, Lookup;
  }

  lemma DismantledFree(mem: Mem, head: Option<nat>, free: seq<nat>, owner: Owners, d: nat)
    requires OwnInv(mem, owner) && FreeInv(mem, head, free, owner) && IsDir(owner, d)
    ensures FreeInv(mem, head, free, Dismantled(owner, d))
  {
    hide FreeInv, OwnInv;
    InvKeys(mem, owner);
    FreeSame(mem, head, free, owner, mem, Dismantled(owner, d));
  }

  lemma DismantlingAt(mem: Mem, owner: Owners, d: nat, i: nat)
    requires OwnInv(mem, owner) && IsDir(owner, d) && i < NPTE
    ensures d in mem && mem[d].Dir? && |mem[d].pdes| == NPTE
    ensures var e, o := mem[d].pdes[i], Dismantling(owner, d, i);
            if e.None? then Dismantling(owner, d, i + 1) == o
            else
              && e.value != d && e.value in owner && owner[e.value] == TableOf(d, i)
              && e.value in o && o[e.value] == Held && Dismantling(owner, d, i + 1) == o[e.value := FreeList]
  {
    hide OwnInv, Lookup;
    DirShape(mem, owner, d);
    InvTable(mem, owner, d, i);
    var o, o' := Dismantling(owner, d, i), Dismantling(owner, d, i + 1);
    forall p | p in owner
      ensures mem[d].pdes[i] == Some(p) ==> o'[p] == FreeList
      ensures mem[d].pdes[i] != Some(p) ==> o'[p] == o[p]
    {
      InvPage(mem, owner, p);
    }
  }

  lemma FreedTable(mem1: Mem, owner1: Owners, mem2: Mem, owner2: Owners, mem: Mem, owner: Owners, d: nat, i: nat)
    requires OwnInv(mem1, owner1) && OwnInv(mem2, owner2) && IsDir(owner1, d) && i < NPTE
    requires d in mem1 && mem1[d].Dir? && |mem1[d].pdes| == NPTE && mem1[d].pdes[i].Some?
    requires SameViews(mem1, owner1, mem2, owner2, d) && SameData(mem1, owner1, mem2, owner2)
    requires owner2 == Dismantling(owner1, d, i)
    requires var t := mem1[d].pdes[i].value;
             && t in mem && mem == mem2[t := mem[t]] && owner == owner2[t := FreeList]
             && AllViews(mem2, owner2, mem, owner)
             && t in owner1 && owner1[t] == TableOf(d, i)
    ensures SameViews(mem1, owner1, mem, owner, d) && SameData(mem1, owner1, mem, owner)
  {
    hide OwnInv, Lookup;
    InvKeys(mem1, owner1);
    InvKeys(mem2, owner2);
  }

  lemma LastDismantling(mem: Mem, owner: Owners, d: nat)
    requires OwnInv(mem, owner) && IsDir(owner, d)
    ensures d in Dismantling(owner, d, NPTE) && Dismantling(owner, d, NPTE)[d] == Held
  {
  }

  lemma FreedDir(mem0: Mem, owner0: Owners, mem1: Mem, owner1: Owners, mem2: Mem, owner2: Owners, mem: Mem,
                 owner: Owners, d: nat)
    requires OwnInv(mem0, owner0) && OwnInv(mem1, owner1) && OwnInv(mem2, owner2) && IsDir(owner0, d)
             && IsDir(owner1, d)
    requires SameViews(mem0, owner0, mem1, owner1, d) && SameData(mem0, owner0, mem1, owner1)
    requires owner1 == Released(owner0, d, 0, USER) && owner2 == Dismantling(owner1, d, NPTE)
    requires SameViews(mem1, owner1, mem2, owner2, d) && SameData(mem1, owner1, mem2, owner2)
    requires d in mem && mem == mem2[d := mem[d]] && owner == owner2[d := FreeList]
             && AllViews(mem2, owner2, mem, owner)
    ensures SameViews(mem0, owner0, mem, owner, d) && SameData(mem0, owner0, mem, owner) && owner == Returned(owner0, d)
  {
    hide OwnInv, Lookup, SameData, Released, Dismantling, Returned;
    InvKeys(mem0, owner0);
    InvKeys(mem1, owner1);
    InvKeys(mem2, owner2);
    ReturnedIs(mem0, owner0, d);
    FreedData(mem0, owner0, mem1, owner1, mem2, owner2, mem, owner, d);
  }

  lemma ReturnedIs(mem: Mem, owner: Owners, d: nat)
    requires OwnInv(mem, owner) && IsDir(owner, d)
    ensures Dismantling(Released(owner, d, 0, USER), d, NPTE)[d := FreeList] == Returned(owner, d)
  {
    hide OwnInv, Lookup;
    var a, b := Dismantling(Released(owner, d, 0, USER), d, NPTE)[d := FreeList], Returned(owner, d);
    forall p | p in owner
      ensures a[p] == b[p]
    {
      InvPage(mem, owner, p);
      if owner[p].TableOf? && owner[p].d == d { DirShape(mem, owner, d); }
    }
    assert a.Keys == b.Keys;
  }

  lemma FreedData(mem0: Mem, owner0: Owners, mem1: Mem, owner1: Owners, mem2: Mem, owner2: Owners, mem: Mem,
                  owner: Owners, d: nat)
    requires mem0.Keys == owner0.Keys && mem1.Keys == owner1.Keys && mem2.Keys == owner2.Keys && IsDir(owner0, d)
    requires SameData(mem0, owner0, mem1, owner1) && SameData(mem1, owner1, mem2, owner2)
    requires owner1 == Released(owner0, d, 0, USER) && owner2 == Dismantling(owner1, d, NPTE)
    requires d in mem && mem == mem2[d := mem[d]] && owner == owner2[d := FreeList]
    ensures SameData(mem0, owner0, mem, owner)
  {
  }

  // ----------------------------------------------------------------- growing

  function Zeros(): (z: seq<char>)
    ensures |z| == PGSIZE
  {
    seq(PGSIZE, i => 0 as char)
  }

  /** Page p went from the free list to a holder. */
  ghost predicate Fresh(owner: Owners, owner': Owners, p: nat) {
    p in owner && owner[p] == FreeList && owner' == owner[p := Held]
  }

  lemma HeldFree(mem: Mem, head: Option<nat>, free: seq<nat>, owner: Owners, p: nat, page: Page)
    requires OwnInv(mem, owner) && FreeInv(mem, head, free, owner) && p in owner && owner[p] == Held
    ensures FreeInv(mem[p := page], head, free, owner)
  {
    hide FreeInv, OwnInv;
    InvKeys(mem, owner);
    FreeSame(mem, head, free, owner, mem[p := page], owner);
  }

  /** Page v of d is a user page of zeros. */
  predicate ZeroPage(mem: Mem, d: nat, v: nat) {
    var e := Lookup(mem, d, v);
    e.Present? && e.perm == Perm(true, true) && e.ppn in mem && mem[e.ppn] == Frame(Zeros())
  }

  /** Page v of directory d is the user's to read and write, and every byte of it is 0. */
  ghost predicate AllZero(mem: Mem, d: nat, v: nat) {
    var e := Lookup(mem, d, v);
    && e.Present? && e.perm.w && e.perm.u && e.ppn in mem && mem[e.ppn].Frame? && |mem[e.ppn].bytes| == PGSIZE
    && forall x :: 0 <= x < PGSIZE ==> mem[e.ppn].bytes[x] as int == 0
  }

  lemma GrownZero(mem: Mem, d: nat, mem0: Mem, lo: nat, a: nat)
    requires GrownView(mem, d, mem0, lo, a)
    ensures forall v: nat :: lo <= v < a ==> AllZero(mem, d, v)
  {
    hide Lookup;
    forall v: nat | lo <= v < a
      ensures AllZero(mem, d, v)
    {
      assert ZeroPage(mem, d, v);
    }
  }

  /** Directory d looks as it did in mem0, but pages lo up to a are zeroed user pages. */
  ghost predicate GrownView(mem: Mem, d: nat, mem0: Mem, lo: nat, a: nat) {
    && (forall v: nat :: lo <= v < a ==> ZeroPage(mem, d, v))
    && (forall v: nat :: !(lo <= v < a) ==> Lookup(mem, d, v) == Lookup(mem0, d, v))
  }

  /** Free pages became tables of d, or frames of its pages lo up to hi; no other page changed owner. */
  ghost predicate TakenRange(owner: Owners, owner': Owners, d: nat, lo: nat, hi: nat) {
    && owner'.Keys == owner.Keys
    && forall p :: p in owner ==>
         || owner'[p] == owner[p]
         || (owner[p] == FreeList && owner'[p].TableOf? && owner'[p].d == d)
         || (owner[p] == FreeList && owner'[p].FrameOf? && owner'[p].d == d && lo <= owner'[p].v < hi)
  }

  function Apart(owner: Owners, m: Option<nat>): Owners {
    if m.Some? then owner[m.value := FreeList] else owner
  }

  /** Where growing has got to: pages lo up to a are there, and page m, if any, is at hand. */
  /** No page from lo up to hi is mapped. */
  ghost predicate Vacant(mem: Mem, d: nat, lo: nat, hi: nat) {
    forall v: nat :: lo <= v < hi ==> Lookup(mem, d, v) == Absent
  }

  ghost predicate Growing(memS: Mem, ownerS: Owners, mem: Mem, owner: Owners, d: nat, lo: nat, a: nat, m: Option<nat>) {
    && SameViews(memS, ownerS, mem, owner, d) && SameData(memS, ownerS, mem, owner)
    && GrownView(mem, d, memS, lo, a) && TakenRange(ownerS, Apart(owner, m), d, lo, a)
    && (m.Some? ==> m.value in owner && owner[m.value] == Held && m.value in ownerS && ownerS[m.value] == FreeList)
  }

  lemma StartGrowing(mem: Mem, owner: Owners, d: nat, lo: nat)
    ensures SameViews(mem, owner, mem, owner, d) && SameData(mem, owner, mem, owner)
    ensures Growing(mem, owner, mem, owner, d, lo, lo, None)
  {
  }

  lemma GrowingDone(memS: Mem, ownerS: Owners, mem: Mem, owner: Owners, d: nat, lo: nat, a: nat)
    requires Growing(memS, ownerS, mem, owner, d, lo, a, None)
    ensures SameViews(memS, ownerS, mem, owner, d) && SameData(memS, ownerS, mem, owner)
    ensures GrownView(mem, d, memS, lo, a) && TakenRange(ownerS, owner, d, lo, a)
  {
  }

  /** Nothing but tables was added. */
  lemma Ungrown(memS: Mem, ownerS: Owners, mem: Mem, owner: Owners, d: nat)
    requires Growing(memS, ownerS, mem, owner, d, 0, 0, None)
    ensures SameViews(memS, ownerS, mem, owner, d) && SameData(memS, ownerS, mem, owner)
    ensures GrownView(mem, d, memS, 0, 0) && TakenTables(ownerS, owner, d)
  {
    hide Lookup, SameViews, SameData, GrownView;
  }

  /** Frames of d keep what they hold, so zeroed pages stay so. */
  lemma ZeroKept(mem: Mem, owner: Owners, mem': Mem, owner': Owners, d: nat, v: nat)
    requires OwnInv(mem, owner) && IsDir(owner, d) && v < USER && ZeroPage(mem, d, v)
             && Lookup(mem', d, v) == Lookup(mem, d, v)
    requires SameData(mem, owner, mem', owner')
    requires forall p :: p in owner && owner[p].FrameOf? ==> p in owner' && owner'[p] == owner[p]
    ensures ZeroPage(mem', d, v)
  {
    hide OwnInv, Lookup;
    InvFrame(mem, owner, d, v);
  }

  lemma GrownKept(memS: Mem, mem: Mem, owner: Owners, mem': Mem, owner': Owners, d: nat, lo: nat, a: nat)
    requires OwnInv(mem, owner) && IsDir(owner, d) && a <= USER && GrownView(mem, d, memS, lo, a)
    requires forall v: nat :: Lookup(mem', d, v) == Lookup(mem, d, v)
    requires SameData(mem, owner, mem', owner')
    requires forall p :: p in owner && owner[p].FrameOf? ==> p in owner' && owner'[p] == owner[p]
    ensures GrownView(mem', d, memS, lo, a)
  {
    hide OwnInv, Lookup, SameData, ZeroPage;
    forall v: nat | lo <= v < a ensures ZeroPage(mem', d, v) { ZeroKept(mem, owner, mem', owner', d, v); }
  }

  lemma NewFrameGrowing(memS: Mem, ownerS: Owners, mem: Mem, owner: Owners, mem': Mem, owner': Owners, d: nat,
                        lo: nat, a: nat, m: nat)
    requires OwnInv(memS, ownerS) && OwnInv(mem, owner) && IsDir(owner, d) && a <= USER
    requires Growing(memS, ownerS, mem, owner, d, lo, a, None)
    requires AllViews(mem, owner, mem', owner') && SameData(mem, owner, mem', owner') && Fresh(owner, owner', m)
    ensures Growing(memS, ownerS, mem', owner', d, lo, a, Some(m)) && Lookup(mem', d, a) == Lookup(memS, d, a)
            && IsDir(owner', d)
  {
    hide OwnInv, Lookup, GrownView, SameData, SameViews, AllViews, TakenRange;
    InvKeys(memS, ownerS);
    InvKeys(mem, owner);
    AllIsSame(mem, owner, mem', owner', d);
    GrownKept(memS, mem, owner, mem', owner', d, lo, a);
    GrownAt(mem', d, memS, lo, a);
    ViewsTrans(memS, ownerS, mem, owner, mem', owner', d);
    FreshData(memS, ownerS, mem, owner, mem', owner', d, lo, a, m);
    assert owner'[m := FreeList] == owner;
  }

  lemma AllIsSame(mem: Mem, owner: Owners, mem': Mem, owner': Owners, d: nat)
    requires AllViews(mem, owner, mem', owner') && IsDir(owner, d)
    ensures SameViews(mem, owner, mem', owner', d) && IsDir(owner', d)
    ensures forall v: nat :: Lookup(mem', d, v) == Lookup(mem, d, v)
  {
    hide Lookup;
  }

  lemma GrownAt(mem: Mem, d: nat, memS: Mem, lo: nat, a: nat)
    requires GrownView(mem, d, memS, lo, a)
    ensures Lookup(mem, d, a) == Lookup(memS, d, a)
  {
  }

  lemma FreshData(memS: Mem, ownerS: Owners, mem: Mem, owner: Owners, mem': Mem, owner': Owners, d: nat, lo: nat,
                  a: nat, m: nat)
    requires memS.Keys == ownerS.Keys && mem.Keys == owner.Keys && TakenRange(ownerS, owner, d, lo, a)
             && Fresh(owner, owner', m)
    requires SameData(memS, ownerS, mem, owner) && SameData(mem, owner, mem', owner')
    ensures SameData(memS, ownerS, mem', owner') && m in ownerS && ownerS[m] == FreeList
  {
  }

  lemma NoTableGrowing(memS: Mem, ownerS: Owners, mem: Mem, owner: Owners, mem': Mem, owner': Owners,
                       d: nat, lo: nat, a: nat, m: nat, upto: nat)
    requires OwnInv(memS, ownerS) && OwnInv(mem, owner) && IsDir(owner, d) && a <= USER && upto == a
    requires Growing(memS, ownerS, mem, owner, d, lo, a, Some(m))
    requires SameViews(mem, owner, mem', owner', d) && SameData(mem, owner, mem', owner')
    requires View(mem', d, mem, a, upto, m, Perm(true, true)) && TakenTables(owner, owner', d)
    ensures Growing(memS, ownerS, mem', owner', d, lo, a, Some(m))
  {
    hide OwnInv, Lookup, GrownView, SameData;
    InvKeys(memS, ownerS);
    InvKeys(mem, owner);
    GrownKept(memS, mem, owner, mem', owner', d, lo, a);
    ViewsTrans(memS, ownerS, mem, owner, mem', owner', d);
    HeldData(memS, ownerS, mem, owner, mem', owner', d, lo, a, m);
  }

  lemma HeldData(memS: Mem, ownerS: Owners, mem: Mem, owner: Owners, mem': Mem, owner': Owners, d: nat, lo: nat,
                 a: nat, m: nat)
    requires memS.Keys == ownerS.Keys && mem.Keys == owner.Keys && m in ownerS && ownerS[m] == FreeList
    requires TakenRange(ownerS, owner[m := FreeList], d, lo, a) && m in owner
    requires forall p :: p in owner && p != m && owner[p] != FreeList ==> p in owner' && owner'[p] == owner[p]
    requires SameData(memS, ownerS, mem, owner) && SameData(mem, owner, mem', owner')
    ensures SameData(memS, ownerS, mem', owner')
  {
  }

  lemma MappedGrowing(memS: Mem, ownerS: Owners, mem: Mem, owner: Owners, mem': Mem, owner': Owners,
                      d: nat, lo: nat, a: nat, m: nat, upto: nat)
    requires OwnInv(memS, ownerS) && OwnInv(mem, owner) && IsDir(owner, d) && lo <= a < USER && upto == a + 1
    requires Growing(memS, ownerS, mem, owner, d, lo, a, Some(m)) && m in mem && mem[m] == Frame(Zeros())
    requires SameViews(mem, owner, mem', owner', d) && SameData(mem, owner, mem', owner')
    requires View(mem', d, mem, a, upto, m, Perm(true, true)) && TakenTables(owner[m := FrameOf(d, a)], owner', d)
    requires OwnInv(mem', owner') && m in mem' && mem'[m] == mem[m]
    ensures Growing(memS, ownerS, mem', owner', d, lo, a + 1, None)
  {
    hide OwnInv, Lookup, SameData;
    InvKeys(memS, ownerS);
    InvKeys(mem, owner);
    ViewsTrans(memS, ownerS, mem, owner, mem', owner', d);
    HeldData(memS, ownerS, mem, owner, mem', owner', d, lo, a, m);
    assert Lookup(mem', d, a) == Present(m, Perm(true, true));
    forall v: nat | lo <= v < a + 1
      ensures ZeroPage(mem', d, v)
    {
      if v < a {
        assert ZeroPage(mem, d, v);
        ZeroKept(mem, owner, mem', owner', d, v);
      }
    }
  }

  lemma PageAlone(a: nat)
    requires a < USER
    ensures a * PGSIZE / PGSIZE == a == (a * PGSIZE + PGSIZE - 1) / PGSIZE && a * PGSIZE + PGSIZE <= WORD
  {
  }

  /** Removing the pages added so far leaves only tables taken. */
  lemma RangeReleased(mem0: Mem, owner0: Owners, owner: Owners, d: nat, lo: nat, a: nat, hi: nat)
    requires OwnInv(mem0, owner0) && lo <= a <= hi <= USER
             && (forall v: nat :: lo <= v < hi ==> Lookup(mem0, d, v) == Absent)
    requires TakenRange(owner0, owner, d, lo, a)
    ensures TakenTables(owner0, Released(owner, d, lo, hi), d)
  {
    hide OwnInv, Lookup;
    var r := Released(owner, d, lo, hi);
    assert r.Keys == owner0.Keys;
    forall p | p in owner0
      ensures r[p] == owner0[p] || (owner0[p] == FreeList && r[p].TableOf? && r[p].d == d)
    {
      InvPage(mem0, owner0, p);
    }
  }

  lemma ClearedIsOld(mem0: Mem, mem: Mem, mem': Mem, d: nat, lo: nat, a: nat, hi: nat)
    requires GrownView(mem, d, mem0, lo, a) && Cleared(mem', d, mem, lo, hi) && lo <= a <= hi
    requires forall v: nat :: lo <= v < hi ==> Lookup(mem0, d, v) == Absent
    ensures GrownView(mem', d, mem0, 0, 0)
  {
    hide Lookup;
  }

  /** Undoing what was grown, with page m still at hand. */
  lemma GaveBack(memS: Mem, ownerS: Owners, mem: Mem, owner: Owners, mem': Mem, owner': Owners,
                 d: nat, lo: nat, a: nat, hi: nat, m: Option<nat>)
    requires OwnInv(memS, ownerS) && OwnInv(mem, owner) && lo <= a <= hi <= USER
    requires Vacant(memS, d, lo, hi)
    requires Growing(memS, ownerS, mem, owner, d, lo, a, m)
    requires SameViews(mem, owner, mem', owner', d) && SameData(mem, owner, mem', owner')
    requires Cleared(mem', d, mem, lo, hi) && owner' == Released(owner, d, lo, hi)
    ensures Growing(memS, ownerS, mem', owner', d, 0, 0, m)
  {
    hide OwnInv, Lookup, SameViews, SameData, GrownView, TakenRange, TakenTables, Cleared, Released;
    InvKeys(memS, ownerS);
    InvKeys(mem, owner);
    ViewsTrans(memS, ownerS, mem, owner, mem', owner', d);
    RangeReleased(memS, ownerS, Apart(owner, m), d, lo, a, hi);
    ApartReleased(owner, m, d, lo, hi);
    ClearedIsOld(memS, mem, mem', d, lo, a, hi);
    GaveBackData(memS, ownerS, mem, owner, mem', owner', d, lo, a, hi, m);
    NoFrames(ownerS, Apart(owner', m), d);
  }

  lemma ApartReleased(owner: Owners, m: Option<nat>, d: nat, lo: nat, hi: nat)
    requires m.Some? ==> m.value in owner && owner[m.value] == Held
    ensures Released(Apart(owner, m), d, lo, hi) == Apart(Released(owner, d, lo, hi), m)
    ensures m.Some? ==> m.value in Released(owner, d, lo, hi) && Released(owner, d, lo, hi)[m.value] == Held
  {
  }

  lemma NoFrames(owner: Owners, owner': Owners, d: nat)
    requires TakenTables(owner, owner', d)
    ensures TakenRange(owner, owner', d, 0, 0)
  {
  }

  lemma GaveBackData(memS: Mem, ownerS: Owners, mem: Mem, owner: Owners, mem': Mem, owner': Owners,
                     d: nat, lo: nat, a: nat, hi: nat, m: Option<nat>)
    requires memS.Keys == ownerS.Keys && mem.Keys == owner.Keys && TakenRange(ownerS, Apart(owner, m), d, lo, a)
    requires m.Some? ==> m.value in owner && m.value in ownerS && ownerS[m.value] == FreeList
    requires SameData(memS, ownerS, mem, owner) && SameData(mem, owner, mem', owner')
             && owner' == Released(owner, d, lo, hi)
    ensures SameData(memS, ownerS, mem', owner')
  {
  }

  /** Unmapping a range takes nothing from the page at hand. */
  lemma StillHeld(memS: Mem, ownerS: Owners, mem: Mem, owner: Owners, d: nat, lo: nat, a: nat, hi: nat, m: nat)
    requires Growing(memS, ownerS, mem, owner, d, lo, a, Some(m))
    ensures m in Released(owner, d, lo, hi) && Released(owner, d, lo, hi)[m] == Held
  {
  }

  /** After the whole range is unmapped, it does not matter which of its pages were new. */
  lemma ClearedGrown(memS: Mem, ownerS: Owners, mem: Mem, owner: Owners, mem': Mem, d: nat, lo: nat, a: nat, hi: nat,
                     m: Option<nat>)
    requires Growing(memS, ownerS, mem, owner, d, lo, a, m) && a <= hi && Cleared(mem', d, mem, lo, hi)
    ensures Cleared(mem', d, memS, lo, hi)
  {
    hide Lookup;
  }

  lemma ClearedKept(memS: Mem, mem: Mem, owner: Owners, mem': Mem, owner': Owners, d: nat, lo: nat, hi: nat)
    requires Cleared(mem, d, memS, lo, hi) && IsDir(owner, d) && AllViews(mem, owner, mem', owner')
    ensures Cleared(mem', d, memS, lo, hi)
  {
    hide Lookup;
  }

  lemma DroppedHeld(memS: Mem, ownerS: Owners, mem: Mem, owner: Owners, mem': Mem, owner': Owners, d: nat, m: nat)
    requires Growing(memS, ownerS, mem, owner, d, 0, 0, Some(m)) && IsDir(owner, d)
    requires AllViews(mem, owner, mem', owner') && m in mem' && mem' == mem[m := mem'[m]]
             && owner' == owner[m := FreeList]
    ensures Growing(memS, ownerS, mem', owner', d, 0, 0, None)
  {
    hide Lookup;
  }

  // --------------------------------------------------- the kernel's mappings

  const KERNBASE: nat := 0x8000_0000
  const EXTMEM: nat := 0x10_0000
  const PHYSTOP: nat := 0xE00_0000
  const DEVSPACE: nat := 0xFE00_0000
  const KERNLINK: nat := KERNBASE + EXTMEM

  datatype Kmap = Kmap(virt: nat, start: nat, end: nat, perm: Perm)

  /** Where the kernel's read-write data begins is fixed when it is linked. */
  predicate DataOk(data: nat) {
    KERNLINK < data < KERNBASE + PHYSTOP && data % PGSIZE == 0
  }

  function KernelMaps(data: nat): (ks: seq<Kmap>)
    requires DataOk(data)
    ensures |ks| == 4
  {
    [Kmap(KERNBASE, 0, EXTMEM, Perm(true, false)),
     Kmap(KERNLINK, KERNLINK - KERNBASE, data - KERNBASE, Perm(false, false)),
     Kmap(data, data - KERNBASE, PHYSTOP, Perm(true, false)),
     Kmap(DEVSPACE, DEVSPACE, 0, Perm(true, false))]
  }

  /** In 32-bit arithmetic: the last mapping ends where the address space does. */
  function SizeOf(k: Kmap): nat {
    (k.end + WORD - k.start) % WORD
  }

  /** The kernel's view after the first n mappings. */
  function KernelPart(data: nat, n: nat, v: nat): Pte
    requires DataOk(data) && n <= 4
  {
    if n == 0 then Absent
    else
      var k := KernelMaps(data)[n - 1];
      if k.virt / PGSIZE <= v && v * PGSIZE < k.virt + SizeOf(k)
      then Present(k.start / PGSIZE + (v - k.virt / PGSIZE), k.perm) else KernelPart(data, n - 1, v)
  }

  /** What every directory holds: physical memory at KERNBASE, read-only from KERNLINK to data, and the devices. */
  function KernelPte(data: nat, v: nat): Pte {
    var a := v * PGSIZE;
    if KERNBASE <= a < KERNBASE + PHYSTOP then Present(v - USER, Perm(a < KERNLINK || data <= a, false))
    else if DEVSPACE <= a < WORD then Present(v, Perm(true, false))
    else Absent
  }

  lemma KernelAll(data: nat, v: nat)
    requires DataOk(data)
    ensures KernelPart(data, 4, v) == KernelPte(data, v)
    ensures v < USER ==> KernelPte(data, v) == Absent
  {
    var ks := KernelMaps(data);
    assert SizeOf(ks[0]) == EXTMEM && SizeOf(ks[1]) == data - KERNLINK && SizeOf(ks[2]) == KERNBASE + PHYSTOP - data;
    assert SizeOf(ks[3]) == WORD - DEVSPACE;
    assert data == data / PGSIZE * PGSIZE;
    assert KernelPart(data, 4, v) == if DEVSPACE / PGSIZE <= v
        && v * PGSIZE < WORD then Present(v, ks[3].perm) else KernelPart(data, 3, v);
    assert KernelPart(data, 3, v) ==
           if data / PGSIZE <= v && v * PGSIZE < KERNBASE + PHYSTOP then
               Present((data - KERNBASE) / PGSIZE + (v - data / PGSIZE), ks[2].perm)
           else KernelPart(data, 2, v);
    assert (data - KERNBASE) / PGSIZE == data / PGSIZE - USER;
    assert KernelPart(data, 2, v) ==
           if KERNLINK / PGSIZE <= v && v * PGSIZE < data then Present(v - USER, ks[1].perm)
               else KernelPart(data, 1, v);
    assert KernelPart(data, 1, v) ==
           if USER <= v && v * PGSIZE < KERNLINK then Present(v - USER, ks[0].perm) else KernelPart(data, 0, v);
  }

  /** Each mapping is well formed and meets none before it. */
  lemma KernelRange(data: nat, n: nat, v: nat)
    requires DataOk(data) && n < 4
    ensures var k := KernelMaps(data)[n];
            && 0 < SizeOf(k) && k.virt + SizeOf(k) <= WORD && USER <= k.virt / PGSIZE && !k.perm.u
            && (k.virt / PGSIZE <= v <= (k.virt + SizeOf(k) - 1) / PGSIZE ==> KernelPart(data, n, v) == Absent)
            && (v <= (k.virt + SizeOf(k) - 1) / PGSIZE <==> v * PGSIZE < k.virt + SizeOf(k))
  {
    var ks := KernelMaps(data);
    assert SizeOf(ks[0]) == EXTMEM && SizeOf(ks[1]) == data - KERNLINK && SizeOf(ks[2]) == KERNBASE + PHYSTOP - data;
    assert SizeOf(ks[3]) == WORD - DEVSPACE;
    var k := ks[n];
    PagesIs(v, k.virt + SizeOf(k));
    assert KernelPart(data, 0, v) == Absent;
    assert n >= 1 ==>
        KernelPart(data, 1, v) == if USER <= v && v * PGSIZE < KERNLINK then Present(v - USER, ks[0].perm) else Absent;
    if n >= 2 {
      assert KernelPart(data, 2, v) ==
             if KERNLINK / PGSIZE <= v && v * PGSIZE < data then Present(v - USER, ks[1].perm)
                 else KernelPart(data, 1, v);
    }
    if n >= 3 {
      assert KernelPart(data, 3, v) ==
             if data / PGSIZE <= v && v * PGSIZE < KERNBASE + PHYSTOP
             then Present((data - KERNBASE) / PGSIZE + (v - data / PGSIZE), ks[2].perm) else KernelPart(data, 2, v);
    }
  }

  ghost predicate KernelView(mem: Mem, d: nat, data: nat, n: nat)
    requires DataOk(data) && n <= 4
  {
    forall v: nat :: Lookup(mem, d, v) == KernelPart(data, n, v)
  }

  lemma KernelStep(mem: Mem, mem': Mem, d: nat, data: nat, n: nat)
    requires DataOk(data) && n < 4 && KernelView(mem, d, data, n)
    requires var k := KernelMaps(data)[n];
             View(mem', d, mem, k.virt / PGSIZE, (k.virt + SizeOf(k) - 1) / PGSIZE + 1, k.start / PGSIZE, k.perm)
    ensures KernelView(mem', d, data, n + 1)
  {
    hide Lookup, KernelMaps, SizeOf;
    forall v: nat
      ensures Lookup(mem', d, v) == KernelPart(data, n + 1, v)
    {
      KernelRange(data, n, v);
    }
  }

  lemma RangeAbsent(mem: Mem, d: nat, data: nat, n: nat)
    requires DataOk(data) && n < 4 && KernelView(mem, d, data, n)
    ensures var k := KernelMaps(data)[n];
            && 0 < SizeOf(k) && k.virt + SizeOf(k) <= WORD && USER <= k.virt / PGSIZE && !k.perm.u
            && forall v: nat :: k.virt / PGSIZE <= v <= (k.virt + SizeOf(k) - 1) / PGSIZE ==>
                  Lookup(mem, d, v) == Absent
  {
    hide Lookup, KernelMaps, SizeOf, KernelPart;
    KernelRange(data, n, 0);
    forall v: nat
      ensures var k := KernelMaps(data)[n];
              k.virt / PGSIZE <= v <= (k.virt + SizeOf(k) - 1) / PGSIZE ==> Lookup(mem, d, v) == Absent
    {
      KernelRange(data, n, v);
    }
  }

  lemma Unchanged(mem: Mem, owner: Owners)
    ensures AllViews(mem, owner, mem, owner) && SameData(mem, owner, mem, owner)
  {
  }

  // ------------------------------------------------------ a new address space

  /** Where making directory d has got to. */
  ghost predicate SettingUp(memS: Mem, ownerS: Owners, mem: Mem, owner: Owners, d: nat) {
    && SameViews(memS, ownerS, mem, owner, d) && SameData(memS, ownerS, mem, owner) && Taken(ownerS, owner, d)
    && Unused(ownerS, d)
  }

  lemma NotDirUnused(mem: Mem, owner: Owners, d: nat)
    requires OwnInv(mem, owner) && !IsDir(owner, d)
    ensures Unused(owner, d)
  {
    hide OwnInv, Lookup;
    forall p | p in owner
      ensures !InSpace(owner[p], p, d)
    {
      InvPage(mem, owner, p);
    }
  }

  lemma NewDirStarts(mem: Mem, owner: Owners, owner1: Owners, d: nat, data: nat)
    requires OwnInv(mem, owner) && OwnInv(mem, owner1) && Fresh(owner, owner1, d) && DataOk(data)
    ensures SettingUp(mem, owner, mem[d := NoTables()], owner1[d := DirOwner], d)
    ensures KernelView(mem[d := NoTables()], d, data, 0)
  {
    hide OwnInv, Lookup;
    NotDirUnused(mem, owner, d);
    var mem', owner' := mem[d := NoTables()], owner1[d := DirOwner];
    forall e: nat, v: nat | IsDir(owner, e) && e != d
      ensures Lookup(mem', e, v) == Lookup(mem, e, v)
    {
      NewDirLookup(mem, owner, d, e, 0, v);
    }
    forall v: nat
      ensures Lookup(mem', d, v) == KernelPart(data, 0, v)
    {
      NewDirLookup(mem, owner, d, d, 0, v);
    }
  }

  lemma NewDirFree(mem: Mem, head: Option<nat>, free: seq<nat>, owner: Owners, d: nat)
    requires OwnInv(mem, owner) && FreeInv(mem, head, free, owner) && d in owner && owner[d] == Held
    ensures FreeInv(mem[d := NoTables()], head, free, owner[d := DirOwner])
  {
    hide FreeInv, OwnInv;
    InvKeys(mem, owner);
    FreeSame(mem, head, free, owner, mem[d := NoTables()], owner[d := DirOwner]);
  }

  /** Taking tables is part of making d. */
  lemma TablesTaken(memS: Mem, ownerS: Owners, mem: Mem, owner: Owners, mem': Mem, owner': Owners, d: nat)
    requires OwnInv(memS, ownerS) && OwnInv(mem, owner) && SettingUp(memS, ownerS, mem, owner, d)
    requires SameViews(mem, owner, mem', owner', d) && SameData(mem, owner, mem', owner')
             && TakenTables(owner, owner', d)
    ensures SettingUp(memS, ownerS, mem', owner', d)
  {
    hide OwnInv, Lookup, Unused;
    InvKeys(memS, ownerS);
    InvKeys(mem, owner);
    ViewsTrans(memS, ownerS, mem, owner, mem', owner', d);
  }

  /** Giving up a directory undoes everything it took. */
  lemma GivenUp(memS: Mem, ownerS: Owners, mem: Mem, owner: Owners, mem': Mem, owner': Owners, d: nat)
    requires OwnInv(memS, ownerS) && OwnInv(mem, owner) && SettingUp(memS, ownerS, mem, owner, d)
    requires SameViews(mem, owner, mem', owner', d) && SameData(mem, owner, mem', owner')
             && owner' == Returned(owner, d)
    ensures owner' == ownerS && AllViews(memS, ownerS, mem', owner') && SameData(memS, ownerS, mem', owner')
  {
    hide OwnInv, Lookup;
    InvKeys(memS, ownerS);
    InvKeys(mem, owner);
    TakenReturned(ownerS, owner, d);
    assert forall e: nat :: IsDir(ownerS, e) ==> e != d && IsDir(owner, e);
  }

  // ----------------------------------------------------------------- copying

  /** Page v of the copy n has the permissions and the contents that page v of d had. */
  predicate Copied(memS: Mem, mem: Mem, d: nat, n: nat, v: nat) {
    var e, e' := Lookup(memS, d, v), Lookup(mem, n, v);
    && e.Present? && e'.Present? && e'.perm == e.perm
    && e.ppn in memS && e'.ppn in mem && mem[e'.ppn] == memS[e.ppn]
  }

  /** Directory n has copies of d's pages below i, and the kernel's mappings. */
  ghost predicate CopiedView(memS: Mem, mem: Mem, d: nat, n: nat, data: nat, i: nat) {
    && (forall v: nat :: v < i ==> Copied(memS, mem, d, n, v))
    && (forall v: nat :: i <= v ==> Lookup(mem, n, v) == KernelPte(data, v))
  }

  /** Where copying has got to, with page m, if any, at hand. */
  ghost predicate Copying(memS: Mem, ownerS: Owners, mem: Mem, owner: Owners, d: nat, n: nat, data: nat, i: nat,
                          m: Option<nat>) {
    && SameViews(memS, ownerS, mem, owner, n) && SameData(memS, ownerS, mem, owner)
    && Taken(ownerS, Apart(owner, m), n) && Unused(ownerS, n)
    && (m.Some? ==> m.value in owner && owner[m.value] == Held && m.value in ownerS && ownerS[m.value] == FreeList)
    && CopiedView(memS, mem, d, n, data, i)
  }

  lemma StartCopying(memS: Mem, ownerS: Owners, mem: Mem, owner: Owners, d: nat, n: nat, data: nat)
    requires DataOk(data) && SettingUp(memS, ownerS, mem, owner, n) && KernelView(mem, n, data, 4)
    ensures Copying(memS, ownerS, mem, owner, d, n, data, 0, None)
  {
    hide Lookup, SameViews, SameData, Taken, Unused, KernelPart, KernelPte;
    forall v: nat
      ensures Lookup(mem, n, v) == KernelPte(data, v)
    {
      KernelAll(data, v);
    }
  }

  lemma CopyingEnds(memS: Mem, ownerS: Owners, mem: Mem, owner: Owners, d: nat, n: nat, data: nat, i: nat)
    requires Copying(memS, ownerS, mem, owner, d, n, data, i, None)
    ensures SettingUp(memS, ownerS, mem, owner, n) && CopiedView(memS, mem, d, n, data, i)
  {
    hide Lookup, SameViews, SameData, Taken, Unused, CopiedView;
  }

  /** The page to copy is still as it was. */
  /** The first n pages are mapped. */
  ghost predicate HasPages(mem: Mem, d: nat, n: nat) {
    forall v: nat :: v < n ==> Lookup(mem, d, v).Present?
  }

  /** The directory to be copied still has the page that it had, or has none; the copy has none yet. */
  lemma SourceView(memS: Mem, ownerS: Owners, mem: Mem, owner: Owners, d: nat, n: nat, data: nat, i: nat)
    requires OwnInv(memS, ownerS) && OwnInv(mem, owner) && Copying(memS, ownerS, mem, owner, d, n, data, i, None)
    requires IsDir(ownerS, d) && d != n && i < USER && DataOk(data)
    ensures IsDir(owner, d) && Lookup(mem, d, i) == Lookup(memS, d, i) && Lookup(mem, n, i) == Absent
  {
    hide OwnInv, Lookup, KernelPte;
    KernelAll(data, i);
  }

  lemma SourceKept(memS: Mem, ownerS: Owners, mem: Mem, owner: Owners, d: nat, n: nat, data: nat, i: nat)
    requires OwnInv(memS, ownerS) && OwnInv(mem, owner) && Copying(memS, ownerS, mem, owner, d, n, data, i, None)
    requires IsDir(ownerS, d) && d != n && i < USER && Lookup(memS, d, i).Present?
    ensures var f := Lookup(memS, d, i).ppn;
            f in mem && f in memS && mem[f] == memS[f] && mem[f].Frame? && |mem[f].bytes| == PGSIZE
  {
    hide OwnInv, Lookup, KernelPte;
    InvFrame(memS, ownerS, d, i);
  }

  lemma CopiedKept(memS: Mem, mem: Mem, owner: Owners, mem': Mem, owner': Owners, d: nat, n: nat, v: nat)
    requires OwnInv(mem, owner) && IsDir(owner, n) && v < USER && Copied(memS, mem, d, n, v)
    requires Lookup(mem', n, v) == Lookup(mem, n, v) && SameData(mem, owner, mem', owner')
    requires forall p :: p in owner && owner[p].FrameOf? ==> p in owner' && owner'[p] == owner[p]
    ensures Copied(memS, mem', d, n, v)
  {
    hide OwnInv, Lookup;
    InvFrame(mem, owner, n, v);
  }

  lemma CopiedViewKept(memS: Mem, mem: Mem, owner: Owners, mem': Mem, owner': Owners, d: nat, n: nat, data: nat, i: nat)
    requires OwnInv(mem, owner) && IsDir(owner, n) && i <= USER && CopiedView(memS, mem, d, n, data, i)
    requires (forall v: nat :: Lookup(mem', n, v) == Lookup(mem, n, v)) && SameData(mem, owner, mem', owner')
    requires forall p :: p in owner && owner[p].FrameOf? ==> p in owner' && owner'[p] == owner[p]
    ensures CopiedView(memS, mem', d, n, data, i)
  {
    hide OwnInv, Lookup, SameData, Copied, KernelPte;
    forall v: nat | v < i ensures Copied(memS, mem', d, n, v) { CopiedKept(memS, mem, owner, mem', owner', d, n, v); }
  }

  lemma NewFrameCopying(memS: Mem, ownerS: Owners, mem: Mem, owner: Owners, mem': Mem, owner': Owners,
                        d: nat, n: nat, data: nat, i: nat, m: nat)
    requires OwnInv(memS, ownerS) && OwnInv(mem, owner) && IsDir(owner, n) && i <= USER
    requires Copying(memS, ownerS, mem, owner, d, n, data, i, None)
    requires AllViews(mem, owner, mem', owner') && SameData(mem, owner, mem', owner') && Fresh(owner, owner', m)
    ensures Copying(memS, ownerS, mem', owner', d, n, data, i, Some(m)) && IsDir(owner', n)
    ensures forall v: nat :: Lookup(mem', n, v) == Lookup(mem, n, v)
  {
    hide OwnInv, Lookup, SameData, SameViews, AllViews, CopiedView, Taken, Unused;
    InvKeys(memS, ownerS);
    InvKeys(mem, owner);
    AllIsSame(mem, owner, mem', owner', n);
    CopiedViewKept(memS, mem, owner, mem', owner', d, n, data, i);
    ViewsTrans(memS, ownerS, mem, owner, mem', owner', n);
    FreshTaken(memS, ownerS, mem, owner, mem', owner', n, m);
    assert owner'[m := FreeList] == owner;
  }

  lemma FreshTaken(memS: Mem, ownerS: Owners, mem: Mem, owner: Owners, mem': Mem, owner': Owners, n: nat, m: nat)
    requires memS.Keys == ownerS.Keys && mem.Keys == owner.Keys && Taken(ownerS, owner, n) && Fresh(owner, owner', m)
    requires SameData(memS, ownerS, mem, owner) && SameData(mem, owner, mem', owner')
    ensures SameData(memS, ownerS, mem', owner') && m in ownerS && ownerS[m] == FreeList
  {
  }

  lemma TakenData(memS: Mem, ownerS: Owners, mem: Mem, owner: Owners, mem': Mem, owner': Owners, n: nat, m: nat)
    requires memS.Keys == ownerS.Keys && mem.Keys == owner.Keys && m in ownerS && ownerS[m] == FreeList
    requires Taken(ownerS, owner[m := FreeList], n) && m in owner
    requires forall p :: p in owner && p != m && owner[p] != FreeList ==> p in owner' && owner'[p] == owner[p]
    requires SameData(memS, ownerS, mem, owner) && SameData(mem, owner, mem', owner')
    ensures SameData(memS, ownerS, mem', owner')
  {
  }

  lemma NoTableCopying(memS: Mem, ownerS: Owners, mem: Mem, owner: Owners, mem': Mem, owner': Owners,
                       d: nat, n: nat, data: nat, i: nat, m: nat, upto: nat, perm: Perm)
    requires OwnInv(memS, ownerS) && OwnInv(mem, owner) && IsDir(owner, n) && i <= USER && upto == i
    requires Copying(memS, ownerS, mem, owner, d, n, data, i, Some(m))
    requires SameViews(mem, owner, mem', owner', n) && SameData(mem, owner, mem', owner')
    requires View(mem', n, mem, i, upto, m, perm) && TakenTables(owner, owner', n)
    ensures Copying(memS, ownerS, mem', owner', d, n, data, i, Some(m))
  {
    hide OwnInv, Lookup, SameData, SameViews, CopiedView, Unused;
    InvKeys(memS, ownerS);
    InvKeys(mem, owner);
    CopiedViewKept(memS, mem, owner, mem', owner', d, n, data, i);
    ViewsTrans(memS, ownerS, mem, owner, mem', owner', n);
    TakenData(memS, ownerS, mem, owner, mem', owner', n, m);
  }

  lemma DroppedCopying(memS: Mem, ownerS: Owners, mem: Mem, owner: Owners, mem': Mem, owner': Owners,
                       d: nat, n: nat, data: nat, i: nat, m: nat)
    requires OwnInv(mem, owner) && IsDir(owner, n) && i <= USER
             && Copying(memS, ownerS, mem, owner, d, n, data, i, Some(m))
    requires AllViews(mem, owner, mem', owner') && m in mem' && mem' == mem[m := mem'[m]]
             && owner' == owner[m := FreeList]
    ensures Copying(memS, ownerS, mem', owner', d, n, data, i, None)
  {
    hide OwnInv, Lookup, SameViews, CopiedView, Unused, AllViews;
    AllIsSame(mem, owner, mem', owner', n);
    ViewsTrans(memS, ownerS, mem, owner, mem', owner', n);
    assert SameData(mem, owner, mem', owner');
    CopiedViewKept(memS, mem, owner, mem', owner', d, n, data, i);
  }

  lemma MappedCopying(memS: Mem, ownerS: Owners, mem: Mem, owner: Owners, mem': Mem, owner': Owners,
                      d: nat, n: nat, data: nat, i: nat, m: nat, upto: nat)
    requires OwnInv(memS, ownerS) && OwnInv(mem, owner) && IsDir(owner, n) && i < USER && upto == i + 1
    requires Copying(memS, ownerS, mem, owner, d, n, data, i, Some(m))
    requires Lookup(memS, d, i).Present? && Lookup(memS, d, i).ppn in memS
    requires m in mem && mem[m] == memS[Lookup(memS, d, i).ppn] && m in mem' && mem'[m] == mem[m]
    requires SameViews(mem, owner, mem', owner', n) && SameData(mem, owner, mem', owner')
    requires View(mem', n, mem, i, upto, m, Lookup(memS, d, i).perm)
             && TakenTables(owner[m := FrameOf(n, i)], owner', n)
    ensures Copying(memS, ownerS, mem', owner', d, n, data, i + 1, None)
  {
    hide OwnInv, Lookup, SameData, SameViews, Unused, KernelPte;
    InvKeys(memS, ownerS);
    InvKeys(mem, owner);
    ViewsTrans(memS, ownerS, mem, owner, mem', owner', n);
    TakenData(memS, ownerS, mem, owner, mem', owner', n, m);
    assert Lookup(mem', n, i) == Present(m, Lookup(memS, d, i).perm);
    forall v: nat | v < i + 1
      ensures Copied(memS, mem', d, n, v)
    {
      if v < i {
        assert Copied(memS, mem, d, n, v);
        CopiedKept(memS, mem, owner, mem', owner', d, n, v);
      }
    }
  }

  // ------------------------------------------------------------ user memory

  /** The byte at user address a. */
  function ByteAt(mem: Mem, d: nat, a: nat): Option<char> {
    var e := Lookup(mem, d, a / PGSIZE);
    if e.Present? && e.ppn in mem && mem[e.ppn].Frame? && a % PGSIZE < |mem[e.ppn].bytes|
    then Some(mem[e.ppn].bytes[a % PGSIZE]) else None
  }

  /** Frame f with bs written at offset off. */
  function Patched(bytes: seq<char>, off: nat, bs: seq<char>): (r: seq<char>)
    requires off + |bs| <= |bytes|
    ensures |r| == |bytes|
  {
    bytes[..off] + bs + bytes[off + |bs|..]
  }

  /** In user memory only [from, from + |bs|) of d differs, and holds bs. */
  ghost predicate Wrote(mem: Mem, owner: Owners, mem': Mem, d: nat, from: nat, bs: seq<char>) {
    forall e: nat, a: nat :: IsDir(owner, e) && a < USER * PGSIZE ==>
      ByteAt(mem', e, a) == if e == d && from <= a < from + |bs| then Some(bs[a - from]) else ByteAt(mem, e, a)
  }

  lemma PageOf(v: nat, a: nat)
    ensures a / PGSIZE == v <==> v * PGSIZE <= a < v * PGSIZE + PGSIZE
    ensures a / PGSIZE == v ==> a % PGSIZE == a - v * PGSIZE
    ensures a < USER * PGSIZE <==> a / PGSIZE < USER
  {
  }

  /** A user page's frame is nobody else's, so writing it shows nowhere else. */
  lemma PatchByte(mem: Mem, owner: Owners, d: nat, v: nat, off: nat, bs: seq<char>, e: nat, a: nat)
    requires OwnInv(mem, owner) && IsDir(owner, d) && IsDir(owner, e) && v < USER && a < USER * PGSIZE
    requires Lookup(mem, d, v).Present? && off + |bs| <= PGSIZE
    requires var f := Lookup(mem, d, v).ppn; f in mem && mem[f].Frame? && |mem[f].bytes| == PGSIZE
    ensures var f, from := Lookup(mem, d, v).ppn, v * PGSIZE + off;
            ByteAt(mem[f := Frame(Patched(mem[f].bytes, off, bs))], e, a) ==
            if e == d && from <= a < from + |bs| then Some(bs[a - from]) else ByteAt(mem, e, a)
  {
    hide OwnInv, Lookup;
    var f := Lookup(mem, d, v).ppn;
    PageOf(v, a);
    InvFrame(mem, owner, d, v);
    InvFrame(mem, owner, e, a / PGSIZE);
    LeafLookup(mem, owner, f, Frame(Patched(mem[f].bytes, off, bs)), e, 0, a / PGSIZE);
  }

  lemma PatchWrote(mem: Mem, owner: Owners, d: nat, v: nat, off: nat, bs: seq<char>)
    requires OwnInv(mem, owner) && IsDir(owner, d) && v < USER && Lookup(mem, d, v).Present? && off + |bs| <= PGSIZE
    requires var f := Lookup(mem, d, v).ppn; f in mem && mem[f].Frame? && |mem[f].bytes| == PGSIZE
    ensures var f := Lookup(mem, d, v).ppn;
            Wrote(mem, owner, mem[f := Frame(Patched(mem[f].bytes, off, bs))], d, v * PGSIZE + off, bs)
  {
    hide OwnInv, Lookup, ByteAt, Patched;
    var f := Lookup(mem, d, v).ppn;
    var mem' := mem[f := Frame(Patched(mem[f].bytes, off, bs))];
    forall e: nat, a: nat | IsDir(owner, e) && a < USER * PGSIZE
      ensures ByteAt(mem', e, a) ==
              if e == d && v * PGSIZE + off <= a < v * PGSIZE + off + |bs| then Some(bs[a - (v * PGSIZE + off)])
                  else ByteAt(mem, e, a)
    {
      PatchByte(mem, owner, d, v, off, bs, e, a);
    }
  }

  lemma WroteTwice(mem0: Mem, mem1: Mem, mem2: Mem, owner: Owners, d: nat, from: nat, bs: seq<char>, cs: seq<char>)
    requires Wrote(mem0, owner, mem1, d, from, bs) && Wrote(mem1, owner, mem2, d, from + |bs|, cs)
    ensures Wrote(mem0, owner, mem2, d, from, bs + cs)
  {
    hide ByteAt;
  }

  lemma NoTableAbsent(mem: Mem, d: nat, v: nat)
    requires TableAt(mem, d, Pdx(v)) == None
    ensures Lookup(mem, d, v) == Absent
  {
  }

  lemma HeldStill(memS: Mem, ownerS: Owners, mem: Mem, owner: Owners, d: nat, n: nat, data: nat, i: nat, m: nat)
    requires Copying(memS, ownerS, mem, owner, d, n, data, i, Some(m))
    ensures m in owner && owner[m] == Held
  {
  }

  lemma NothingWritten(mem: Mem, owner: Owners, d: nat, from: nat)
    ensures Wrote(mem, owner, mem, d, from, [])
  {
  }

  lemma FrameFree(mem: Mem, head: Option<nat>, free: seq<nat>, owner: Owners, f: nat, page: Page)
    requires OwnInv(mem, owner) && FreeInv(mem, head, free, owner) && f in owner && owner[f] != FreeList
    ensures FreeInv(mem[f := page], head, free, owner)
  {
    hide FreeInv, OwnInv;
    InvKeys(mem, owner);
    FreeSame(mem, head, free, owner, mem[f := page], owner);
  }

  lemma AllTrans(mem0: Mem, mem1: Mem, mem2: Mem, owner: Owners)
    requires AllViews(mem0, owner, mem1, owner) && AllViews(mem1, owner, mem2, owner)
    ensures AllViews(mem0, owner, mem2, owner)
  {
    hide Lookup;
  }
}

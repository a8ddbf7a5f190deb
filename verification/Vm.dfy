/** The page allocator and the page tables, changed in place. */
module Vm {
  import opened Basics
  import opened VmSpec
  import opened VmSteps

  class Vm {
    var mem: Mem
    var head: Option<nat>
    ghost var free: seq<nat>
    ghost var owner: Owners

    ghost predicate Valid() reads this {
      OwnInv(mem, owner) && FreeInv(mem, head, free, owner)
    }

    // ------------------------------------------------------------ page allocator

    /** Before kinit: the pages belong to nobody, and nothing is free. */
    constructor (pages: set<nat>, junk: Page)
      ensures Valid() && free == [] && mem.Keys == owner.Keys == pages
      ensures forall p :: p in owner ==> owner[p] == Held
    {
      mem := map p | p in pages :: junk;
      head, free := None, [];
      owner := map p | p in pages :: Held;
    }

    /** freerange: all the pages from lo to hi go to the free list. */
    method FreeRange(lo: nat, hi: nat)
      requires Valid() && forall p: nat :: lo <= p < hi ==> p in owner && owner[p] == Held
      modifies this
      ensures Valid() && owner.Keys == old(owner).Keys
      ensures forall p :: p in owner ==> owner[p] == if lo <= p < hi then FreeList else old(owner)[p]
    {
      hide OwnInv, FreeInv, AllViews;
      var p := lo;
      while p < hi
        invariant lo <= p && (p == lo || p <= hi) && Valid() && owner.Keys == old(owner).Keys
        invariant forall q :: q in owner ==> owner[q] == if lo <= q < p then FreeList else old(owner)[q]
      {
        Kfree(p);
        p := p + 1;
      }
    }

    method Kalloc() returns (r: Option<nat>)
      requires Valid()
      modifies this
      ensures Valid() && mem == old(mem)
      ensures r.None? ==> owner == old(owner) && free == old(free) == []
      ensures r.Some? ==>
              r.value in old(owner) && old(owner)[r.value] == FreeList && owner == old(owner)[r.value := Held]
    {
      hide OwnInv, FreeInv;
      HeadOf(mem, head, free, owner);
      r := head;
      if r.Some? {
        FreePop(mem, head, free, owner);
        LeafInv(mem, owner, r.value, mem[r.value], Held);
        assert mem[r.value := mem[r.value]] == mem;
        head := mem[r.value].next;
        free, owner := free[1..], owner[r.value := Held];
      }
    }

    /** The caller owns the page and gives it up. */
    method Kfree(p: nat)
      requires Valid() && p in owner && owner[p] == Held
      modifies this
      ensures Valid() && p in mem && mem == old(mem)[p := mem[p]] && owner == old(owner)[p := FreeList]
      ensures AllViews(old(mem), old(owner), mem, owner)
    {
      hide OwnInv, FreeInv;
      LeafInv(mem, owner, p, Run(head), FreeList);
      FreePush(mem, head, free, owner, p);
      LeafViews(mem, owner, p, Run(head), FreeList);
      mem := mem[p := Run(head)];
      head := Some(p);
      free, owner := [p] + free, owner[p := FreeList];
    }

    // ------------------------------------------------------------ page tables

    /** The table for page v, made if need be and if there is memory. */
    method WalkPgdir(d: nat, v: nat, alloc: bool) returns (t: Option<nat>)
      requires Valid() && IsDir(owner, d) && v < NPAGES
      modifies this
      ensures Valid() && AllViews(old(mem), old(owner), mem, owner) && SameData(old(mem), old(owner), mem, owner)
      ensures TakenTables(old(owner), owner, d) && t == TableAt(mem, d, Pdx(v))
      ensures t.None? || !alloc ==> mem == old(mem) && owner == old(owner)
    {
      hide OwnInv, FreeInv, Lookup, Pdx;
      DirShape(mem, owner, d);
      IndexPair(v, v);
      var i := Pdx(v);
      if mem[d].pdes[i].Some? { return mem[d].pdes[i]; }
      if !alloc { return None; }
      t := Kalloc();
      if t.None? { return; }
      AddTableInv(mem, owner, d, i, t.value);
      AddTableSteps(mem, owner, d, i, t.value);
      NewTableFree(mem, head, free, owner, d, i, t.value);
      mem := mem[t.value := Table(seq(NPTE, j => Absent))];
      mem := mem[d := Dir(mem[d].pdes[i := t])];
      owner := owner[t.value := TableOf(d, i)];
    }

    /** Writes page v's entry, and settles who owns the frames. */
    method SetEntry(d: nat, v: nat, t: nat, pte: Pte)
      requires Valid() && CanSet(mem, owner, d, v, pte) && t == TableFor(mem, d, v)
      modifies this
      ensures Valid() && OneEntry(old(mem), old(owner), mem, owner, d, v, pte)
      ensures owner == Reowned(old(owner), d, v, Lookup(old(mem), d, v), pte)
      ensures t in mem && mem == old(mem)[t := mem[t]] && t in old(owner) && old(owner)[t].TableOf?
    {
      hide OwnInv, FreeInv, Lookup, TableAt, Pdx;
      TableShape(mem, owner, d, v);
      SetPteInv(mem, owner, d, v, pte);
      SetPteSteps(mem, owner, d, v, pte);
      EntryFree(mem, head, free, owner, d, v, pte);
      owner := Reowned(owner, d, v, Lookup(mem, d, v), pte);
      mem := mem[t := Table(mem[t].ptes[Ptx(v) := pte])];
    }

    /** Maps the pages that [va, va + size) touches to frames from ppn on, up to page `upto`. It stops early if
        memory for tables runs out, and panics at a page that is mapped already. */
    method MapPages(d: nat, va: nat, size: nat, ppn: nat, perm: Perm) returns (r: Mapped, ghost upto: nat)
      requires Valid() && IsDir(owner, d) && 0 < size && va + size <= WORD
      requires forall v: nat :: va / PGSIZE <= v <= (va + size - 1) / PGSIZE && v < USER ==>
                 FrameReady(mem, owner, FrameFor(va / PGSIZE, ppn, v))
      requires USER <= (va + size - 1) / PGSIZE ==> !perm.u
      modifies this
      ensures Valid() && IsDir(owner, d) && View(mem, d, old(mem), va / PGSIZE, upto, ppn, perm)
      ensures Mapping(old(mem), old(owner), mem, owner, d, va / PGSIZE, upto, (va + size - 1) / PGSIZE, ppn)
      ensures va / PGSIZE <= upto
      ensures if r == AllMapped then upto == (va + size - 1) / PGSIZE + 1 else upto <= (va + size - 1) / PGSIZE
      ensures r == AllMapped ==> forall v: nat :: va / PGSIZE <= v < upto ==> Lookup(old(mem), d, v) == Absent
      ensures r == Remap ==> Lookup(old(mem), d, upto).Present?
    {
      hide OwnInv, FreeInv, Lookup, TableAt, Pdx, AllViews, SameViews, SameData, TakenTables, View, OneEntry, Mapping,
           FrameReady;
      LastPage(va, size);
      var a := va / PGSIZE;
      var last := (va + size + WORD - 1) % WORD / PGSIZE;
      var pa := ppn;
      ghost var first := a;
      MappingStart(mem, owner, d, first, last, ppn, perm);
      while true
        invariant first <= a <= last && pa == ppn + (a - first) && Valid() && IsDir(owner, d)
        invariant Mapping(old(mem), old(owner), mem, owner, d, first, a, last, ppn)
        invariant View(mem, d, old(mem), first, a, ppn, perm)
        invariant forall v: nat :: first <= v < a ==> Lookup(old(mem), d, v) == Absent
        decreases last - a
      {
        ghost var mem0, owner0 := mem, owner;
        var t := WalkPgdir(d, a, true);
        MappingWalk(old(mem), old(owner), mem0, owner0, mem, owner, d, first, a, last, ppn, perm);
        if t.None? { return NoMemory, a; }
        StillAbsent(mem, d, old(mem), first, a, ppn, perm);
        TableShape(mem, owner, d, a);
        if mem[t.value].ptes[Ptx(a)] != Absent { return Remap, a; }
        if a < USER {
          MappingReady(old(mem), old(owner), mem, owner, d, first, a, last, ppn);
          ReadyIs(mem, owner, pa);
        }
        ghost var mem1, owner1 := mem, owner;
        SetEntry(d, a, t.value, Present(pa, perm));
        MappingEntry(old(mem), old(owner), mem1, owner1, mem, owner, d, first, a, last, ppn, perm, t.value);
        if a == last { return AllMapped, a + 1; }
        a, pa := a + 1, pa + 1;
      }
    }

    /** Takes the frame of page v, if there is one, back to the free list. */
    method Unmap(d: nat, v: nat, t: nat)
      requires Valid() && IsDir(owner, d) && v < USER && TableAt(mem, d, Pdx(v)) == Some(t)
      modifies this
      ensures Valid() && OneEntry(old(mem), old(owner), mem, owner, d, v, Absent)
              && SameData(old(mem), old(owner), mem, owner)
      ensures Unmapped(old(mem), old(owner), owner, d, v)
    {
      hide OwnInv, FreeInv, Lookup, TableAt, Pdx;
      TableShape(mem, owner, d, v);
      InvFrame(mem, owner, d, v);
      var e := mem[t].ptes[Ptx(v)];
      if e.Present? {
        SetEntry(d, v, t, Absent);
        Kfree(e.ppn);
      }
    }

    /** Shrinks the user part from oldsz to newsz bytes; a directory slot without a table is skipped whole. */
    method DeallocUvm(d: nat, oldsz: nat, newsz: nat) returns (sz: nat)
      requires Valid() && IsDir(owner, d) && oldsz <= USER * PGSIZE
      modifies this
      ensures Valid() && IsDir(owner, d) && SameViews(old(mem), old(owner), mem, owner, d)
      ensures SameData(old(mem), old(owner), mem, owner) && Cleared(mem, d, old(mem), Pages(newsz), Pages(oldsz))
      ensures owner == Released(old(owner), d, Pages(newsz), Pages(oldsz))
              && sz == if newsz < oldsz then newsz else oldsz
    {
      hide OwnInv, FreeInv, Lookup, TableAt, Pdx, SameViews, SameData, Cleared, Released, OneEntry;
      ghost var lo, hi := Pages(newsz), Pages(oldsz);
      PagesBound(newsz, oldsz);
      NothingReleased(mem, owner, d, lo, hi);
      if newsz >= oldsz { return oldsz; }
      var a := Pages(newsz);
      while a * PGSIZE < oldsz
        invariant lo <= a && Valid() && IsDir(owner, d)
        invariant SameViews(old(mem), old(owner), mem, owner, d) && SameData(old(mem), old(owner), mem, owner)
        invariant Cleared(mem, d, old(mem), lo, Least(a, hi)) && owner == Released(old(owner), d, lo, Least(a, hi))
        decreases oldsz - a * PGSIZE
      {
        PagesIs(a, oldsz);
        ghost var mem0, owner0 := mem, owner;
        var t := WalkPgdir(d, a, false);
        if t.None? {
          SkipRelations(old(mem), old(owner), mem, owner, d, lo, a, hi);
          a := (Pdx(a) + 1) * NPTE - 1;
        } else {
          Unmap(d, a, t.value);
          UnmapRelations(old(mem), old(owner), mem0, owner0, mem, owner, d, lo, a);
        }
        a := a + 1;
      }
      PagesIs(a, oldsz);
      return newsz;
    }

    /** Frees the user frames, the tables and the directory itself. */
    method FreeVm(d: nat)
      requires Valid() && IsDir(owner, d)
      modifies this
      ensures Valid() && owner == Returned(old(owner), d)
      ensures SameViews(old(mem), old(owner), mem, owner, d) && SameData(old(mem), old(owner), mem, owner)
    {
      hide OwnInv, FreeInv, Lookup, TableAt, SameViews, SameData, Cleared, Released, Dismantling, Returned, Dismantled;
      UserPages();
      var sz := DeallocUvm(d, USER * PGSIZE, 0);
      ghost var mem1, owner1 := mem, owner;
      AllCleared(mem, d, old(mem));
      DismantledInv(mem, owner, d);
      DismantledFree(mem, head, free, owner, d);
      DirShape(mem, owner, d);
      StartDismantling(mem, owner1, d);
      owner := Dismantled(owner, d);
      var i := 0;
      while i < NPTE
        invariant i <= NPTE && Valid() && owner == Dismantling(owner1, d, i) && d in mem && mem[d] == mem1[d]
        invariant SameViews(mem1, owner1, mem, owner, d) && SameData(mem1, owner1, mem, owner)
      {
        ghost var mem2, owner2 := mem, owner;
        DismantlingAt(mem1, owner1, d, i);
        if mem[d].pdes[i].Some? {
          Kfree(mem[d].pdes[i].value);
          FreedTable(mem1, owner1, mem2, owner2, mem, owner, d, i);
        }
        i := i + 1;
      }
      ghost var mem2, owner2 := mem, owner;
      LastDismantling(mem1, owner1, d);
      Kfree(d);
      FreedDir(old(mem), old(owner), mem1, owner1, mem2, owner2, mem, owner, d);
    }

    // ------------------------------------------------------------------ growing

    /** A page from the free list, filled. */
    method NewFrame(bytes: seq<char>) returns (r: Option<nat>)
      requires Valid() && |bytes| == PGSIZE
      modifies this
      ensures Valid() && AllViews(old(mem), old(owner), mem, owner) && SameData(old(mem), old(owner), mem, owner)
      ensures r.None? ==> owner == old(owner) && mem == old(mem)
      ensures r.Some? ==> Fresh(old(owner), owner, r.value) && r.value in mem && mem[r.value] == Frame(bytes)
      ensures r.Some? ==> FrameReady(mem, owner, r.value)
    {
      hide OwnInv, FreeInv, Lookup;
      InvKeys(mem, owner);
      r := Kalloc();
      if r.Some? {
        var p := r.value;
        LeafInv(mem, owner, p, Frame(bytes), Held);
        LeafViews(mem, owner, p, Frame(bytes), Held);
        HeldFree(mem, head, free, owner, p, Frame(bytes));
        assert owner[p := Held] == owner;
        mem := mem[p := Frame(bytes)];
      }
    }

    /** Grows the user part with zeroed pages. When memory runs out every frame taken is given back; tables may stay.
        With a page of the range mapped already it cannot succeed: it panics there, or has run out of memory before
        and then unmaps that page too. */
    method AllocUvm(d: nat, oldsz: nat, newsz: nat) returns (panics: bool, sz: nat, ghost ok: bool)
      requires Valid() && IsDir(owner, d)
      modifies this
      ensures Valid() && IsDir(owner, d)
      ensures newsz >= USER * PGSIZE || newsz < oldsz ==>
                && ok == (newsz < oldsz && newsz < USER * PGSIZE) && sz == (if ok then oldsz else 0) && !panics
                && mem == old(mem) && owner == old(owner)
      ensures panics ==> !ok && !Vacant(old(mem), d, Pages(oldsz), Pages(newsz))
      ensures newsz < USER * PGSIZE && oldsz <= newsz && ok ==>
                && sz == newsz && GrownView(mem, d, old(mem), Pages(oldsz), Pages(newsz))
                && TakenRange(old(owner), owner, d, Pages(oldsz), Pages(newsz))
                && Vacant(old(mem), d, Pages(oldsz), Pages(newsz))
                && (forall v: nat :: Pages(oldsz) <= v < Pages(newsz) ==> AllZero(mem, d, v))
      ensures newsz < USER * PGSIZE && oldsz <= newsz && !ok && !panics ==>
                sz == 0 && Cleared(mem, d, old(mem), Pages(oldsz), Pages(newsz))
      ensures newsz < USER * PGSIZE && oldsz <= newsz && !ok && Vacant(old(mem), d, Pages(oldsz), Pages(newsz)) ==>
                GrownView(mem, d, old(mem), 0, 0) && TakenTables(old(owner), owner, d)
      ensures ok || Vacant(old(mem), d, Pages(oldsz), Pages(newsz)) ==>
                SameViews(old(mem), old(owner), mem, owner, d) && SameData(old(mem), old(owner), mem, owner)
    {
      hide OwnInv, FreeInv, Lookup, AllViews, SameViews, SameData, View, Growing, TakenTables, Cleared, Released, Fresh,
           FrameReady, Zeros, GrownView, TakenRange, AllZero;
      StartGrowing(mem, owner, d, Pages(oldsz));
      if newsz >= USER * PGSIZE { return false, 0, false; }
      if newsz < oldsz { return false, oldsz, true; }
      ghost var lo, hi := Pages(oldsz), Pages(newsz);
      PagesBound(newsz, newsz);
      PagesBound(oldsz, newsz);
      var a := Pages(oldsz);
      while a * PGSIZE < newsz
        invariant lo <= a <= hi && Valid() && IsDir(owner, d)
                  && Growing(old(mem), old(owner), mem, owner, d, lo, a, None) && Vacant(old(mem), d, lo, a)
      {
        PagesIs(a, newsz);
        ghost var mem0, owner0 := mem, owner;
        var m := NewFrame(Zeros());
        if m.None? {
          var s := DeallocUvm(d, newsz, oldsz);
          ClearedGrown(old(mem), old(owner), mem0, owner0, mem, d, lo, a, hi, None);
          if Vacant(old(mem), d, lo, hi) {
            GaveBack(old(mem), old(owner), mem0, owner0, mem, owner, d, lo, a, hi, None);
            Ungrown(old(mem), old(owner), mem, owner, d);
          }
          return false, 0, false;
        }
        ghost var mem1, owner1 := mem, owner;
        NewFrameGrowing(old(mem), old(owner), mem0, owner0, mem, owner, d, lo, a, m.value);
        PageAlone(a);
        var r1, upto := MapPages(d, a * PGSIZE, PGSIZE, m.value, Perm(true, true));
        if r1 == Remap { return true, 0, false; }
        MappedOne(mem1, owner1, mem, owner, d, a, upto, m.value);
        if r1 != AllMapped {
          ghost var mem2, owner2 := mem, owner;
          NoTableGrowing(old(mem), old(owner), mem1, owner1, mem, owner, d, lo, a, m.value, upto);
          var s := DeallocUvm(d, newsz, oldsz);
          ghost var mem3, owner3 := mem, owner;
          ClearedGrown(old(mem), old(owner), mem2, owner2, mem, d, lo, a, hi, m);
          StillHeld(old(mem), old(owner), mem2, owner2, d, lo, a, hi, m.value);
          Kfree(m.value);
          ClearedKept(old(mem), mem3, owner3, mem, owner, d, lo, hi);
          if Vacant(old(mem), d, lo, hi) {
            GaveBack(old(mem), old(owner), mem2, owner2, mem3, owner3, d, lo, a, hi, m);
            DroppedHeld(old(mem), old(owner), mem3, owner3, mem, owner, d, m.value);
            Ungrown(old(mem), old(owner), mem, owner, d);
          }
          return false, 0, false;
        }
        MappedGrowing(old(mem), old(owner), mem1, owner1, mem, owner, d, lo, a, m.value, upto);
        a := a + 1;
      }
      PagesIs(a, newsz);
      GrowingDone(old(mem), old(owner), mem, owner, d, lo, a);
      GrownZero(mem, d, old(mem), lo, a);
      return false, newsz, true;
    }

    // -------------------------------------------------------- whole address spaces

    /** A directory with the kernel's mappings. Without memory for all of it, everything taken is given back. */
    method SetupKvm(data: nat) returns (r: Option<nat>)
      requires Valid() && DataOk(data)
      modifies this
      ensures Valid()
      ensures r.None? ==> owner == old(owner)
      ensures r.None? ==> AllViews(old(mem), old(owner), mem, owner) && SameData(old(mem), old(owner), mem, owner)
      ensures r.Some? ==> SettingUp(old(mem), old(owner), mem, owner, r.value) && IsDir(owner, r.value)
      ensures r.Some? ==> !IsDir(old(owner), r.value) && KernelView(mem, r.value, data, 4)
    {
      hide OwnInv, FreeInv, Lookup, SettingUp, KernelView, View, SameViews, SameData, TakenTables, KernelMaps, SizeOf;
      Unchanged(mem, owner);
      r := Kalloc();
      if r.None? { return; }
      var d := r.value;
      NewDirStarts(mem, old(owner), owner, d, data);
      NewDirInv(mem, owner, d);
      NewDirFree(mem, head, free, owner, d);
      mem := mem[d := Dir(seq(NPTE, i => None))];
      owner := owner[d := DirOwner];
      var n := 0;
      while n < 4
        invariant n <= 4 && Valid() && IsDir(owner, d)
        invariant SettingUp(old(mem), old(owner), mem, owner, d) && KernelView(mem, d, data, n)
      {
        var k := KernelMaps(data)[n];
        ghost var mem0, owner0 := mem, owner;
        RangeAbsent(mem, d, data, n);
        var r1, upto := MapPages(d, k.virt, SizeOf(k), k.start / PGSIZE, k.perm);
        MappedKernel(mem0, owner0, mem, owner, d, k.virt / PGSIZE, upto, (k.virt + SizeOf(k) - 1) / PGSIZE,
            k.start / PGSIZE);
        assert r1 != Remap;
        TablesTaken(old(mem), old(owner), mem0, owner0, mem, owner, d);
        if r1 != AllMapped {
          ghost var mem1, owner1 := mem, owner;
          FreeVm(d);
          GivenUp(old(mem), old(owner), mem1, owner1, mem, owner, d);
          return None;
        }
        KernelStep(mem0, mem, d, data, n);
        n := n + 1;
      }
      return Some(d);
    }

    /** A copy of d's user pages below sz, in new frames. Without memory for all of it, everything taken is given back.
        It panics at a page that is missing, and makes a copy only if none is. */
    method CopyUvm(d: nat, sz: nat, data: nat) returns (panics: bool, r: Option<nat>)
      requires Valid() && IsDir(owner, d) && DataOk(data) && sz <= USER * PGSIZE
      modifies this
      ensures Valid()
      ensures panics ==> r.None? && !HasPages(old(mem), d, Pages(sz))
      ensures r.Some? ==> HasPages(old(mem), d, Pages(sz))
      ensures r.None? && !panics ==> owner == old(owner)
      ensures r.None? && !panics ==>
                AllViews(old(mem), old(owner), mem, owner) && SameData(old(mem), old(owner), mem, owner)
      ensures r.Some? ==> SettingUp(old(mem), old(owner), mem, owner, r.value) && IsDir(owner, r.value)
      ensures r.Some? ==> r.value != d && CopiedView(old(mem), mem, d, r.value, data, Pages(sz))
    {
      hide OwnInv, FreeInv, Lookup, TableAt, Pdx, AllViews, SettingUp, KernelView, View, SameViews, SameData,
           TakenTables, Copying, CopiedView, Fresh, FrameReady, KernelPte;
      r := SetupKvm(data);
      panics := false;
      if r.None? { return; }
      var n := r.value;
      StartCopying(old(mem), old(owner), mem, owner, d, n, data);
      PagesBound(sz, sz);
      var i := 0;
      while i * PGSIZE < sz
        invariant i <= Pages(sz) && Valid() && IsDir(owner, n)
                  && Copying(old(mem), old(owner), mem, owner, d, n, data, i, None) && HasPages(old(mem), d, i)
      {
        PagesIs(i, sz);
        ghost var mem0, owner0 := mem, owner;
        SourceView(old(mem), old(owner), mem, owner, d, n, data, i);
        var t := WalkPgdir(d, i, false);
        if t.None? {
          NoTableAbsent(mem, d, i);
          return true, None;
        }
        TableShape(mem, owner, d, i);
        var e := mem[t.value].ptes[Ptx(i)];
        if e == Absent { return true, None; }
        SourceKept(old(mem), old(owner), mem, owner, d, n, data, i);
        var m := NewFrame(mem[e.ppn].bytes);
        if m.None? {
          CopyingEnds(old(mem), old(owner), mem, owner, d, n, data, i);
          FreeVm(n);
          GivenUp(old(mem), old(owner), mem0, owner0, mem, owner, n);
          return false, None;
        }
        ghost var mem1, owner1 := mem, owner;
        NewFrameCopying(old(mem), old(owner), mem0, owner0, mem, owner, d, n, data, i, m.value);
        PageAlone(i);
        var r1, upto := MapPages(n, i * PGSIZE, PGSIZE, m.value, e.perm);
        MappedOne(mem1, owner1, mem, owner, n, i, upto, m.value);
        assert r1 != Remap;
        if r1 != AllMapped {
          ghost var mem2, owner2 := mem, owner;
          NoTableCopying(old(mem), old(owner), mem1, owner1, mem, owner, d, n, data, i, m.value, upto, e.perm);
          HeldStill(old(mem), old(owner), mem, owner, d, n, data, i, m.value);
          Kfree(m.value);
          DroppedCopying(old(mem), old(owner), mem2, owner2, mem, owner, d, n, data, i, m.value);
          CopyingEnds(old(mem), old(owner), mem, owner, d, n, data, i);
          ghost var mem3, owner3 := mem, owner;
          FreeVm(n);
          GivenUp(old(mem), old(owner), mem3, owner3, mem, owner, n);
          return false, None;
        }
        MappedCopying(old(mem), old(owner), mem1, owner1, mem, owner, d, n, data, i, m.value, upto);
        i := i + 1;
      }
      PagesIs(i, sz);
      CopyingEnds(old(mem), old(owner), mem, owner, d, n, data, i);
      return false, Some(n);
    }

    /** The frame behind a user page. Without a table the code follows a null pointer. */
    method Uva2ka(d: nat, v: nat) returns (r: UserPage)
      requires Valid() && IsDir(owner, d) && v < NPAGES
      modifies this
      ensures mem == old(mem) && owner == old(owner) && Valid()
      ensures r == NoTable <==> TableAt(mem, d, Pdx(v)) == None
      ensures r.UserFrame? <==> UserEntry(mem, d, v)
      ensures r.UserFrame? <==> Lookup(mem, d, v).Present? && Lookup(mem, d, v).perm.u
      ensures r.UserFrame? ==>
                && r.f == Lookup(mem, d, v).ppn && v < USER && r.f in mem && r.f in owner && owner[r.f] == FrameOf(d, v)
                && mem[r.f].Frame? && |mem[r.f].bytes| == PGSIZE
    {
      hide OwnInv, FreeInv, Lookup, TableAt, Pdx;
      var t := WalkPgdir(d, v, false);
      if t.None? {
        NoEntry(mem, d, v);
        return NoTable;
      }
      TableShape(mem, owner, d, v);
      InvFrame(mem, owner, d, v);
      var pte := mem[t.value].ptes[Ptx(v)];
      if pte == Absent { return NotUser; }
      if !pte.perm.u { return NotUser; }
      return UserFrame(pte.ppn);
    }

    /** Writes bs at user address va, page by page, up to the first page that is not the user's; it says how much
        that is and what it met there. */
    method CopyOut(d: nat, va: nat, bs: seq<char>) returns (r: Copied, done: nat)
      requires Valid() && IsDir(owner, d) && va < WORD
      modifies this
      ensures Valid() && owner == old(owner) && AllViews(old(mem), owner, mem, owner)
      ensures done <= |bs| && Wrote(old(mem), owner, mem, d, va, bs[..done])
      ensures r == Complete <==> done == |bs|
      ensures forall a: nat :: va <= a < va + done ==> UserByte(mem, d, a)
      ensures r != Complete ==>
                var v := (va + done) / PGSIZE;
                && (r == NoTableHere <==> TableAt(mem, d, Pdx(v)) == None)
                && (r == Refused <==> TableAt(mem, d, Pdx(v)).Some? && !UserEntry(mem, d, v))
    {
      hide OwnInv, FreeInv, Lookup, TableAt, Pdx, AllViews, Wrote, ByteAt, Patched, UserEntry, UserByte;
      done := 0;
      NothingWritten(mem, owner, d, va);
      assert bs[..0] == [];
      Unchanged(mem, owner);
      while done < |bs|
        invariant done <= |bs| && Valid() && owner == old(owner) && AllViews(old(mem), owner, mem, owner)
        invariant Wrote(old(mem), owner, mem, d, va, bs[..done])
        invariant va + done < WORD && forall a: nat :: va <= a < va + done ==> UserByte(mem, d, a)
      {
        var v := (va + done) / PGSIZE;
        PageOf(v, va + done);
        var f := Uva2ka(d, v);
        if f == NoTable { return NoTableHere, done; }
        if f == NotUser { return Refused, done; }
        UserEntryIs(mem, d, v);
        var off := va + done - v * PGSIZE;
        var n := if PGSIZE - off > |bs| - done then |bs| - done else PGSIZE - off;
        ghost var mem0 := mem;
        var page := Frame(Patched(mem[f.f].bytes, off, bs[done..done + n]));
        PatchWrote(mem, owner, d, v, off, bs[done..done + n]);
        LeafInv(mem, owner, f.f, page, owner[f.f]);
        LeafViews(mem, owner, f.f, page, owner[f.f]);
        FrameFree(mem, head, free, owner, f.f, page);
        assert owner[f.f := owner[f.f]] == owner;
        mem := mem[f.f := page];
        WroteTwice(old(mem), mem0, mem, owner, d, va, bs[..done], bs[done..done + n]);
        UserBytesStay(mem0, mem, owner, d, va, va + done, n);
        AllTrans(old(mem), mem0, mem, owner);
        assert bs[..done] + bs[done..done + n] == bs[..done + n];
        done := done + n;
      }
      return Complete, done;
    }
  }

  /** What a user address leads to: no page table, a page that is not the user's, or a frame. */
  datatype UserPage = NoTable | NotUser | UserFrame(f: nat)

  datatype Copied = Complete | Refused | NoTableHere

  lemma ReadyIs(mem: Mem, owner: Owners, p: nat)
    requires FrameReady(mem, owner, p)
    ensures p in mem && p in owner && owner[p] == Held && mem[p].Frame? && |mem[p].bytes| == PGSIZE
  {
  }

  predicate UserEntry(mem: Mem, d: nat, v: nat) {
    var e := Lookup(mem, d, v);
    e.Present? && e.perm.u
  }

  lemma UserEntryIs(mem: Mem, d: nat, v: nat)
    requires UserEntry(mem, d, v)
    ensures Lookup(mem, d, v).Present?
  {
  }

  lemma NoEntry(mem: Mem, d: nat, v: nat)
    requires TableAt(mem, d, Pdx(v)) == None
    ensures Lookup(mem, d, v) == Absent
  {
  }

  predicate UserByte(mem: Mem, d: nat, a: nat) {
    UserEntry(mem, d, a / PGSIZE)
  }

  /** Views stay, so the bytes written so far stay the user's, and the piece just written lies in one page. */
  lemma UserBytesStay(mem: Mem, mem': Mem, owner: Owners, d: nat, va: nat, to: nat, n: nat)
    requires AllViews(mem, owner, mem', owner) && IsDir(owner, d)
    requires forall a: nat :: va <= a < to ==> UserByte(mem, d, a)
    requires UserEntry(mem, d, to / PGSIZE) && to % PGSIZE + n <= PGSIZE
    ensures forall a: nat :: va <= a < to + n ==> UserByte(mem', d, a)
  {
    hide Lookup;
    forall a: nat | va <= a < to + n
      ensures UserByte(mem', d, a)
    {
      if a < to {
        assert UserByte(mem, d, a);
      } else {
        assert a / PGSIZE == to / PGSIZE;
      }
      assert Lookup(mem', d, a / PGSIZE) == Lookup(mem, d, a / PGSIZE);
    }
  }
}

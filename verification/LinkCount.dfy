/** Directories, their entries and the link counts of the inodes they name. */
module LinkCount {

  const ROOT: nat := 1
  const DIRSIZ: nat := 14

  type Name = string

  /** Slot of a directory; inum 0 marks an empty one. */
  datatype Dirent = Dirent(inum: nat, name: Name)

  datatype Kind = Free | Dir | File | Dev

  /** An inode as directories see it. Only a directory has entries. */
  datatype Node = Node(kind: Kind, nlink: int, entries: seq<Dirent>)

  const EMPTY := Dirent(0, "")

  /** A directory that some directory entry still names. */
  predicate Linked(nodes: seq<Node>, d: nat) {
    d < |nodes| && nodes[d].kind == Dir && nodes[d].nlink > 0
  }

  /** Entry k of directory d counts as a link to i: it names i, it is not ".", and d is linked. */
  predicate Counts(nodes: seq<Node>, d: nat, k: nat, i: nat) {
    && Linked(nodes, d) && k < |nodes[d].entries|
    && nodes[d].entries[k].inum == i && nodes[d].entries[k].name != "."
  }

  ghost function Refs(nodes: seq<Node>, i: nat): set<(nat, nat)> {
    set d: nat, k: nat | d < |nodes| && k < |nodes[d].entries| && Counts(nodes, d, k, i) :: (d, k)
  }

  // -------------------------------------------------------------- invariant

  ghost predicate UniqueNames(es: seq<Dirent>) {
    forall k, l :: 0 <= k < l < |es| && es[k].inum != 0 && es[l].inum != 0 ==> es[k].name != es[l].name
  }

  /** "." and ".." come first, and only the root is its own parent; only directories have entries. The ".." of a
      directory that is not linked any more may be any inode, even a free one. */
  ghost predicate WellFormed(nodes: seq<Node>, d: nat)
    requires d < |nodes|
  {
    if nodes[d].kind != Dir then nodes[d].entries == []
    else
      && |nodes[d].entries| >= 2
      && nodes[d].entries[0] == Dirent(d, ".")
      && nodes[d].entries[1].name == ".." && 0 < nodes[d].entries[1].inum < |nodes|
      && (nodes[d].entries[1].inum == d ==> d == ROOT)
      && UniqueNames(nodes[d].entries)
      && (nodes[d].nlink <= 0 ==> forall k :: 2 <= k < |nodes[d].entries| ==> nodes[d].entries[k].inum == 0)
  }

  function Parent(nodes: seq<Node>, d: nat): nat
    requires d < |nodes|
  {
    if |nodes[d].entries| >= 2 then nodes[d].entries[1].inum else 0
  }

  /** Slot k of directory d is an ordinary entry for i. */
  predicate Names(nodes: seq<Node>, d: nat, k: nat, i: nat) {
    Linked(nodes, d) && 2 <= k < |nodes[d].entries| && nodes[d].entries[k].inum == i != 0
  }

  /** An ordinary entry of a linked directory names an inode in use; if that is a directory, its ".." leads back
      here and this is its only ordinary entry. */
  ghost predicate EntryOk(nodes: seq<Node>, d: nat, k: nat)
    requires Linked(nodes, d) && 2 <= k < |nodes[d].entries|
  {
    var i := nodes[d].entries[k].inum;
    i != 0 ==>
      && i < |nodes| && nodes[i].kind != Free
      && (nodes[i].kind == Dir ==>
            && i != ROOT && i != d && Parent(nodes, i) == d
            && forall l :: 2 <= l < |nodes[d].entries| && nodes[d].entries[l].inum == i ==> l == k)
  }

  /** A linked directory's ".." is linked, and, unless it is the root, has an ordinary entry for it. */
  ghost predicate Attached(nodes: seq<Node>, d: nat)
    requires Linked(nodes, d)
  {
    && Linked(nodes, Parent(nodes, d))
    && (d == ROOT ==> Parent(nodes, d) == ROOT)
    && (d != ROOT ==> exists k :: Names(nodes, Parent(nodes, d), k, d))
  }

  /** nlink is the number of entries, other than ".", that name the inode in linked directories. */
  ghost predicate Counted(nodes: seq<Node>, i: nat)
    requires i < |nodes|
  {
    && nodes[i].nlink == |Refs(nodes, i)|
    && (nodes[i].kind == Free ==> nodes[i].nlink == 0)
  }

  ghost predicate LinkInv(nodes: seq<Node>) {
    && Linked(nodes, ROOT) && nodes[0].kind == Free
    && (forall d: nat :: d < |nodes| ==> WellFormed(nodes, d))
    && (forall d: nat, k: nat :: Linked(nodes, d) && 2 <= k < |nodes[d].entries| ==> EntryOk(nodes, d, k))
    && (forall d: nat :: Linked(nodes, d) ==> Attached(nodes, d))
    && (forall i: nat :: 0 < i < |nodes| ==> Counted(nodes, i))
  }

  // ------------------------------------------------------- how counts change

  lemma InRefs(nodes: seq<Node>, d: nat, k: nat, i: nat)
    ensures (d, k) in Refs(nodes, i) <==> Counts(nodes, d, k, i)
  {
  }

  // The parts of the invariant, one at a time.

  lemma InvWell(nodes: seq<Node>, d: nat)
    requires LinkInv(nodes) && d < |nodes|
    ensures WellFormed(nodes, d) && Linked(nodes, ROOT) && nodes[0].kind == Free
  {
  }

  lemma InvEntry(nodes: seq<Node>, d: nat, k: nat)
    requires LinkInv(nodes) && Linked(nodes, d) && 2 <= k < |nodes[d].entries|
    ensures EntryOk(nodes, d, k)
  {
  }

  lemma InvAttached(nodes: seq<Node>, d: nat)
    requires LinkInv(nodes) && Linked(nodes, d)
    ensures Attached(nodes, d)
  {
  }

  lemma InvCounted(nodes: seq<Node>, i: nat)
    requires LinkInv(nodes) && 0 < i < |nodes|
    ensures Counted(nodes, i)
  {
  }

  /** If exactly the slots in `gone` stop counting for i and those in `come` start to, nlink moves by the difference. */
  lemma RefsChange(nodes: seq<Node>, nodes': seq<Node>, i: nat, gone: set<(nat, nat)>, come: set<(nat, nat)>)
    requires gone <= Refs(nodes, i) && come !! Refs(nodes, i)
    requires forall d: nat, k: nat :: Counts(nodes', d, k, i) <==>
             (Counts(nodes, d, k, i) && (d, k) !in gone) || (d, k) in come
    ensures |Refs(nodes', i)| == |Refs(nodes, i)| - |gone| + |come|
  {
    hide Refs, Counts;
    var r, r' := Refs(nodes, i), Refs(nodes', i);
    forall p: (nat, nat)
      ensures p in r' <==> p in (r - gone) + come
    {
      InRefs(nodes, p.0, p.1, i);
      InRefs(nodes', p.0, p.1, i);
      assert p == (p.0, p.1);
    }
    assert r' == (r - gone) + come;
    assert r == (r - gone) + gone;
    assert |r| == |r - gone| + |gone|;
    assert |r'| == |r - gone| + |come|;
  }

  /** A linked directory's ordinary entries are never named "." or "..". */
  lemma OrdinaryName(nodes: seq<Node>, d: nat, k: nat)
    requires LinkInv(nodes) && Linked(nodes, d) && 2 <= k < |nodes[d].entries| && nodes[d].entries[k].inum != 0
    ensures nodes[d].entries[k].name != "." && nodes[d].entries[k].name != ".."
  {
    InvWell(nodes, d);
  }

  // -------------------------------------------------------- a name is added

  predicate Absent(es: seq<Dirent>, name: Name) {
    forall k :: 0 <= k < |es| && es[k].inum != 0 ==> es[k].name != name
  }

  /** Where dirlink may write: an empty slot, or just past the last one. */
  predicate Vacant(es: seq<Dirent>, k: nat) {
    2 <= k <= |es| && (k < |es| ==> es[k].inum == 0)
  }

  function PutEntry(es: seq<Dirent>, k: nat, e: Dirent): seq<Dirent>
    requires k <= |es|
  {
    if k < |es| then es[k := e] else es + [e]
  }

  /** Inode i, not a directory, gets one more name: a new inode its first, or an existing one another. */
  function AddName(nodes: seq<Node>, dp: nat, k: nat, name: Name, i: nat, kind: Kind): seq<Node>
    requires dp < |nodes| && k <= |nodes[dp].entries| && i < |nodes| && i != dp
  {
    nodes[i := Node(kind, nodes[i].nlink + 1, [])]
         [dp := nodes[dp].(entries := PutEntry(nodes[dp].entries, k, Dirent(i, name)))]
  }

  ghost predicate CanAddName(nodes: seq<Node>, dp: nat, k: nat, name: Name, i: nat, kind: Kind) {
    && LinkInv(nodes) && Linked(nodes, dp) && Vacant(nodes[dp].entries, k) && Absent(nodes[dp].entries, name)
    && 0 < i < |nodes| && kind != Free && kind != Dir && (nodes[i].kind == Free || nodes[i].kind == kind)
  }

  lemma PutUnique(es: seq<Dirent>, k: nat, e: Dirent)
    requires UniqueNames(es) && Vacant(es, k) && Absent(es, e.name)
    ensures UniqueNames(PutEntry(es, k, e))
  {
  }

  lemma AddNameShape(nodes: seq<Node>, dp: nat, k: nat, name: Name, i: nat, kind: Kind, d: nat)
    requires CanAddName(nodes, dp, k, name, i, kind) && d < |nodes|
    ensures WellFormed(AddName(nodes, dp, k, name, i, kind), d)
    ensures Linked(AddName(nodes, dp, k, name, i, kind), d) <==> Linked(nodes, d)
    ensures Linked(nodes, d) ==> Parent(AddName(nodes, dp, k, name, i, kind), d) == Parent(nodes, d)
  {
    hide LinkInv, Refs;
    InvWell(nodes, d);
    InvWell(nodes, i);
    InvCounted(nodes, i);
    if d == dp { PutUnique(nodes[dp].entries, k, Dirent(i, name)); }
  }

  lemma AddNameKeeps(nodes: seq<Node>, dp: nat, k: nat, name: Name, i: nat, kind: Kind, c: nat)
    requires CanAddName(nodes, dp, k, name, i, kind) && c < |nodes|
    ensures nodes[c].kind != Free ==> AddName(nodes, dp, k, name, i, kind)[c].kind == nodes[c].kind
    ensures nodes[c].kind == Dir ==> Parent(AddName(nodes, dp, k, name, i, kind), c) == Parent(nodes, c)
  {
    hide LinkInv;
    InvWell(nodes, c);
  }

  lemma AddNameEntry(nodes: seq<Node>, dp: nat, k: nat, name: Name, i: nat, kind: Kind, d: nat, l: nat)
    requires CanAddName(nodes, dp, k, name, i, kind)
    requires var nodes' := AddName(nodes, dp, k, name, i, kind);
             Linked(nodes', d) && 2 <= l < |nodes'[d].entries|
    ensures EntryOk(AddName(nodes, dp, k, name, i, kind), d, l)
  {
    hide LinkInv, WellFormed, UniqueNames, Absent;
    AddNameShape(nodes, dp, k, name, i, kind, d);
    if !(d == dp && l == k) {
      InvEntry(nodes, d, l);
      var c := nodes[d].entries[l].inum;
      if 0 < c < |nodes| { AddNameKeeps(nodes, dp, k, name, i, kind, c); }
    }
  }

  lemma AddNameAttached(nodes: seq<Node>, dp: nat, k: nat, name: Name, i: nat, kind: Kind, d: nat)
    requires CanAddName(nodes, dp, k, name, i, kind) && Linked(nodes, d)
    ensures Linked(AddName(nodes, dp, k, name, i, kind), d) && Attached(AddName(nodes, dp, k, name, i, kind), d)
  {
    hide LinkInv, WellFormed, UniqueNames, Absent;
    var nodes' := AddName(nodes, dp, k, name, i, kind);
    AddNameShape(nodes, dp, k, name, i, kind, d);
    InvAttached(nodes, d);
    var p := Parent(nodes, d);
    AddNameShape(nodes, dp, k, name, i, kind, p);
    if d != ROOT {
      var l :| Names(nodes, p, l, d);
      assert Names(nodes', p, l, d);
    }
  }

  lemma AddNameCounts(nodes: seq<Node>, dp: nat, k: nat, name: Name, i: nat, kind: Kind, j: nat, d: nat, l: nat)
    requires CanAddName(nodes, dp, k, name, i, kind) && 0 < j < |nodes|
    ensures Counts(AddName(nodes, dp, k, name, i, kind), d, l, j) <==>
            Counts(nodes, d, l, j) || (j == i && d == dp && l == k)
    ensures !Counts(nodes, dp, k, j)
  {
    hide LinkInv, UniqueNames;
    InvWell(nodes, dp);
    if d < |nodes| { AddNameShape(nodes, dp, k, name, i, kind, d); }
  }

  lemma AddNameCounted(nodes: seq<Node>, dp: nat, k: nat, name: Name, i: nat, kind: Kind, j: nat)
    requires CanAddName(nodes, dp, k, name, i, kind) && 0 < j < |nodes|
    ensures Counted(AddName(nodes, dp, k, name, i, kind), j)
  {
    hide LinkInv, Refs, WellFormed, UniqueNames, Absent, Counts;
    var nodes' := AddName(nodes, dp, k, name, i, kind);
    InvCounted(nodes, j);
    forall d: nat, l: nat
      ensures Counts(nodes', d, l, j) <==> Counts(nodes, d, l, j) || (j == i && d == dp && l == k)
    {
      AddNameCounts(nodes, dp, k, name, i, kind, j, d, l);
    }
    AddNameCounts(nodes, dp, k, name, i, kind, j, dp, k);
    InRefs(nodes, dp, k, j);
    RefsChange(nodes, nodes', j, {}, if j == i then {(dp, k)} else {});
  }

  /** Adding a name keeps the link invariant. */
  lemma AddNameInv(nodes: seq<Node>, dp: nat, k: nat, name: Name, i: nat, kind: Kind)
    requires CanAddName(nodes, dp, k, name, i, kind)
    ensures LinkInv(AddName(nodes, dp, k, name, i, kind))
  {
    hide WellFormed, EntryOk, Attached, Counted;
    var nodes' := AddName(nodes, dp, k, name, i, kind);
    forall d: nat | d < |nodes| ensures WellFormed(nodes', d) { AddNameShape(nodes, dp, k, name, i, kind, d); }
    forall d: nat, l: nat | Linked(nodes', d) && 2 <= l < |nodes'[d].entries|
      ensures EntryOk(nodes', d, l)
    {
      AddNameEntry(nodes, dp, k, name, i, kind, d, l);
    }
    forall d: nat | Linked(nodes', d)
      ensures Attached(nodes', d)
    {
      AddNameShape(nodes, dp, k, name, i, kind, d);
      AddNameAttached(nodes, dp, k, name, i, kind, d);
    }
    forall j: nat | 0 < j < |nodes| ensures Counted(nodes', j) { AddNameCounted(nodes, dp, k, name, i, kind, j); }
    AddNameShape(nodes, dp, k, name, i, kind, ROOT);
  }

  // --------------------------------------------------- a directory is added

  /** A new directory i inside dp. */
  function AddDir(nodes: seq<Node>, dp: nat, k: nat, name: Name, i: nat): seq<Node>
    requires dp < |nodes| && k <= |nodes[dp].entries| && i < |nodes| && i != dp
  {
    nodes[i := Node(Dir, 1, [Dirent(i, "."), Dirent(dp, "..")])]
         [dp := Node(Dir, nodes[dp].nlink + 1, PutEntry(nodes[dp].entries, k, Dirent(i, name)))]
  }

  ghost predicate CanAddDir(nodes: seq<Node>, dp: nat, k: nat, name: Name, i: nat) {
    && LinkInv(nodes) && Linked(nodes, dp) && Vacant(nodes[dp].entries, k) && Absent(nodes[dp].entries, name)
    && 0 < i < |nodes| && nodes[i].kind == Free
  }

  /** Nothing in a linked directory names a free inode. */
  lemma FreeUnnamed(nodes: seq<Node>, i: nat, d: nat, k: nat)
    requires LinkInv(nodes) && 0 < i < |nodes| && nodes[i].kind == Free
    ensures !Counts(nodes, d, k, i)
  {
    hide LinkInv;
    InvCounted(nodes, i);
    InRefs(nodes, d, k, i);
  }

  lemma AddDirShape(nodes: seq<Node>, dp: nat, k: nat, name: Name, i: nat, d: nat)
    requires CanAddDir(nodes, dp, k, name, i) && d < |nodes|
    ensures WellFormed(AddDir(nodes, dp, k, name, i), d)
    ensures Linked(AddDir(nodes, dp, k, name, i), d) <==> Linked(nodes, d) || d == i
    ensures d != i ==> AddDir(nodes, dp, k, name, i)[d].kind == nodes[d].kind
    ensures d != i ==> Parent(AddDir(nodes, dp, k, name, i), d) == Parent(nodes, d)
  {
    hide LinkInv, Refs;
    InvWell(nodes, d);
    InvWell(nodes, dp);
    InvWell(nodes, i);
    if d == dp { PutUnique(nodes[dp].entries, k, Dirent(i, name)); }
  }

  lemma AddDirEntry(nodes: seq<Node>, dp: nat, k: nat, name: Name, i: nat, d: nat, l: nat)
    requires CanAddDir(nodes, dp, k, name, i)
    requires var nodes' := AddDir(nodes, dp, k, name, i);
             Linked(nodes', d) && 2 <= l < |nodes'[d].entries|
    ensures EntryOk(AddDir(nodes, dp, k, name, i), d, l)
  {
    hide LinkInv, WellFormed, UniqueNames, Absent;
    AddDirShape(nodes, dp, k, name, i, d);
    InvWell(nodes, ROOT);
    if d == dp && l == k {
      forall m | 2 <= m < |nodes[dp].entries|
        ensures nodes[dp].entries[m].inum != i
      {
        InvEntry(nodes, dp, m);
      }
    } else {
      InvEntry(nodes, d, l);
      var c := nodes[d].entries[l].inum;
      if 0 < c < |nodes| { AddDirShape(nodes, dp, k, name, i, c); }
    }
  }

  lemma AddDirAttached(nodes: seq<Node>, dp: nat, k: nat, name: Name, i: nat, d: nat)
    requires CanAddDir(nodes, dp, k, name, i) && (Linked(nodes, d) || d == i)
    ensures Linked(AddDir(nodes, dp, k, name, i), d) && Attached(AddDir(nodes, dp, k, name, i), d)
  {
    hide LinkInv, WellFormed, UniqueNames, Absent;
    var nodes' := AddDir(nodes, dp, k, name, i);
    AddDirShape(nodes, dp, k, name, i, d);
    InvWell(nodes, ROOT);
    AddDirShape(nodes, dp, k, name, i, dp);
    if d == i {
      assert Names(nodes', dp, k, i);
    } else {
      InvAttached(nodes, d);
      var p := Parent(nodes, d);
      AddDirShape(nodes, dp, k, name, i, p);
      if d != ROOT {
        var l :| Names(nodes, p, l, d);
        assert Names(nodes', p, l, d);
      }
    }
  }

  lemma AddDirCounts(nodes: seq<Node>, dp: nat, k: nat, name: Name, i: nat, j: nat, d: nat, l: nat)
    requires CanAddDir(nodes, dp, k, name, i) && 0 < j < |nodes|
    ensures Counts(AddDir(nodes, dp, k, name, i), d, l, j) <==>
            Counts(nodes, d, l, j) || (j == i && d == dp && l == k) || (j == dp && d == i && l == 1)
    ensures !Counts(nodes, dp, k, j) && !Counts(nodes, i, 1, j)
  {
    hide LinkInv, UniqueNames;
    InvWell(nodes, dp);
    if d < |nodes| { AddDirShape(nodes, dp, k, name, i, d); }
  }

  lemma AddDirCounted(nodes: seq<Node>, dp: nat, k: nat, name: Name, i: nat, j: nat)
    requires CanAddDir(nodes, dp, k, name, i) && 0 < j < |nodes|
    ensures Counted(AddDir(nodes, dp, k, name, i), j)
  {
    hide LinkInv, Refs, WellFormed, UniqueNames, Absent, Counts;
    var nodes' := AddDir(nodes, dp, k, name, i);
    InvCounted(nodes, j);
    forall d: nat, l: nat
      ensures Counts(nodes', d, l, j) <==>
              Counts(nodes, d, l, j) || (j == i && d == dp && l == k) || (j == dp && d == i && l == 1)
    {
      AddDirCounts(nodes, dp, k, name, i, j, d, l);
    }
    AddDirCounts(nodes, dp, k, name, i, j, dp, k);
    InRefs(nodes, dp, k, j);
    InRefs(nodes, i, 1, j);
    RefsChange(nodes, nodes', j, {}, if j == i then {(dp, k)} else if j == dp then {(i, 1)} else {});
  }

  /** So does making a directory. */
  lemma AddDirInv(nodes: seq<Node>, dp: nat, k: nat, name: Name, i: nat)
    requires CanAddDir(nodes, dp, k, name, i)
    ensures LinkInv(AddDir(nodes, dp, k, name, i))
  {
    hide WellFormed, EntryOk, Attached, Counted;
    var nodes' := AddDir(nodes, dp, k, name, i);
    forall d: nat | d < |nodes| ensures WellFormed(nodes', d) { AddDirShape(nodes, dp, k, name, i, d); }
    forall d: nat, l: nat | Linked(nodes', d) && 2 <= l < |nodes'[d].entries|
      ensures EntryOk(nodes', d, l)
    {
      AddDirEntry(nodes, dp, k, name, i, d, l);
    }
    forall d: nat | Linked(nodes', d)
      ensures Attached(nodes', d)
    {
      AddDirShape(nodes, dp, k, name, i, d);
      AddDirAttached(nodes, dp, k, name, i, d);
    }
    forall j: nat | 0 < j < |nodes| ensures Counted(nodes', j) { AddDirCounted(nodes, dp, k, name, i, j); }
    AddDirShape(nodes, dp, k, name, i, ROOT);
  }

  // ------------------------------------------------------ a name is removed

  /** The entry at slot k of dp, for an inode that is not a directory, is erased. */
  function DropName(nodes: seq<Node>, dp: nat, k: nat): seq<Node>
    requires dp < |nodes| && k < |nodes[dp].entries|
    requires var i := nodes[dp].entries[k].inum; i < |nodes| && i != dp
  {
    var i := nodes[dp].entries[k].inum;
    nodes[i := nodes[i].(nlink := nodes[i].nlink - 1)][dp := nodes[dp].(entries := nodes[dp].entries[k := EMPTY])]
  }

  ghost predicate CanDropName(nodes: seq<Node>, dp: nat, k: nat) {
    && LinkInv(nodes) && Linked(nodes, dp) && 2 <= k < |nodes[dp].entries|
    && var i := nodes[dp].entries[k].inum; 0 < i < |nodes| && nodes[i].kind != Dir
  }

  lemma DropNameShape(nodes: seq<Node>, dp: nat, k: nat, d: nat)
    requires CanDropName(nodes, dp, k) && d < |nodes|
    ensures WellFormed(DropName(nodes, dp, k), d)
    ensures Linked(DropName(nodes, dp, k), d) <==> Linked(nodes, d)
    ensures DropName(nodes, dp, k)[d].kind == nodes[d].kind
    ensures Parent(DropName(nodes, dp, k), d) == Parent(nodes, d)
  {
    hide LinkInv, Refs;
    InvWell(nodes, d);
  }

  lemma DropNameCounts(nodes: seq<Node>, dp: nat, k: nat, j: nat, d: nat, l: nat)
    requires CanDropName(nodes, dp, k) && 0 < j < |nodes|
    ensures Counts(DropName(nodes, dp, k), d, l, j) <==> Counts(nodes, d, l, j) && (d, l) != (dp, k)
    ensures Counts(nodes, dp, k, j) <==> j == nodes[dp].entries[k].inum
  {
    hide LinkInv, UniqueNames, WellFormed, Refs, Parent;
    OrdinaryName(nodes, dp, k);
    if d < |nodes| { DropNameShape(nodes, dp, k, d); }
  }

  lemma DropNameCounted(nodes: seq<Node>, dp: nat, k: nat, j: nat)
    requires CanDropName(nodes, dp, k) && 0 < j < |nodes|
    ensures Counted(DropName(nodes, dp, k), j)
  {
    hide LinkInv, Refs, WellFormed, UniqueNames, Counts;
    var nodes', i := DropName(nodes, dp, k), nodes[dp].entries[k].inum;
    InvCounted(nodes, j);
    InvEntry(nodes, dp, k);
    forall d: nat, l: nat
      ensures Counts(nodes', d, l, j) <==> Counts(nodes, d, l, j) && (d, l) != (dp, k)
    {
      DropNameCounts(nodes, dp, k, j, d, l);
    }
    DropNameCounts(nodes, dp, k, j, dp, k);
    InRefs(nodes, dp, k, j);
    RefsChange(nodes, nodes', j, if j == i then {(dp, k)} else {}, {});
  }

  lemma DropNameEntry(nodes: seq<Node>, dp: nat, k: nat, d: nat, l: nat)
    requires CanDropName(nodes, dp, k)
    requires var nodes' := DropName(nodes, dp, k); Linked(nodes', d) && 2 <= l < |nodes'[d].entries|
    ensures EntryOk(DropName(nodes, dp, k), d, l)
  {
    hide LinkInv, WellFormed, UniqueNames;
    DropNameShape(nodes, dp, k, d);
    InvEntry(nodes, d, l);
    var c := nodes[d].entries[l].inum;
    if 0 < c < |nodes| { DropNameShape(nodes, dp, k, c); }
  }

  lemma DropNameAttached(nodes: seq<Node>, dp: nat, k: nat, d: nat)
    requires CanDropName(nodes, dp, k) && Linked(nodes, d)
    ensures Linked(DropName(nodes, dp, k), d) && Attached(DropName(nodes, dp, k), d)
  {
    hide LinkInv, WellFormed, UniqueNames;
    var nodes' := DropName(nodes, dp, k);
    DropNameShape(nodes, dp, k, d);
    InvAttached(nodes, d);
    var p := Parent(nodes, d);
    DropNameShape(nodes, dp, k, p);
    if d != ROOT {
      var l :| Names(nodes, p, l, d);
      assert Names(nodes', p, l, d);
    }
  }

  /** Erasing a file's name keeps the link invariant. */
  lemma DropNameInv(nodes: seq<Node>, dp: nat, k: nat)
    requires CanDropName(nodes, dp, k)
    ensures LinkInv(DropName(nodes, dp, k))
  {
    hide WellFormed, EntryOk, Attached, Counted;
    var nodes' := DropName(nodes, dp, k);
    forall d: nat | d < |nodes| ensures WellFormed(nodes', d) { DropNameShape(nodes, dp, k, d); }
    forall d: nat, l: nat | Linked(nodes', d) && 2 <= l < |nodes'[d].entries|
      ensures EntryOk(nodes', d, l)
    {
      DropNameEntry(nodes, dp, k, d, l);
    }
    forall d: nat | Linked(nodes', d)
      ensures Attached(nodes', d)
    {
      DropNameShape(nodes, dp, k, d);
      DropNameAttached(nodes, dp, k, d);
    }
    forall j: nat | 0 < j < |nodes| ensures Counted(nodes', j) { DropNameCounted(nodes, dp, k, j); }
    DropNameShape(nodes, dp, k, ROOT);
    DropNameShape(nodes, dp, k, 0);
  }

  // ------------------------------------------------- a directory is removed

  predicate NoOrdinaryEntries(es: seq<Dirent>) {
    forall k :: 2 <= k < |es| ==> es[k].inum == 0
  }

  /** The empty directory that slot k of dp names loses that name, and dp loses its "..". */
  function DropDir(nodes: seq<Node>, dp: nat, k: nat): seq<Node>
    requires dp < |nodes| && k < |nodes[dp].entries|
    requires var i := nodes[dp].entries[k].inum; i < |nodes| && i != dp
  {
    var i := nodes[dp].entries[k].inum;
    nodes[i := nodes[i].(nlink := nodes[i].nlink - 1)]
         [dp := Node(nodes[dp].kind, nodes[dp].nlink - 1, nodes[dp].entries[k := EMPTY])]
  }

  ghost predicate CanDropDir(nodes: seq<Node>, dp: nat, k: nat) {
    && LinkInv(nodes) && Linked(nodes, dp) && 2 <= k < |nodes[dp].entries|
    && var i := nodes[dp].entries[k].inum;
       0 < i < |nodes| && i != dp && nodes[i].kind == Dir && NoOrdinaryEntries(nodes[i].entries)
  }

  /** No directory has the empty directory i for its "..". */
  lemma NoChild(nodes: seq<Node>, i: nat, d: nat)
    requires LinkInv(nodes) && Linked(nodes, i) && i != ROOT && NoOrdinaryEntries(nodes[i].entries) && Linked(nodes, d)
    ensures Parent(nodes, d) != i
  {
    hide LinkInv, WellFormed;
    InvAttached(nodes, d);
  }

  lemma NamedIsLinked(nodes: seq<Node>, dp: nat, k: nat)
    requires LinkInv(nodes) && Linked(nodes, dp) && 2 <= k < |nodes[dp].entries|
    requires var i := nodes[dp].entries[k].inum; 0 < i < |nodes|
    ensures nodes[nodes[dp].entries[k].inum].nlink > 0
  {
    hide LinkInv, WellFormed, Refs;
    var i := nodes[dp].entries[k].inum;
    OrdinaryName(nodes, dp, k);
    InvCounted(nodes, i);
    InRefs(nodes, dp, k, i);
  }

  /** Only its own name counts for an empty directory. */
  lemma OnlyName(nodes: seq<Node>, dp: nat, k: nat, d: nat, l: nat)
    requires CanDropDir(nodes, dp, k)
    ensures Counts(nodes, d, l, nodes[dp].entries[k].inum) <==> d == dp && l == k
  {
    hide LinkInv, Refs, UniqueNames;
    var i := nodes[dp].entries[k].inum;
    NamedIsLinked(nodes, dp, k);
    OrdinaryName(nodes, dp, k);
    InvEntry(nodes, dp, k);
    if Counts(nodes, d, l, i) {
      InvWell(nodes, d);
      NoChild(nodes, i, d);
      assert l != 0 && l != 1;
      InvEntry(nodes, d, l);
    }
  }

  /** So its count is one. */
  lemma EmptyDirCount(nodes: seq<Node>, dp: nat, k: nat)
    requires CanDropDir(nodes, dp, k)
    ensures nodes[nodes[dp].entries[k].inum].nlink == 1
  {
    hide LinkInv, Refs, WellFormed, UniqueNames, Counts;
    var i := nodes[dp].entries[k].inum;
    InvCounted(nodes, i);
    forall p: (nat, nat)
      ensures p in Refs(nodes, i) <==> p in {(dp, k)}
    {
      OnlyName(nodes, dp, k, p.0, p.1);
      InRefs(nodes, p.0, p.1, i);
      assert p == (p.0, p.1);
    }
    assert Refs(nodes, i) == {(dp, k)};
  }

  /** The slot that makes directory d count: the root's own "..", or its name in its parent. */
  lemma Anchor(nodes: seq<Node>, d: nat) returns (p: (nat, nat))
    requires LinkInv(nodes) && Linked(nodes, d)
    ensures Counts(nodes, p.0, p.1, d) && (p.1 == 1 ==> p.0 == ROOT)
  {
    hide LinkInv, Refs, UniqueNames;
    InvAttached(nodes, d);
    InvWell(nodes, d);
    if d == ROOT {
      p := (ROOT, 1);
    } else {
      var l: nat :| Names(nodes, Parent(nodes, d), l, d);
      OrdinaryName(nodes, Parent(nodes, d), l);
      p := (Parent(nodes, d), l);
    }
  }

  /** A directory that holds another one has a count of at least two. */
  lemma HolderCount(nodes: seq<Node>, dp: nat, k: nat)
    requires CanDropDir(nodes, dp, k)
    ensures nodes[dp].nlink >= 2
    ensures Counts(nodes, nodes[dp].entries[k].inum, 1, dp)
  {
    hide LinkInv, Refs, UniqueNames;
    var i := nodes[dp].entries[k].inum;
    NamedIsLinked(nodes, dp, k);
    InvEntry(nodes, dp, k);
    InvWell(nodes, i);
    InvCounted(nodes, dp);
    var p := Anchor(nodes, dp);
    InRefs(nodes, p.0, p.1, dp);
    InRefs(nodes, i, 1, dp);
    assert p == (p.0, p.1);
    PairCount(Refs(nodes, dp), p, (i, 1));
  }

  lemma PairCount(s: set<(nat, nat)>, p: (nat, nat), q: (nat, nat))
    requires p in s && q in s && p != q
    ensures |s| >= 2
  {
    assert |s - {p}| == |s| - 1;
    assert |s - {p} - {q}| == |s| - 2;
  }

  lemma DropDirShape(nodes: seq<Node>, dp: nat, k: nat, d: nat)
    requires CanDropDir(nodes, dp, k) && d < |nodes|
    ensures WellFormed(DropDir(nodes, dp, k), d)
    ensures Linked(DropDir(nodes, dp, k), d) <==> Linked(nodes, d) && d != nodes[dp].entries[k].inum
    ensures DropDir(nodes, dp, k)[d].kind == nodes[d].kind
    ensures Parent(DropDir(nodes, dp, k), d) == Parent(nodes, d)
  {
    hide LinkInv, Refs;
    InvWell(nodes, d);
    EmptyDirCount(nodes, dp, k);
    HolderCount(nodes, dp, k);
  }

  lemma DropDirEntry(nodes: seq<Node>, dp: nat, k: nat, d: nat, l: nat)
    requires CanDropDir(nodes, dp, k)
    requires var nodes' := DropDir(nodes, dp, k); Linked(nodes', d) && 2 <= l < |nodes'[d].entries|
    ensures EntryOk(DropDir(nodes, dp, k), d, l)
  {
    hide LinkInv, WellFormed, UniqueNames;
    DropDirShape(nodes, dp, k, d);
    InvEntry(nodes, d, l);
    var c := nodes[d].entries[l].inum;
    if 0 < c < |nodes| { DropDirShape(nodes, dp, k, c); }
  }

  lemma DropDirAttached(nodes: seq<Node>, dp: nat, k: nat, d: nat)
    requires CanDropDir(nodes, dp, k) && Linked(nodes, d) && d != nodes[dp].entries[k].inum
    ensures Linked(DropDir(nodes, dp, k), d) && Attached(DropDir(nodes, dp, k), d)
  {
    hide LinkInv, WellFormed, UniqueNames;
    var nodes', i := DropDir(nodes, dp, k), nodes[dp].entries[k].inum;
    DropDirShape(nodes, dp, k, d);
    InvAttached(nodes, d);
    NamedIsLinked(nodes, dp, k);
    InvEntry(nodes, dp, k);
    NoChild(nodes, i, d);
    var p := Parent(nodes, d);
    DropDirShape(nodes, dp, k, p);
    if d != ROOT {
      var l :| Names(nodes, p, l, d);
      assert Names(nodes', p, l, d);
    }
  }

  lemma DropDirCounts(nodes: seq<Node>, dp: nat, k: nat, j: nat, d: nat, l: nat)
    requires CanDropDir(nodes, dp, k) && 0 < j < |nodes|
    ensures var i := nodes[dp].entries[k].inum;
            Counts(DropDir(nodes, dp, k), d, l, j) <==>
            Counts(nodes, d, l, j) && !(j == i && d == dp && l == k) && !(j == dp && d == i && l == 1)
  {
    hide LinkInv, UniqueNames, Refs;
    var i := nodes[dp].entries[k].inum;
    if d < |nodes| { DropDirShape(nodes, dp, k, d); }
    InvEntry(nodes, dp, k);
    InvWell(nodes, i);
  }

  lemma DropDirCounted(nodes: seq<Node>, dp: nat, k: nat, j: nat)
    requires CanDropDir(nodes, dp, k) && 0 < j < |nodes|
    ensures Counted(DropDir(nodes, dp, k), j)
  {
    hide LinkInv, Refs, WellFormed, UniqueNames, Counts;
    var nodes', i := DropDir(nodes, dp, k), nodes[dp].entries[k].inum;
    InvCounted(nodes, j);
    forall d: nat, l: nat
      ensures Counts(nodes', d, l, j) <==>
              Counts(nodes, d, l, j) && !(j == i && d == dp && l == k) && !(j == dp && d == i && l == 1)
    {
      DropDirCounts(nodes, dp, k, j, d, l);
    }
    OnlyName(nodes, dp, k, dp, k);
    HolderCount(nodes, dp, k);
    InRefs(nodes, dp, k, i);
    InRefs(nodes, i, 1, dp);
    RefsChange(nodes, nodes', j, if j == i then {(dp, k)} else if j == dp then {(i, 1)} else {}, {});
  }

  /** Removing an empty directory keeps the link invariant. */
  lemma DropDirInv(nodes: seq<Node>, dp: nat, k: nat)
    requires CanDropDir(nodes, dp, k)
    ensures LinkInv(DropDir(nodes, dp, k))
  {
    hide WellFormed, EntryOk, Attached, Counted;
    var nodes', i := DropDir(nodes, dp, k), nodes[dp].entries[k].inum;
    forall d: nat | d < |nodes| ensures WellFormed(nodes', d) { DropDirShape(nodes, dp, k, d); }
    forall d: nat, l: nat | Linked(nodes', d) && 2 <= l < |nodes'[d].entries|
      ensures EntryOk(nodes', d, l)
    {
      DropDirEntry(nodes, dp, k, d, l);
    }
    forall d: nat | Linked(nodes', d)
      ensures Attached(nodes', d)
    {
      DropDirShape(nodes, dp, k, d);
      DropDirAttached(nodes, dp, k, d);
    }
    forall j: nat | 0 < j < |nodes| ensures Counted(nodes', j) { DropDirCounted(nodes, dp, k, j); }
    DropDirShape(nodes, dp, k, ROOT);
    DropDirShape(nodes, dp, k, 0);
    NotRoot(nodes, dp, k);
  }

  lemma NotRoot(nodes: seq<Node>, dp: nat, k: nat)
    requires CanDropDir(nodes, dp, k)
    ensures nodes[dp].entries[k].inum != ROOT
  {
    hide LinkInv;
    InvEntry(nodes, dp, k);
  }

  // ------------------------------------------------------ an inode is freed

  /** An inode nothing names goes back to the free ones. */
  function FreeNode(nodes: seq<Node>, i: nat): seq<Node>
    requires i < |nodes|
  {
    nodes[i := Node(Free, 0, [])]
  }

  lemma FreeNodeUnnamed(nodes: seq<Node>, i: nat, d: nat, k: nat)
    requires LinkInv(nodes) && 0 < i < |nodes| && nodes[i].nlink == 0
    ensures !Counts(nodes, d, k, i)
  {
    hide LinkInv, Refs;
    InvCounted(nodes, i);
    InRefs(nodes, d, k, i);
  }

  lemma FreeNodeCounted(nodes: seq<Node>, i: nat, j: nat)
    requires LinkInv(nodes) && 0 < i < |nodes| && nodes[i].nlink == 0 && 0 < j < |nodes|
    ensures Counted(FreeNode(nodes, i), j)
  {
    hide LinkInv, Refs;
    InvCounted(nodes, j);
    RefsChange(nodes, FreeNode(nodes, i), j, {}, {});
  }

  lemma FreeNodeEntry(nodes: seq<Node>, i: nat, d: nat, l: nat)
    requires LinkInv(nodes) && 0 < i < |nodes| && nodes[i].nlink == 0
    requires Linked(nodes, d) && 2 <= l < |nodes[d].entries|
    ensures Linked(FreeNode(nodes, i), d) && EntryOk(FreeNode(nodes, i), d, l)
  {
    hide LinkInv, Refs;
    if nodes[d].entries[l].inum != 0 { OrdinaryName(nodes, d, l); }
    FreeNodeUnnamed(nodes, i, d, l);
    InvEntry(nodes, d, l);
  }

  lemma FreeNodeAttached(nodes: seq<Node>, i: nat, d: nat)
    requires LinkInv(nodes) && 0 < i < |nodes| && nodes[i].nlink == 0 && Linked(nodes, d)
    ensures Linked(FreeNode(nodes, i), d) && Attached(FreeNode(nodes, i), d)
  {
    hide LinkInv, Refs, WellFormed;
    InvAttached(nodes, d);
    var p := Parent(nodes, d);
    if d != ROOT {
      var l :| Names(nodes, p, l, d);
      assert Names(FreeNode(nodes, i), p, l, d);
    }
  }

  lemma FreeNodeShape(nodes: seq<Node>, i: nat, d: nat)
    requires LinkInv(nodes) && i < |nodes| && d < |nodes|
    ensures WellFormed(FreeNode(nodes, i), d)
  {
    hide LinkInv, Refs;
    InvWell(nodes, d);
  }

  /** Freeing an inode without links keeps the link invariant. */
  lemma FreeNodeInv(nodes: seq<Node>, i: nat)
    requires LinkInv(nodes) && 0 < i < |nodes| && nodes[i].nlink == 0
    ensures LinkInv(FreeNode(nodes, i))
  {
    hide EntryOk, Attached, Counted, WellFormed;
    var nodes' := FreeNode(nodes, i);
    forall d: nat | d < |nodes| ensures WellFormed(nodes', d) { FreeNodeShape(nodes, i, d); }
    forall d: nat, l: nat | Linked(nodes', d) && 2 <= l < |nodes'[d].entries|
      ensures EntryOk(nodes', d, l)
    {
      FreeNodeEntry(nodes, i, d, l);
    }
    forall d: nat | Linked(nodes', d)
      ensures Attached(nodes', d)
    {
      FreeNodeAttached(nodes, i, d);
    }
    forall j: nat | 0 < j < |nodes| ensures Counted(nodes', j) { FreeNodeCounted(nodes, i, j); }
  }
}

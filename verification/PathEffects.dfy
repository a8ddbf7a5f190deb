/** What create, link and unlink do to the paths of a file system. */
module PathEffects {
  import opened Basics
  import opened LinkCount
  import opened Paths
  import opened Directories

  // ----------------------------------------------------------- adding a name

  /** Directory dp gets a name that it lacked, for inode i; no inode in use changes its kind and no other directory its
      entries. */
  ghost predicate Adds(nodes: seq<Node>, nodes': seq<Node>, dp: nat, k: nat, name: Name, i: nat) {
    && |nodes'| == |nodes| && IsDir(nodes, dp) && k <= |nodes[dp].entries|
    && (k < |nodes[dp].entries| ==> nodes[dp].entries[k].inum == 0)
    && (forall l :: 0 <= l < |nodes[dp].entries| ==> !Matches(nodes[dp].entries[l], name))
    && nodes'[dp].entries == PutEntry(nodes[dp].entries, k, Dirent(i, name)) && InUse(nodes', i)
    && forall j: nat :: InUse(nodes, j) ==> SameNode(nodes[j], nodes'[j], j == dp)
  }

  predicate SameNode(n: Node, n': Node, grows: bool) {
    n'.kind == n.kind && (!grows ==> n'.entries == n.entries)
  }

  /** Every other name is found where it was, and the new one in its slot. */
  lemma AddedFind(es: seq<Dirent>, k: nat, e: Dirent, name: Name)
    requires k <= |es| && (k < |es| ==> es[k].inum == 0) && e.inum != 0
    requires forall l :: 0 <= l < |es| ==> !Matches(es[l], e.name)
    ensures var es', f := PutEntry(es, k, e), Find(es, name);
            && k < |es'| && |es| <= |es'|
            && (name == e.name ==> Find(es', name) == k && es'[k] == e)
            && (name != e.name && f < |es| ==> Find(es', name) == f && es'[f] == es[f])
  {
    hide Find;
    var es' := PutEntry(es, k, e);
    forall l | 0 <= l < |es'|
      ensures l == k ==> es'[l] == e
      ensures l != k ==> l < |es| && es'[l] == es[l]
    {
    }
    var f, f' := Find(es, name), Find(es', name);
    if name == e.name {
      assert Matches(es'[k], name);
      if f' < k { assert Matches(es'[f'], name); }
    } else if f < |es| {
      assert f != k && Matches(es'[f], name);
      if f' < f { assert Matches(es'[f'], name); }
    }
  }

  /** A walk that led somewhere leads there still. */
  lemma {:induction false} AddedKeeps(nodes: seq<Node>, nodes': seq<Node>, dp: nat, k: nat, name: Name, i: nat,
                                      s: nat, names: seq<Name>)
    requires Adds(nodes, nodes', dp, k, name, i) && Walk(nodes, s, names).At?
    ensures Walk(nodes', s, names) == Walk(nodes, s, names)
    decreases |names|
  {
    hide Find, PutEntry;
    assert SameNode(nodes[s], nodes'[s], s == dp);
    if names != [] {
      var es := nodes[s].entries;
      var f := Find(es, names[0]);
      assert Matches(es[f], names[0]);
      if s == dp { AddedFind(es, k, Dirent(i, name), names[0]); }
      AddedKeeps(nodes, nodes', dp, k, name, i, es[f].inum, names[1..]);
    }
  }

  /** The walk to the new name now leads to the inode. */
  lemma {:induction false} AddedLeads(nodes: seq<Node>, nodes': seq<Node>, dp: nat, k: nat, name: Name, i: nat,
                                      s: nat, names: seq<Name>)
    requires Adds(nodes, nodes', dp, k, name, i) && WalkParent(nodes, s, names) == At(Target(dp, name))
    ensures Walk(nodes', s, names) == At(i)
    decreases |names|
  {
    hide Find, PutEntry;
    assert SameNode(nodes[s], nodes'[s], s == dp);
    var es := nodes[s].entries;
    var f := Find(es, names[0]);
    if s == dp { AddedFind(es, k, Dirent(i, name), names[0]); }
    if |names| == 1 {
      assert names[1..] == [];
    } else {
      assert Matches(es[f], names[0]);
      AddedLeads(nodes, nodes', dp, k, name, i, es[f].inum, names[1..]);
    }
  }

  lemma CreatedAdds(nodes: seq<Node>, dp: nat, name: Name, i: nat, kind: Kind)
    requires IsDir(nodes, dp) && 0 < i < |nodes| && nodes[i].kind == Free && kind != Free
    requires Find(nodes[dp].entries, name) == |nodes[dp].entries|
    ensures Adds(nodes, Created(nodes, dp, name, i, kind), dp, FirstEmpty(nodes[dp].entries, 0), name, i)
  {
    hide Find, FirstEmpty;
  }

  // --------------------------------------------------------- removing a name

  /** Slot k of directory dp has been emptied; no other directory in use has changed its entries, or any its kind. */
  ghost predicate Erases(nodes: seq<Node>, nodes': seq<Node>, dp: nat, k: nat) {
    && |nodes'| == |nodes| && IsDir(nodes, dp) && k < |nodes[dp].entries| && nodes[dp].entries[k].inum != 0
    && UniqueNames(nodes[dp].entries) && nodes'[dp].entries == nodes[dp].entries[k := EMPTY]
    && forall j: nat :: InUse(nodes', j) ==> SameNode(nodes[j], nodes'[j], j == dp)
  }

  lemma ErasedFind(es: seq<Dirent>, k: nat, name: Name)
    requires k < |es| && es[k].inum != 0 && UniqueNames(es)
    ensures var es' := es[k := EMPTY];
            && (name == es[k].name ==> Find(es', name) == |es|)
            && (name != es[k].name ==> Find(es', name) == Find(es, name))
  {
    hide Find, UniqueNames;
    var es' := es[k := EMPTY];
    FindUnique(es, name);
    assert forall l :: 0 <= l < |es| && l != k ==> es'[l] == es[l];
    var f, f' := Find(es, name), Find(es', name);
    if name == es[k].name {
      assert Matches(es[k], name);
      assert forall l :: 0 <= l < |es| && l != k ==> !Matches(es'[l], name);
    } else {
      if f < |es| { assert Matches(es'[f], name); }
      if f' < |es| { assert Matches(es[f'], name); }
    }
  }

  /** The walk to the erased name leads nowhere. */
  lemma {:induction false} ErasedWalk(nodes: seq<Node>, nodes': seq<Node>, dp: nat, k: nat, s: nat, names: seq<Name>)
    requires Erases(nodes, nodes', dp, k) && WalkParent(nodes, s, names) == At(Target(dp, nodes[dp].entries[k].name))
    ensures !Walk(nodes', s, names).At?
    decreases |names|
  {
    hide Find, UniqueNames;
    if InUse(nodes', s) {
      assert SameNode(nodes[s], nodes'[s], s == dp);
      var es := nodes[s].entries;
      if s == dp { ErasedFind(es, k, names[0]); }
      if |names| > 1 && Find(nodes'[s].entries, names[0]) < |nodes'[s].entries| {
        ErasedWalk(nodes, nodes', dp, k, es[Find(es, names[0])].inum, names[1..]);
      }
    }
  }

  /** A walk that leads somewhere led there before: no name has come to mean something else. */
  lemma {:induction false} ErasedKeeps(nodes: seq<Node>, nodes': seq<Node>, dp: nat, k: nat, s: nat, names: seq<Name>)
    requires Erases(nodes, nodes', dp, k) && Walk(nodes', s, names).At?
    ensures Walk(nodes, s, names) == Walk(nodes', s, names)
    decreases |names|
  {
    hide Find, UniqueNames;
    assert SameNode(nodes[s], nodes'[s], s == dp);
    if names != [] {
      var es := nodes[s].entries;
      if s == dp { ErasedFind(es, k, names[0]); }
      ErasedKeeps(nodes, nodes', dp, k, es[Find(es, names[0])].inum, names[1..]);
    }
  }

  lemma UnlinkedErases(nodes: seq<Node>, ref: seq<nat>, dp: nat, k: nat)
    requires LinkInv(nodes) && IsDir(nodes, dp) && k < |nodes[dp].entries| && |ref| == |nodes|
    requires var i := nodes[dp].entries[k].inum; 0 < i < |nodes| && i != dp
    ensures Erases(nodes, Unlinked(nodes, ref, dp, k), dp, k)
  {
    hide LinkInv, UniqueNames;
    InvWell(nodes, dp);
  }

  // ------------------------------------------------------------------ unlink

  /** When unlink succeeds in the directory that its path leads to: exactly when the name is not "." or "..", some entry
      in use has it, and its inode is no directory or has nothing in use after its first two entries. */
  lemma UnlinkIff(nodes: seq<Node>, ref: seq<nat>, t: Target, nodes': seq<Node>, r: Outcome)
    requires LinkInv(nodes) && IsDir(nodes, t.dir) && UnlinkEffect(nodes, ref, At(t), nodes', r)
    ensures var es := nodes[t.dir].entries;
            r == Done <==>
            && t.name != "." && t.name != ".."
            && exists k :: 0 <= k < |es| && es[k].inum != 0 && es[k].name == t.name && es[k].inum < |nodes|
                 && (nodes[es[k].inum].kind != Dir
                     || forall j :: 2 <= j < |nodes[es[k].inum].entries| ==> nodes[es[k].inum].entries[j].inum == 0)
    ensures r != Done ==> r == Failed && nodes' == nodes
  {
    hide LinkInv, Find, UniqueNames, Unlinked;
    InvWell(nodes, t.dir);
    FindUnique(nodes[t.dir].entries, t.name);
    var es := nodes[t.dir].entries;
    forall k | 0 <= k < |es| && es[k].inum != 0 && es[k].name == t.name
      ensures k == Find(es, t.name)
    {
      assert Matches(es[k], t.name);
    }
  }

  /** What a successful unlink changes: the entry is emptied, its inode loses a link and is freed at the last one if
      nothing refers to it, the directory loses a link if that was a directory, and nothing else changes. */
  lemma UnlinkDoes(nodes: seq<Node>, ref: seq<nat>, t: Target, k: nat, nodes': seq<Node>)
    requires LinkInv(nodes) && IsDir(nodes, t.dir) && UnlinkEffect(nodes, ref, At(t), nodes', Done)
    requires k < |nodes[t.dir].entries| && nodes[t.dir].entries[k].inum != 0 && nodes[t.dir].entries[k].name == t.name
    ensures |nodes'| == |nodes| == |ref|
    ensures var i := nodes[t.dir].entries[k].inum;
            && 0 < i < |nodes| && i != t.dir
            && nodes'[t.dir].entries == nodes[t.dir].entries[k := Dirent(0, "")]
            && nodes'[t.dir].kind == Dir
            && nodes'[t.dir].nlink == nodes[t.dir].nlink - (if nodes[i].kind == Dir then 1 else 0)
            && nodes'[i] == (if nodes[i].nlink == 1 && ref[i] == 0 then Node(Free, 0, [])
                             else nodes[i].(nlink := nodes[i].nlink - 1))
            && forall j :: 0 <= j < |nodes| && j != i && j != t.dir ==> nodes'[j] == nodes[j]
  {
    hide LinkInv, Find, UniqueNames;
    InvWell(nodes, t.dir);
    FindUnique(nodes[t.dir].entries, t.name);
    assert Matches(nodes[t.dir].entries[k], t.name);
  }

  /** After a successful unlink the path leads nowhere, though it led somewhere before; every path that still leads
      somewhere led there before. */
  lemma UnlinkedPath(nodes: seq<Node>, ref: seq<nat>, cwd: nat, path: string, nodes': seq<Node>)
    requires LinkInv(nodes) && IsDir(nodes, cwd)
    requires UnlinkEffect(nodes, ref, NameiParent(nodes, cwd, path), nodes', Done)
    ensures Namei(nodes, cwd, path).At? && !Namei(nodes', cwd, path).At?
    ensures forall c: nat, p: string :: Namei(nodes', c, p).At? ==> Namei(nodes, c, p) == Namei(nodes', c, p)
  {
    hide LinkInv, Walk, WalkParent, Elements, Find, Unlinked, UniqueNames, NoOrdinaryEntries;
    var s, names := StartOf(cwd, path), Elements(path);
    var t := NameiParent(nodes, cwd, path).value;
    WalkInUse(nodes, s, names);
    var es := nodes[t.dir].entries;
    var k := Find(es, t.name);
    UnlinkedErases(nodes, ref, t.dir, k);
    ErasedWalk(nodes, nodes', t.dir, k, s, names);
    LedThere(nodes, s, names, t, k);
    forall c: nat, p: string | Namei(nodes', c, p).At?
      ensures Namei(nodes, c, p) == Namei(nodes', c, p)
    {
      ErasedKeeps(nodes, nodes', t.dir, k, StartOf(c, p), Elements(p));
    }
  }

  /** A name that unlink can remove leads to an inode in use. */
  lemma LedThere(nodes: seq<Node>, s: nat, names: seq<Name>, t: Target, k: nat)
    requires LinkInv(nodes) && WalkParent(nodes, s, names) == At(t) && IsDir(nodes, t.dir)
    requires k == Find(nodes[t.dir].entries, t.name) < |nodes[t.dir].entries| && t.name != "." && t.name != ".."
    ensures Walk(nodes, s, names) == At(nodes[t.dir].entries[k].inum)
  {
    hide LinkInv, Find;
    if !Linked(nodes, t.dir) { UnlinkedFinds(nodes, t.dir, t.name); }
    EntryLeads(nodes, t.dir, k);
    assert names != [];
    WalkIsParentThenName(nodes, s, names);
    WalkStep(nodes, t.dir, t.name, []);
    assert [t.name] + [] == [t.name];
    NoNames(nodes, nodes[t.dir].entries[k].inum);
  }

  // ------------------------------------------------------------------ create

  /** How create ends in the directory that its path leads to. If an entry in use has the name, create succeeds exactly
      for a file that is to be a file, without changes; if none has, exactly when some inode is free. */
  lemma CreateIff(nodes: seq<Node>, t: Target, kind: Kind, nodes': seq<Node>, r: Outcome, i: nat)
    requires LinkInv(nodes) && Linked(nodes, t.dir) && kind != Free && CreateEffect(nodes, At(t), kind, nodes', r, i)
    ensures var es := nodes[t.dir].entries;
            && (forall k :: 0 <= k < |es| && es[k].inum != 0 && es[k].name == t.name ==>
                  && es[k].inum < |nodes| && nodes' == nodes
                  && (r == Done <==> kind == File && nodes[es[k].inum].kind == File)
                  && (r == Done ==> i == es[k].inum) && (r != Done ==> r == Failed))
            && ((forall k :: 0 <= k < |es| && es[k].inum != 0 ==> es[k].name != t.name) ==>
                  && (r == Done <==> exists j :: 0 < j < |nodes| && nodes[j].kind == Free)
                  && (r != Done ==> r == NoInodes)
                  && (r == Done ==> 0 < i < |nodes| && nodes[i].kind == Free))
  {
    hide LinkInv, Find, FirstFree, UniqueNames, Created;
    InvWell(nodes, t.dir);
    FindUnique(nodes[t.dir].entries, t.name);
    var es := nodes[t.dir].entries;
    forall k | 0 <= k < |es| && es[k].inum != 0 && es[k].name == t.name
      ensures k == Find(es, t.name) && Leads(nodes, es[k].inum)
    {
      assert Matches(es[k], t.name);
      EntryLeads(nodes, t.dir, k);
    }
  }

  /** After a successful create the path leads to the inode, which is of the kind asked for; every path that led
      somewhere leads there still. A new directory has itself for "." and its parent for "..". */
  lemma CreatedPath(nodes: seq<Node>, cwd: nat, path: string, kind: Kind, nodes': seq<Node>, i: nat)
    requires LinkInv(nodes) && IsDir(nodes, cwd) && kind != Free
    requires CreateEffect(nodes, NameiParent(nodes, cwd, path), kind, nodes', Done, i)
    ensures i < |nodes| == |nodes'| && Namei(nodes', cwd, path) == At(i) && nodes'[i].kind == kind
    ensures forall c: nat, p: string :: Namei(nodes, c, p).At? ==> Namei(nodes', c, p) == Namei(nodes, c, p)
    ensures kind == Dir ==>
              Walk(nodes', i, ["."]) == At(i)
                  && Walk(nodes', i, [".."]) == At(NameiParent(nodes, cwd, path).value.dir)
  {
    hide LinkInv, Walk, WalkParent, Elements, Find, FirstFree, Created, FirstEmpty;
    var s, names := StartOf(cwd, path), Elements(path);
    var t := NameiParent(nodes, cwd, path).value;
    WalkInUse(nodes, s, names);
    var es := nodes[t.dir].entries;
    var k := Find(es, t.name);
    if k < |es| {
      SomeNames(nodes, s, names);
      WalkIsParentThenName(nodes, s, names);
      WalkStep(nodes, t.dir, t.name, []);
      assert [t.name] + [] == [t.name];
      NoNames(nodes, i);
    } else {
      CreatedAdds(nodes, t.dir, t.name, i, kind);
      AddedLeads(nodes, nodes', t.dir, FirstEmpty(es, 0), t.name, i, s, names);
      CreatedOther(nodes, t.dir, t.name, i, kind);
      forall c: nat, p: string | Namei(nodes, c, p).At?
        ensures Namei(nodes', c, p) == Namei(nodes, c, p)
      {
        AddedKeeps(nodes, nodes', t.dir, FirstEmpty(es, 0), t.name, i, StartOf(c, p), Elements(p));
      }
      if kind == Dir { NewDots(nodes, t.dir, t.name, i); }
    }
  }

  lemma SomeNames(nodes: seq<Node>, s: nat, names: seq<Name>)
    requires WalkParent(nodes, s, names).At?
    ensures names != []
  {
  }

  lemma NewDots(nodes: seq<Node>, dp: nat, name: Name, i: nat)
    requires IsDir(nodes, dp) && 0 < i < |nodes| && i != dp
    ensures var nodes' := Created(nodes, dp, name, i, Dir);
            Walk(nodes', i, ["."]) == At(i) && Walk(nodes', i, [".."]) == At(dp)
  {
    hide FirstEmpty, Find;
    var nodes' := Created(nodes, dp, name, i, Dir);
    var es := nodes'[i].entries;
    assert es == [Dirent(i, "."), Dirent(dp, "..")];
    assert Matches(es[0], ".") && !Matches(es[0], "..") && Matches(es[1], "..");
    assert Find(es, ".") == 0 && Find(es, "..") == 1;
    assert ["."][1..] == [] && [".."][1..] == [];
  }

  // -------------------------------------------------------------------- link

  /** When link succeeds: exactly when the first path leads to something other than a directory, the second to a
      directory, and no entry in use of that has the name. */
  lemma LinkIff(nodes: seq<Node>, source: Reach<nat>, target: Reach<Target>, nodes': seq<Node>, r: Outcome)
    requires LinkInv(nodes) && LinkEffect(nodes, source, target, nodes', r)
    requires (source.At? ==> InUse(nodes, source.value)) && (target.At? ==> IsDir(nodes, target.value.dir))
    ensures r == Done <==>
            && source.At? && nodes[source.value].kind != Dir && target.At?
            && var es := nodes[target.value.dir].entries;
               forall k :: 0 <= k < |es| && es[k].inum != 0 ==> es[k].name != target.value.name
    ensures r == Failed ==> nodes' == nodes
  {
    hide LinkInv, Find, FirstEmpty;
    if target.At? {
      var es := nodes[target.value.dir].entries;
      assert forall k :: 0 <= k < |es| ==>
          (Matches(es[k], target.value.name) <==> es[k].inum != 0 && es[k].name == target.value.name);
    }
  }

  /** After a successful link both paths lead to the inode, which has one more link; every path that led somewhere leads
      there still. */
  lemma LinkedPath(nodes: seq<Node>, cwd: nat, oldPath: string, newPath: string, nodes': seq<Node>)
    requires LinkInv(nodes) && IsDir(nodes, cwd)
    requires LinkEffect(nodes, Namei(nodes, cwd, oldPath), NameiParent(nodes, cwd, newPath), nodes', Done)
    ensures var i := Namei(nodes, cwd, oldPath);
            && i.At? && i.value < |nodes| == |nodes'| && !Namei(nodes, cwd, newPath).At?
            && Namei(nodes', cwd, newPath) == Namei(nodes', cwd, oldPath) == i
            && nodes'[i.value] == nodes[i.value].(nlink := nodes[i.value].nlink + 1)
    ensures forall c: nat, p: string :: Namei(nodes, c, p).At? ==> Namei(nodes', c, p) == Namei(nodes, c, p)
  {
    hide LinkInv, Walk, WalkParent, Elements, Find, FirstEmpty;
    var s, names := StartOf(cwd, newPath), Elements(newPath);
    var i, t := Namei(nodes, cwd, oldPath).value, NameiParent(nodes, cwd, newPath).value;
    WalkInUse(nodes, s, names);
    WalkInUse(nodes, StartOf(cwd, oldPath), Elements(oldPath));
    var k := FirstEmpty(nodes[t.dir].entries, 0);
    InvWell(nodes, i);
    LinkAdds(nodes, t.dir, t.name, i);
    AddedLeads(nodes, nodes', t.dir, k, t.name, i, s, names);
    SomeNames(nodes, s, names);
    WalkIsParentThenName(nodes, s, names);
    WalkStep(nodes, t.dir, t.name, []);
    assert [t.name] + [] == [t.name];
    forall c: nat, p: string | Namei(nodes, c, p).At?
      ensures Namei(nodes', c, p) == Namei(nodes, c, p)
    {
      AddedKeeps(nodes, nodes', t.dir, k, t.name, i, StartOf(c, p), Elements(p));
    }
  }

  lemma LinkAdds(nodes: seq<Node>, dp: nat, name: Name, i: nat)
    requires IsDir(nodes, dp) && InUse(nodes, i) && nodes[i].kind != Dir && nodes[i].entries == []
    requires Find(nodes[dp].entries, name) == |nodes[dp].entries|
    ensures var k := FirstEmpty(nodes[dp].entries, 0);
            Adds(nodes, AddName(nodes, dp, k, name, i, nodes[i].kind), dp, k, name, i)
  {
    hide Find, FirstEmpty;
  }
}

/** Path names: how a path splits into elements, and what walking them reaches. */
module Paths {
  import opened LinkCount

  // ---------------------------------------------------------------- elements

  /** What fits in a directory entry. */
  function Trunc(e: string): Name {
    if |e| >= DIRSIZ then e[..DIRSIZ] else e
  }

  /** Length of the run of slashes, or of other characters, at the front. */
  function Run(p: string, slash: bool): (n: nat)
    ensures n <= |p|
    ensures forall k :: 0 <= k < n ==> (p[k] == '/') == slash
    ensures n < |p| ==> (p[n] == '/') != slash
  {
    if p == "" || (p[0] == '/') != slash then 0 else 1 + Run(p[1..], slash)
  }

  /** The names in a path: its maximal runs of characters other than '/', cut to DIRSIZ. */
  function Elements(p: string): seq<Name>
    decreases |p|
  {
    if p == "" then []
    else if p[0] == '/' then Elements(p[1..])
    else [Trunc(p[..Run(p, false)])] + Elements(p[Run(p, false)..])
  }

  /** A name that a path can spell exactly. */
  predicate Spelled(e: Name) {
    0 < |e| <= DIRSIZ && '/' !in e
  }

  function Join(es: seq<Name>): string {
    if es == [] then "" else "/" + es[0] + Join(es[1..])
  }

  lemma {:induction false} RunOf(e: string, rest: string)
    requires '/' !in e && (rest == "" || rest[0] == '/')
    ensures Run(e + rest, false) == |e|
  {
    if e == "" {
      assert e + rest == rest;
    } else {
      assert (e + rest)[1..] == e[1..] + rest;
      RunOf(e[1..], rest);
    }
  }

  lemma ElementsStep(e: Name, rest: string)
    requires Spelled(e) && (rest == "" || rest[0] == '/')
    ensures Elements("/" + e + rest) == [e] + Elements(rest)
  {
    var p := e + rest;
    assert ("/" + e + rest)[1..] == p;
    RunOf(e, rest);
    assert p[..|e|] == e && p[|e|..] == rest && p[0] == e[0];
    assert Trunc(e) == e;
  }

  /** Every list of names is the reading of some path. */
  lemma {:induction false} ElementsOfJoin(es: seq<Name>)
    requires forall e :: e in es ==> Spelled(e)
    ensures Elements(Join(es)) == es
  {
    if es != [] {
      assert Spelled(es[0]);
      ElementsOfJoin(es[1..]);
      ElementsStep(es[0], Join(es[1..]));
    }
  }

  /** Where no slash follows, no element is left exactly at the end. */
  lemma NothingLeft(path: string, pos: nat)
    requires pos <= |path| && (pos < |path| ==> path[pos] != '/')
    ensures Elements(path[pos..]) == [] <==> pos == |path|
  {
    hide Run, Trunc;
  }

  /** One slash is skipped. */
  lemma SlashHere(path: string, pos: nat)
    requires pos < |path| && path[pos] == '/'
    ensures Elements(path[pos..]) == Elements(path[pos + 1..])
  {
    assert path[pos..][1..] == path[pos + 1..];
  }

  lemma {:induction false} RunAt(p: string, n: nat)
    requires n <= |p| && (forall k :: 0 <= k < n ==> p[k] != '/') && (n < |p| ==> p[n] == '/')
    ensures Run(p, false) == n
  {
    if n > 0 { RunAt(p[1..], n - 1); }
  }

  /** One element is read: all up to the next slash, but at most DIRSIZ characters. */
  lemma ElementHere(path: string, s: nat, e: nat)
    requires s < e <= |path| && (forall k :: s <= k < e ==> path[k] != '/') && (e < |path| ==> path[e] == '/')
    ensures var end := if e - s > DIRSIZ then s + DIRSIZ else e;
            Elements(path[s..]) == [path[s..end]] + Elements(path[e..])
  {
    hide Run;
    var p := path[s..];
    RunAt(p, e - s);
    assert p[..e - s] == path[s..e] && p[e - s..] == path[e..];
    var end := if e - s > DIRSIZ then s + DIRSIZ else e;
    assert Trunc(path[s..e]) == path[s..end];
  }

  // ----------------------------------------------------------------- lookup

  predicate Matches(e: Dirent, name: Name) {
    e.inum != 0 && e.name == name
  }

  /** First slot from k on whose entry is in use and has this name; the number of slots if there is none. */
  function FindFrom(es: seq<Dirent>, name: Name, k: nat): (r: nat)
    requires k <= |es|
    ensures k <= r <= |es|
    ensures r < |es| ==> Matches(es[r], name)
    ensures forall j :: k <= j < r ==> !Matches(es[j], name)
    decreases |es| - k
  {
    if k == |es| || Matches(es[k], name) then k else FindFrom(es, name, k + 1)
  }

  function Find(es: seq<Dirent>, name: Name): (r: nat)
    ensures r <= |es|
    ensures r < |es| ==> Matches(es[r], name)
    ensures forall j :: 0 <= j < r ==> !Matches(es[j], name)
  {
    FindFrom(es, name, 0)
  }

  /** Where a walk ends: nowhere, at something, or at an inode that is free, which panics when it is next locked. */
  datatype Reach<T> = Nothing | NoType | At(value: T)

  predicate InUse(nodes: seq<Node>, i: nat) {
    0 < i < |nodes| && nodes[i].kind != Free
  }

  predicate IsDir(nodes: seq<Node>, i: nat) {
    0 < i < |nodes| && nodes[i].kind == Dir
  }

  /** The inode that the names lead to from inode i. */
  function Walk(nodes: seq<Node>, i: nat, names: seq<Name>): Reach<nat>
    decreases |names|
  {
    if !InUse(nodes, i) then NoType
    else if names == [] then At(i)
    else if nodes[i].kind != Dir then Nothing
    else
      var k := Find(nodes[i].entries, names[0]);
      if k == |nodes[i].entries| then Nothing else Walk(nodes, nodes[i].entries[k].inum, names[1..])
  }

  datatype Target = Target(dir: nat, name: Name)

  /** The directory that should hold the last name, and that name. */
  function WalkParent(nodes: seq<Node>, i: nat, names: seq<Name>): Reach<Target>
    decreases |names|
  {
    if names == [] then Nothing
    else if !InUse(nodes, i) then NoType
    else if nodes[i].kind != Dir then Nothing
    else if |names| == 1 then At(Target(i, names[0]))
    else
      var k := Find(nodes[i].entries, names[0]);
      if k == |nodes[i].entries| then Nothing else WalkParent(nodes, nodes[i].entries[k].inum, names[1..])
  }

  function StartOf(cwd: nat, path: string): nat {
    if path != "" && path[0] == '/' then ROOT else cwd
  }

  function Namei(nodes: seq<Node>, cwd: nat, path: string): Reach<nat> {
    Walk(nodes, StartOf(cwd, path), Elements(path))
  }

  function NameiParent(nodes: seq<Node>, cwd: nat, path: string): Reach<Target> {
    WalkParent(nodes, StartOf(cwd, path), Elements(path))
  }

  /** A path that starts with a slash leads to the same place whatever the current directory is, namely where its
      names lead from the root; every other path starts at the current directory. */
  lemma PathStarts(nodes: seq<Node>, cwd: nat, other: nat, path: string)
    ensures path != "" && path[0] == '/' ==>
              && Namei(nodes, cwd, path) == Namei(nodes, other, path) == Walk(nodes, ROOT, Elements(path))
              && NameiParent(nodes, cwd, path) == NameiParent(nodes, other, path)
                   == WalkParent(nodes, ROOT, Elements(path))
    ensures path == "" || path[0] != '/' ==>
              && Namei(nodes, cwd, path) == Walk(nodes, cwd, Elements(path))
              && NameiParent(nodes, cwd, path) == WalkParent(nodes, cwd, Elements(path))
  {
  }

  /** Looking the last name up in the parent gives the whole walk. */
  lemma {:induction false} WalkIsParentThenName(nodes: seq<Node>, i: nat, names: seq<Name>)
    requires names != []
    ensures Walk(nodes, i, names) ==
            match WalkParent(nodes, i, names)
            case Nothing => Nothing
            case NoType => NoType
            case At(t) => Walk(nodes, t.dir, [t.name])
    decreases |names|
  {
    if IsDir(nodes, i) {
      if |names| == 1 {
        assert names == [names[0]];
      } else {
        var k := Find(nodes[i].entries, names[0]);
        if k < |nodes[i].entries| { WalkIsParentThenName(nodes, nodes[i].entries[k].inum, names[1..]); }
      }
    }
  }

  /** What one name of a walk does. */
  lemma WalkStep(nodes: seq<Node>, i: nat, name: Name, rest: seq<Name>)
    requires InUse(nodes, i)
    ensures var es := nodes[i].entries;
            var k := Find(es, name);
            && (nodes[i].kind != Dir ==>
                  Walk(nodes, i, [name] + rest) == Nothing && WalkParent(nodes, i, [name] + rest) == Nothing)
            && (nodes[i].kind == Dir && rest == [] ==> WalkParent(nodes, i, [name] + rest) == At(Target(i, name)))
            && (nodes[i].kind == Dir && k == |es| ==>
                  Walk(nodes, i, [name] + rest) == Nothing
                      && (rest != [] ==> WalkParent(nodes, i, [name] + rest) == Nothing))
            && (nodes[i].kind == Dir && k < |es| ==>
                  && Walk(nodes, i, [name] + rest) == Walk(nodes, es[k].inum, rest)
                  && (rest != [] ==> WalkParent(nodes, i, [name] + rest) == WalkParent(nodes, es[k].inum, rest)))
  {
    hide Find;
    assert ([name] + rest)[1..] == rest && ([name] + rest)[0] == name;
  }

  lemma NoNames(nodes: seq<Node>, i: nat)
    requires InUse(nodes, i)
    ensures Walk(nodes, i, []) == At(i) && WalkParent(nodes, i, []) == Nothing
  {
  }

  lemma WalkFree(nodes: seq<Node>, i: nat, names: seq<Name>)
    requires !InUse(nodes, i)
    ensures Walk(nodes, i, names) == NoType && (names != [] ==> WalkParent(nodes, i, names) == NoType)
  {
  }

  /** Wherever a walk ends is in use, and a parent is a directory. */
  lemma {:induction false} WalkInUse(nodes: seq<Node>, i: nat, names: seq<Name>)
    ensures var w := Walk(nodes, i, names); w.At? ==> InUse(nodes, w.value)
    ensures var t := WalkParent(nodes, i, names); t.At? ==> IsDir(nodes, t.value.dir)
    decreases |names|
  {
    if names != [] && IsDir(nodes, i) {
      var k := Find(nodes[i].entries, names[0]);
      if k < |nodes[i].entries| { WalkInUse(nodes, nodes[i].entries[k].inum, names[1..]); }
    }
  }

  // ------------------------------------------------------------ what is safe

  /** Every entry of a linked directory names an inode that is in use and has a link. */
  ghost predicate Closed(nodes: seq<Node>) {
    forall d: nat, k: nat :: Linked(nodes, d) && k < |nodes[d].entries| ==> Leads(nodes, nodes[d].entries[k].inum)
  }

  predicate Leads(nodes: seq<Node>, i: nat) {
    i != 0 ==> i < |nodes| && nodes[i].kind != Free && nodes[i].nlink > 0
  }

  lemma EntryLeads(nodes: seq<Node>, d: nat, k: nat)
    requires LinkInv(nodes) && Linked(nodes, d) && k < |nodes[d].entries|
    ensures Leads(nodes, nodes[d].entries[k].inum)
  {
    hide LinkInv, UniqueNames, Counted;
    InvWell(nodes, d);
    InvAttached(nodes, d);
    if k >= 2 && nodes[d].entries[k].inum != 0 {
      InvEntry(nodes, d, k);
      NamedIsLinked(nodes, d, k);
    }
  }

  lemma InvClosed(nodes: seq<Node>)
    requires LinkInv(nodes)
    ensures Closed(nodes)
  {
    hide LinkInv, Leads;
    forall d: nat, k: nat | Linked(nodes, d) && k < |nodes[d].entries|
      ensures Leads(nodes, nodes[d].entries[k].inum)
    {
      EntryLeads(nodes, d, k);
    }
  }

  /** From a linked directory no walk meets a free inode, every walk ends at an inode with a link, and every parent is
      linked. */
  lemma {:induction false} WalkLeads(nodes: seq<Node>, i: nat, names: seq<Name>)
    requires Closed(nodes) && i != 0 && Leads(nodes, i)
    ensures var w := Walk(nodes, i, names); w != NoType && (w.At? ==> w.value != 0 && Leads(nodes, w.value))
    ensures var t := WalkParent(nodes, i, names); t != NoType && (t.At? ==> Linked(nodes, t.value.dir))
    decreases |names|
  {
    if names != [] && nodes[i].kind == Dir {
      var k := Find(nodes[i].entries, names[0]);
      if k < |nodes[i].entries| {
        assert Linked(nodes, i);
        assert Matches(nodes[i].entries[k], names[0]) && Leads(nodes, nodes[i].entries[k].inum);
        WalkLeads(nodes, nodes[i].entries[k].inum, names[1..]);
      }
    }
  }

  lemma ParentLinked(nodes: seq<Node>, cwd: nat, path: string)
    requires LinkInv(nodes) && Linked(nodes, cwd)
    ensures var t := NameiParent(nodes, cwd, path); t != NoType && (t.At? ==> Linked(nodes, t.value.dir))
    ensures var i := Namei(nodes, cwd, path); i != NoType && (i.At? ==> 0 < i.value < |nodes| && Leads(nodes, i.value))
  {
    hide LinkInv, Elements, Walk, WalkParent;
    InvWell(nodes, 0);
    InvClosed(nodes);
    WalkLeads(nodes, StartOf(cwd, path), Elements(path));
  }

  /** Which names a directory finds itself under: ".", and ".." in the root. */
  lemma FindsItself(nodes: seq<Node>, d: nat, name: Name)
    requires LinkInv(nodes) && IsDir(nodes, d)
    ensures var es := nodes[d].entries;
            var k := Find(es, name);
            (k < |es| && es[k].inum == d) <==> name == "." || (name == ".." && d == ROOT)
  {
    hide LinkInv, Refs, Find;
    var es := nodes[d].entries;
    var k := Find(es, name);
    InvWell(nodes, d);
    if d == ROOT { InvAttached(nodes, d); }
    FindUnique(es, name);
    if 2 <= k < |es| && Linked(nodes, d) {
      InvEntry(nodes, d, k);
      OrdinaryName(nodes, d, k);
    }
  }

  lemma NotItself(nodes: seq<Node>, d: nat, name: Name)
    requires LinkInv(nodes) && IsDir(nodes, d) && name != "." && name != ".."
    requires Find(nodes[d].entries, name) < |nodes[d].entries|
    ensures nodes[d].entries[Find(nodes[d].entries, name)].inum != d
  {
    hide LinkInv, Find;
    FindsItself(nodes, d, name);
  }

  lemma FindUnique(es: seq<Dirent>, name: Name)
    requires UniqueNames(es)
    ensures forall j :: 0 <= j < |es| && Matches(es[j], name) ==> Find(es, name) == j
  {
    hide Find;
    var k := Find(es, name);
    forall j | 0 <= j < |es| && Matches(es[j], name)
      ensures k == j
    {
      assert j >= k && es[k].name == es[j].name;
    }
  }

  /** A directory that is not linked has only its own two names, so no other is found in it. */
  lemma UnlinkedFinds(nodes: seq<Node>, d: nat, name: Name)
    requires LinkInv(nodes) && IsDir(nodes, d) && !Linked(nodes, d) && name != "." && name != ".."
    ensures Find(nodes[d].entries, name) == |nodes[d].entries|
  {
    hide LinkInv, Refs, Find, UniqueNames;
    InvWell(nodes, d);
  }

  // ------------------------------------- exactly when a walk meets a free inode

  /** From d the names climb by "." and ".." through directories that are not linked any more, until one has a free
      inode for its "..". */
  predicate ClimbsToFree(nodes: seq<Node>, d: nat, names: seq<Name>)
    decreases |names|
  {
    && names != [] && IsDir(nodes, d) && !Linked(nodes, d)
    && if names[0] == "." then ClimbsToFree(nodes, d, names[1..])
       else
         && names[0] == ".."
         && (!InUse(nodes, Parent(nodes, d)) || ClimbsToFree(nodes, Parent(nodes, d), names[1..]))
  }

  /** What a directory that is not linked finds: itself, its old parent, and nothing else. */
  lemma UnlinkedStep(nodes: seq<Node>, d: nat, name: Name)
    requires LinkInv(nodes) && IsDir(nodes, d) && !Linked(nodes, d)
    ensures var es := nodes[d].entries;
            var k := Find(es, name);
            && (name == "." ==> k < |es| && es[k].inum == d)
            && (name == ".." ==> k < |es| && es[k].inum == Parent(nodes, d))
            && (name != "." && name != ".." ==> k == |es|)
  {
    hide LinkInv, Refs, Find;
    InvWell(nodes, d);
    FindUnique(nodes[d].entries, name);
    if name != "." && name != ".." { UnlinkedFinds(nodes, d, name); }
  }

  lemma {:induction false} WalkPanicsIff(nodes: seq<Node>, i: nat, names: seq<Name>)
    requires LinkInv(nodes) && InUse(nodes, i)
    ensures Walk(nodes, i, names) == NoType <==> ClimbsToFree(nodes, i, names)
    decreases |names|
  {
    hide LinkInv, Find, Parent;
    if nodes[i].nlink > 0 {
      InvClosed(nodes);
      WalkLeads(nodes, i, names);
    } else if names != [] && nodes[i].kind == Dir {
      UnlinkedStep(nodes, i, names[0]);
      var k := Find(nodes[i].entries, names[0]);
      if k < |nodes[i].entries| && InUse(nodes, nodes[i].entries[k].inum) {
        WalkPanicsIff(nodes, nodes[i].entries[k].inum, names[1..]);
      }
    }
  }

  /** A parent walk meets a free inode exactly when the walk over all names but the last does. */
  lemma {:induction false} ParentPanics(nodes: seq<Node>, i: nat, names: seq<Name>)
    requires names != [] && InUse(nodes, i)
    ensures WalkParent(nodes, i, names) == NoType <==> Walk(nodes, i, names[..|names| - 1]) == NoType
    decreases |names|
  {
    hide Find;
    if |names| > 1 && nodes[i].kind == Dir {
      var k := Find(nodes[i].entries, names[0]);
      var front := names[..|names| - 1];
      assert front[0] == names[0] && front[1..] == names[1..][..|names[1..]| - 1];
      if k < |nodes[i].entries| && InUse(nodes, nodes[i].entries[k].inum) {
        ParentPanics(nodes, nodes[i].entries[k].inum, names[1..]);
      }
    }
  }

  /** The names of a path that nameiparent walks. */
  function Front(names: seq<Name>): seq<Name> {
    if names == [] then [] else names[..|names| - 1]
  }

  /** Resolving a path ends in the "no type" panic exactly when it climbs to a free inode: a path that starts with a
      slash never does, nor does any with a linked current directory. */
  lemma PathPanicsIff(nodes: seq<Node>, cwd: nat, path: string)
    requires LinkInv(nodes) && IsDir(nodes, cwd)
    ensures Namei(nodes, cwd, path) == NoType <==> ClimbsToFree(nodes, StartOf(cwd, path), Elements(path))
    ensures NameiParent(nodes, cwd, path) == NoType <==> ClimbsToFree(nodes, StartOf(cwd, path), Front(Elements(path)))
    ensures (path != "" && path[0] == '/') || Linked(nodes, cwd) ==>
              Namei(nodes, cwd, path) != NoType && NameiParent(nodes, cwd, path) != NoType
  {
    hide LinkInv, Elements, Walk, WalkParent;
    var i, names := StartOf(cwd, path), Elements(path);
    InvRoot(nodes);
    WalkPanicsIff(nodes, i, names);
    WalkPanicsIff(nodes, i, Front(names));
    if names == [] { NoNames(nodes, i); } else { ParentPanics(nodes, i, names); }
  }

  // ------------------------------------------------------------ what is sound

  predicate SoundNode(nodes: seq<Node>, d: nat)
    requires d < |nodes|
  {
    && (d > 0 ==> nodes[d].nlink >= 0)
    && forall k :: 0 <= k < |nodes[d].entries| ==> nodes[d].entries[k].inum < |nodes|
  }

  /** Entries name inodes that exist, though they may be free, and no count is negative. */
  ghost predicate Sound(nodes: seq<Node>) {
    && Linked(nodes, ROOT) && nodes[0].kind == Free
    && forall d: nat :: d < |nodes| ==> SoundNode(nodes, d)
  }

  lemma InvRoot(nodes: seq<Node>)
    requires LinkInv(nodes)
    ensures Linked(nodes, ROOT) && nodes[0].kind == Free
  {
  }

  lemma InvSound(nodes: seq<Node>)
    requires LinkInv(nodes)
    ensures Sound(nodes)
  {
    hide LinkInv, Refs, UniqueNames;
    InvRoot(nodes);
    forall d: nat | d < |nodes|
      ensures SoundNode(nodes, d)
    {
      InvWell(nodes, d);
      if d > 0 { InvCounted(nodes, d); }
      forall k | 0 <= k < |nodes[d].entries|
        ensures nodes[d].entries[k].inum < |nodes|
      {
        if k >= 2 && Linked(nodes, d) { InvEntry(nodes, d, k); }
      }
    }
  }
}

/** Inode references, directory entries, and the calls that create, link and unlink names. */
module Directories {
  import opened Basics
  import opened LinkCount
  import opened Paths

  /** How a call ends: it succeeds, it returns -1, or it never returns, because it waits for a lock it holds itself or
      because it panics: for want of a free inode, or on locking a free one. */
  datatype Outcome = Done | Failed | Stuck | NoInodes | Untyped

  /** Giving back one reference to i leaves the inode in use. */
  predicate Spare(nodes: seq<Node>, ref: seq<nat>, i: nat) {
    i < |nodes| == |ref| && ref[i] > 0 && (nodes[i].nlink <= 0 ==> ref[i] >= 2)
  }

  lemma BumpSpare(nodes: seq<Node>, ref: seq<nat>, valid: seq<bool>, i: nat)
    requires CacheInv(nodes, ref, valid) && InUse(nodes, i)
    ensures Spare(nodes, Bump(ref, i), i)
  {
  }

  /** A free inode is not referenced; an inode in use without links is referenced and its copy in memory is valid,
      so that the last iput sees the zero count. */
  predicate Kept(node: Node, ref: nat, valid: bool) {
    && (node.kind == Free ==> ref == 0)
    && (node.kind != Free && node.nlink <= 0 ==> ref > 0 && valid)
  }

  ghost predicate CacheInv(nodes: seq<Node>, ref: seq<nat>, valid: seq<bool>) {
    && |ref| == |nodes| && |valid| == |nodes|
    && forall i: nat :: i < |nodes| ==> Kept(nodes[i], ref[i], valid[i])
  }

  function Bump(ref: seq<nat>, i: nat): (r: seq<nat>)
    requires i < |ref|
    ensures |r| == |ref| && r[i] > 0
  {
    ref[i := ref[i] + 1]
  }

  function Drop(ref: seq<nat>, i: nat): (r: seq<nat>)
    requires i < |ref| && ref[i] > 0
    ensures |r| == |ref|
  {
    ref[i := ref[i] - 1]
  }

  lemma DropBump(ref: seq<nat>, i: nat)
    requires i < |ref|
    ensures Drop(Bump(ref, i), i) == ref
  {
  }

  lemma BumpDrop(ref: seq<nat>, i: nat, c: nat)
    requires i < |ref| && c < |ref| && ref[i] > 0
    ensures Bump(ref, c)[i] > 0 && Drop(Bump(ref, c), i) == Bump(Drop(ref, i), c)
  {
  }

  /** With a reference to i held, one to c taken and both given back, in either order. */
  lemma SecondBack(ref: seq<nat>, i: nat, c: nat)
    requires i < |ref| && c < |ref| && ref[i] > 0
    ensures var r := Bump(ref, c);
            && |Drop(ref, i)| == |r| == |ref| && r[i] > 0 && r[c] > 0
            && |Drop(r, c)| == |ref| && Drop(r, c)[i] > 0 && Drop(Drop(r, c), i) == Drop(ref, i)
            && |Drop(r, i)| == |ref| && Drop(r, i)[c] > 0 && Drop(Drop(r, i), c) == Drop(ref, i)
  {
    DropBump(ref, c);
    BumpDrop(ref, i, c);
    DropBump(Drop(ref, i), c);
  }

  lemma ThirdBack(ref: seq<nat>, i: nat, c: nat)
    requires i < |ref| && c < |ref|
    ensures var r := Bump(Bump(ref, i), c);
            && |r| == |ref| && r[i] > 0 && r[c] > 0
            && |Drop(r, c)| == |ref| && Drop(r, c)[i] > 0 && Drop(Drop(r, c), i) == ref
  {
    DropBump(Bump(ref, i), c);
    DropBump(ref, i);
  }

  lemma CwdKept(ref: seq<nat>, i: nat, cwd: nat)
    requires i < |ref| && cwd < |ref| && ref[cwd] > 0
    ensures |Bump(ref, i)| == |ref| && Bump(ref, i)[cwd] > 0
  {
  }

  /** First free inode number from i on, or the number of inodes. */
  function FirstFree(nodes: seq<Node>, i: nat): (r: nat)
    requires i <= |nodes|
    ensures i <= r <= |nodes| && (r < |nodes| ==> nodes[r].kind == Free)
    ensures forall j :: i <= j < r ==> nodes[j].kind != Free
    decreases |nodes| - i
  {
    if i == |nodes| || nodes[i].kind == Free then i else FirstFree(nodes, i + 1)
  }

  /** First empty slot from k on, or the slot past the end. */
  function FirstEmpty(es: seq<Dirent>, k: nat): (r: nat)
    requires k <= |es|
    ensures k <= r <= |es| && (r < |es| ==> es[r].inum == 0)
    ensures forall j :: k <= j < r ==> es[j].inum != 0
    decreases |es| - k
  {
    if k == |es| || es[k].inum == 0 then k else FirstEmpty(es, k + 1)
  }

  // ------------------------------------------------ what the calls come to

  /** The slot that unlink erases, if it erases one. */
  function UnlinkSlot(nodes: seq<Node>, t: Target): Option<nat>
    requires t.dir < |nodes|
  {
    var es := nodes[t.dir].entries;
    var k := Find(es, t.name);
    if t.name == "." || t.name == ".." || k == |es| then None
    else if es[k].inum < |nodes| && nodes[es[k].inum].kind == Dir
        && !NoOrdinaryEntries(nodes[es[k].inum].entries) then None
    else Some(k)
  }

  /** The name at slot k of dp is gone. If no link is left and nothing refers to the inode, so is the inode. */
  function Unlinked(nodes: seq<Node>, ref: seq<nat>, dp: nat, k: nat): seq<Node>
    requires dp < |nodes| && k < |nodes[dp].entries| && |ref| == |nodes|
    requires var i := nodes[dp].entries[k].inum; i < |nodes| && i != dp
  {
    var i := nodes[dp].entries[k].inum;
    var after := if nodes[i].kind == Dir then DropDir(nodes, dp, k) else DropName(nodes, dp, k);
    if after[i].nlink == 0 && ref[i] == 0 then FreeNode(after, i) else after
  }

  /** What unlink does, given where its path leads. */
  ghost predicate UnlinkEffect(nodes: seq<Node>, ref: seq<nat>, target: Reach<Target>, nodes': seq<Node>, r: Outcome) {
    match target
    case Nothing => r == Failed && nodes' == nodes
    case NoType => r == Untyped
    case At(t) =>
      t.dir < |nodes| == |ref| &&
      match UnlinkSlot(nodes, t)
      case None => r == Failed && nodes' == nodes
      case Some(k) =>
        && k < |nodes[t.dir].entries|
        && (var i := nodes[t.dir].entries[k].inum; i < |nodes| && i != t.dir)
        && r == Done && nodes' == Unlinked(nodes, ref, t.dir, k)
  }

  /** A slot that unlink erases is an ordinary entry for another inode, which is empty if it is a directory. */
  lemma UnlinkSlotOrdinary(nodes: seq<Node>, t: Target)
    requires LinkInv(nodes) && Linked(nodes, t.dir) && UnlinkSlot(nodes, t).Some?
    ensures var k, es := UnlinkSlot(nodes, t).value, nodes[t.dir].entries;
            && 2 <= k < |es| && 0 < es[k].inum < |nodes| && es[k].inum != t.dir
            && nodes[es[k].inum].kind != Free && nodes[es[k].inum].nlink > 0
            && (nodes[es[k].inum].kind == Dir ==> NoOrdinaryEntries(nodes[es[k].inum].entries))
  {
    hide LinkInv, Refs, FindFrom, UniqueNames;
    var k, es := Find(nodes[t.dir].entries, t.name), nodes[t.dir].entries;
    InvWell(nodes, t.dir);
    EntryLeads(nodes, t.dir, k);
    InvEntry(nodes, t.dir, k);
  }

  lemma UnlinkedInv(nodes: seq<Node>, ref: seq<nat>, t: Target)
    requires LinkInv(nodes) && Linked(nodes, t.dir) && UnlinkSlot(nodes, t).Some? && |ref| == |nodes|
    ensures var k := UnlinkSlot(nodes, t).value;
            && k < |nodes[t.dir].entries|
            && (var i := nodes[t.dir].entries[k].inum; i < |nodes| && i != t.dir)
            && LinkInv(Unlinked(nodes, ref, t.dir, k))
  {
    hide LinkInv, UnlinkSlot, Refs;
    UnlinkSlotOrdinary(nodes, t);
    var k := UnlinkSlot(nodes, t).value;
    var i := nodes[t.dir].entries[k].inum;
    if nodes[i].kind == Dir { DropDirInv(nodes, t.dir, k); } else { DropNameInv(nodes, t.dir, k); }
    var after := if nodes[i].kind == Dir then DropDir(nodes, t.dir, k) else DropName(nodes, t.dir, k);
    if after[i].nlink == 0 { FreeNodeInv(after, i); }
  }

  /** What link does, given where its two paths lead. */
  ghost predicate LinkEffect(nodes: seq<Node>, source: Reach<nat>, target: Reach<Target>, nodes': seq<Node>,
                             r: Outcome) {
    if source == NoType then r == Untyped
    else if source == Nothing || source.value >= |nodes| || nodes[source.value].kind == Dir || target == Nothing then
      r == Failed && nodes' == nodes
    else if target == NoType then r == Untyped
    else
      var i, t := source.value, target.value;
      t.dir < |nodes| && t.dir != i &&
      var es := nodes[t.dir].entries;
      var k := Find(es, t.name);
      if k == |es| then
        r == Done && nodes' == AddName(nodes, t.dir, FirstEmpty(es, 0), t.name, i, nodes[i].kind)
      else if es[k].inum == t.dir then r == Stuck
      else r == Failed && nodes' == nodes
  }

  /** Where dirlink writes in a directory that lacks the name. */
  lemma SlotForName(nodes: seq<Node>, d: nat, name: Name)
    requires LinkInv(nodes) && IsDir(nodes, d) && Find(nodes[d].entries, name) == |nodes[d].entries|
    ensures Vacant(nodes[d].entries, FirstEmpty(nodes[d].entries, 0)) && Absent(nodes[d].entries, name)
  {
    hide LinkInv, UniqueNames, Find, FirstEmpty;
    InvWell(nodes, d);
    var es := nodes[d].entries;
    assert es[0].inum != 0 && es[1].inum != 0;
    assert forall j :: 0 <= j < |es| ==> !Matches(es[j], name);
  }

  /** Which entries a directory has does not matter to the inode cache. */
  lemma EntriesKept(nodes: seq<Node>, dp: nat, nodes': seq<Node>, ref: seq<nat>, valid: seq<bool>)
    requires CacheInv(nodes, ref, valid) && dp < |nodes|
    requires exists es :: nodes' == nodes[dp := nodes[dp].(entries := es)]
    ensures CacheInv(nodes', ref, valid)
  {
  }

  function OneMore(nodes: seq<Node>, i: nat): seq<Node>
    requires i < |nodes|
  {
    nodes[i := nodes[i].(nlink := nodes[i].nlink + 1)]
  }

  lemma OneMoreSound(nodes: seq<Node>, i: nat)
    requires Sound(nodes) && InUse(nodes, i)
    ensures Sound(OneMore(nodes, i))
  {
    var nodes' := OneMore(nodes, i);
    forall d: nat | d < |nodes'|
      ensures SoundNode(nodes', d)
    {
      assert SoundNode(nodes, d);
    }
  }

  function OneFewer(nodes: seq<Node>, i: nat): seq<Node>
    requires i < |nodes|
  {
    nodes[i := nodes[i].(nlink := nodes[i].nlink - 1)]
  }

  lemma OneMoreKept(nodes: seq<Node>, ref: seq<nat>, valid: seq<bool>, i: nat)
    requires CacheInv(nodes, ref, valid) && InUse(nodes, i)
    ensures CacheInv(OneMore(nodes, i), ref, valid) && OneFewer(OneMore(nodes, i), i) == nodes
  {
  }

  lemma {:induction false} OneMoreWalk(nodes: seq<Node>, i: nat, j: nat, names: seq<Name>)
    requires i < |nodes|
    ensures WalkParent(OneMore(nodes, i), j, names) == WalkParent(nodes, j, names)
    decreases |names|
  {
    hide Find;
    if |names| > 1 && InUse(nodes, j) {
      var k := Find(nodes[j].entries, names[0]);
      if k < |nodes[j].entries| { OneMoreWalk(nodes, i, nodes[j].entries[k].inum, names[1..]); }
    }
  }

  /** The inode i, new or old, after create gives it its name at dp. */
  function Created(nodes: seq<Node>, dp: nat, name: Name, i: nat, kind: Kind): seq<Node>
    requires dp < |nodes| && i < |nodes| && i != dp
  {
    var k := FirstEmpty(nodes[dp].entries, 0);
    if kind == Dir then AddDir(nodes, dp, k, name, i) else AddName(nodes, dp, k, name, i, kind)
  }

  /** What create does, given where its path leads: r is Done with inode i, which is the existing file or a new
      inode. */
  ghost predicate CreateEffect(nodes: seq<Node>, target: Reach<Target>, kind: Kind, nodes': seq<Node>, r: Outcome,
                               i: nat) {
    match target
    case Nothing => r == Failed && nodes' == nodes
    case NoType => r == Untyped
    case At(t) =>
      0 < t.dir < |nodes| &&
      var es := nodes[t.dir].entries;
      var k := Find(es, t.name);
      if k < |es| then
        if !InUse(nodes, es[k].inum) then r == Untyped
        else
          && nodes' == nodes
          && (if kind == File && nodes[es[k].inum].kind == File then r == Done && i == es[k].inum else r == Failed)
      else
        var f := FirstFree(nodes, 1);
        if f == |nodes| then r == NoInodes
        else f != t.dir && r == Done && i == f && nodes' == Created(nodes, t.dir, t.name, f, kind)
  }

  lemma CreatedInv(nodes: seq<Node>, dp: nat, name: Name, i: nat, kind: Kind)
    requires LinkInv(nodes) && Linked(nodes, dp) && Find(nodes[dp].entries, name) == |nodes[dp].entries|
    requires 0 < i < |nodes| && nodes[i].kind == Free && kind != Free
    ensures LinkInv(Created(nodes, dp, name, i, kind))
  {
    hide LinkInv, Find, FirstEmpty, Vacant, Absent;
    InvRoot(nodes);
    SlotForName(nodes, dp, name);
    var k := FirstEmpty(nodes[dp].entries, 0);
    if kind == Dir { AddDirInv(nodes, dp, k, name, i); } else { AddNameInv(nodes, dp, k, name, i, kind); }
  }

  lemma CreatedHas(nodes: seq<Node>, dp: nat, name: Name, i: nat, kind: Kind)
    requires LinkInv(nodes) && IsDir(nodes, dp) && 0 < i < |nodes| && nodes[i].kind == Free
    ensures var nodes' := Created(nodes, dp, name, i, kind);
            |nodes'| == |nodes| && nodes'[i].nlink == 1 && nodes'[dp].nlink >= nodes[dp].nlink >= 0
  {
    hide LinkInv, FirstEmpty, Refs;
    InvCounted(nodes, i);
    InvCounted(nodes, dp);
  }

  /** While a new inode i is being set up, entries still name inodes that exist. */
  lemma FreshSound(nodes: seq<Node>, i: nat, dp: nat, node: Node, extra: nat)
    requires Sound(nodes) && 0 < i < |nodes| && 0 < dp < |nodes| && i != dp && nodes[i].kind == Free
    requires node.kind != Free && node.nlink > 0
    requires forall k :: 0 <= k < |node.entries| ==> node.entries[k].inum < |nodes|
    ensures Sound(nodes[i := node][dp := nodes[dp].(nlink := nodes[dp].nlink + extra)])
  {
    var nodes' := nodes[i := node][dp := nodes[dp].(nlink := nodes[dp].nlink + extra)];
    forall d: nat | d < |nodes'|
      ensures SoundNode(nodes', d)
    {
      assert SoundNode(nodes, d);
    }
  }

  /** Link never returns exactly when it is asked to add "." to a directory, or ".." to the root. */
  lemma LinkStuckIff(nodes: seq<Node>, cwd: nat, oldPath: string, newPath: string, nodes': seq<Node>, r: Outcome)
    requires LinkInv(nodes) && IsDir(nodes, cwd)
    requires LinkEffect(nodes, Namei(nodes, cwd, oldPath), NameiParent(nodes, cwd, newPath), nodes', r)
    ensures var i, t := Namei(nodes, cwd, oldPath), NameiParent(nodes, cwd, newPath);
            r == Stuck <==>
            && i.At? && i.value < |nodes| && nodes[i.value].kind != Dir
            && t.At? && (t.value.name == "." || (t.value.name == ".." && t.value.dir == ROOT))
  {
    hide LinkInv, Namei, Walk, WalkParent, Elements, Find, FirstEmpty;
    WalkInUse(nodes, StartOf(cwd, newPath), Elements(newPath));
    var t := NameiParent(nodes, cwd, newPath);
    if t.At? { FindsItself(nodes, t.value.dir, t.value.name); }
  }

  /** Adding a name keeps the invariant exactly when the directory is still linked: in one that is not, the name does
      not count. */
  lemma LinkKeepsIff(nodes: seq<Node>, dp: nat, name: Name, i: nat)
    requires LinkInv(nodes) && IsDir(nodes, dp) && Find(nodes[dp].entries, name) == |nodes[dp].entries|
    requires InUse(nodes, i) && nodes[i].kind != Dir
    ensures LinkInv(AddName(nodes, dp, FirstEmpty(nodes[dp].entries, 0), name, i, nodes[i].kind)) <==> Linked(nodes, dp)
  {
    hide LinkInv, Refs, Find, FirstEmpty, UniqueNames;
    SlotForName(nodes, dp, name);
    var k := FirstEmpty(nodes[dp].entries, 0);
    if Linked(nodes, dp) {
      AddNameInv(nodes, dp, k, name, i, nodes[i].kind);
    } else {
      var nodes' := AddName(nodes, dp, k, name, i, nodes[i].kind);
      assert nodes'[dp].entries[k].inum == i;
      if LinkInv(nodes') { InvWell(nodes', dp); }
    }
  }

  /** Create meets a free inode exactly when the whole path climbs to one. */
  lemma CreateUntypedIff(nodes: seq<Node>, cwd: nat, path: string, kind: Kind, nodes': seq<Node>, r: Outcome, i: nat)
    requires LinkInv(nodes) && IsDir(nodes, cwd)
    requires CreateEffect(nodes, NameiParent(nodes, cwd, path), kind, nodes', r, i)
    ensures r == Untyped <==> ClimbsToFree(nodes, StartOf(cwd, path), Elements(path))
  {
    hide LinkInv, Elements, Walk, WalkParent, Find, FirstFree, Created, ClimbsToFree;
    InvRoot(nodes);
    PathPanicsIff(nodes, cwd, path);
    var start, names := StartOf(cwd, path), Elements(path);
    if names == [] {
      NoNames(nodes, start);
    } else {
      WalkIsParentThenName(nodes, start, names);
      WalkInUse(nodes, start, names);
      var t := WalkParent(nodes, start, names);
      if t.At? {
        WalkStep(nodes, t.value.dir, t.value.name, []);
        assert [t.value.name] + [] == [t.value.name];
        var es := nodes[t.value.dir].entries;
        var k := Find(es, t.value.name);
        if k < |es| {
          if InUse(nodes, es[k].inum) { NoNames(nodes, es[k].inum); } else { WalkFree(nodes, es[k].inum, []); }
        }
      }
    }
  }

  /** Unlink does exactly when the path to the directory does, and link when its first path does or, for a file that it
      may link, the second one's directory. */
  lemma UnlinkUntypedIff(nodes: seq<Node>, ref: seq<nat>, cwd: nat, path: string, nodes': seq<Node>, r: Outcome)
    requires LinkInv(nodes) && IsDir(nodes, cwd)
    requires UnlinkEffect(nodes, ref, NameiParent(nodes, cwd, path), nodes', r)
    ensures r == Untyped <==> ClimbsToFree(nodes, StartOf(cwd, path), Front(Elements(path)))
  {
    hide LinkInv, Elements, Walk, WalkParent, ClimbsToFree, UnlinkSlot, Unlinked;
    PathPanicsIff(nodes, cwd, path);
  }

  lemma LinkUntypedIff(nodes: seq<Node>, cwd: nat, oldPath: string, newPath: string, nodes': seq<Node>, r: Outcome)
    requires LinkInv(nodes) && IsDir(nodes, cwd)
    requires LinkEffect(nodes, Namei(nodes, cwd, oldPath), NameiParent(nodes, cwd, newPath), nodes', r)
    ensures var i := Namei(nodes, cwd, oldPath);
            r == Untyped <==>
            || ClimbsToFree(nodes, StartOf(cwd, oldPath), Elements(oldPath))
            || (&& i.At? && i.value < |nodes| && nodes[i.value].kind != Dir
                && ClimbsToFree(nodes, StartOf(cwd, newPath), Front(Elements(newPath))))
  {
    hide LinkInv, Elements, Walk, WalkParent, ClimbsToFree, Find, FirstEmpty;
    PathPanicsIff(nodes, cwd, oldPath);
    PathPanicsIff(nodes, cwd, newPath);
  }

  /** For instance link("a", ".") in a root directory that holds a file "a". */
  lemma LinkCanGetStuck()
    ensures var nodes := [Node(Free, 0, []),
                          Node(Dir, 1, [Dirent(ROOT, "."), Dirent(ROOT, ".."), Dirent(2, "a")]),
                          Node(File, 1, [])];
            LinkInv(nodes) && LinkEffect(nodes, Namei(nodes, ROOT, "a"), NameiParent(nodes, ROOT, "."), nodes, Stuck)
  {
    TinyTree();
    var es := [Dirent(ROOT, "."), Dirent(ROOT, ".."), Dirent(2, "a")];
    var nodes := [Node(Free, 0, []), Node(Dir, 1, es), Node(File, 1, [])];
    NothingLeft("a", 1);
    NothingLeft(".", 1);
    ElementHere("a", 0, 1);
    ElementHere(".", 0, 1);
    assert "a"[0..] == "a" == "a"[0..1] && "."[0..] == "." == "."[0..1];
    WalkStep(nodes, ROOT, "a", []);
    WalkStep(nodes, ROOT, ".", []);
    NoNames(nodes, 2);
    assert Find(es, "a") == 2 by { assert !Matches(es[0], "a") && !Matches(es[1], "a") && Matches(es[2], "a"); }
    assert Find(es, ".") == 0 by { assert Matches(es[0], "."); }
  }

  lemma TinyTree()
    ensures var es := [Dirent(ROOT, "."), Dirent(ROOT, ".."), Dirent(2, "a")];
            LinkInv([Node(Free, 0, []), Node(Dir, 1, es), Node(File, 1, [])])
  {
    var es := [Dirent(ROOT, "."), Dirent(ROOT, ".."), Dirent(2, "a")];
    var nodes := [Node(Free, 0, []), Node(Dir, 1, es), Node(File, 1, [])];
    assert Refs(nodes, 1) == {(1, 1)} && Refs(nodes, 2) == {(1, 2)};
    assert |{(1 as nat, 1 as nat)}| == 1 && |{(1 as nat, 2 as nat)}| == 1;
  }

  /** A root, and a directory that has been removed while it is somebody's current directory, with ".." at inode up. */
  function RemovedTree(up: nat): seq<Node> {
    [Node(Free, 0, []), Node(Dir, 1, [Dirent(ROOT, "."), Dirent(ROOT, "..")]),
     Node(Dir, 0, [Dirent(2, "."), Dirent(up, "..")]), Node(Free, 0, [])]
  }

  lemma RemovedTreeInv(up: nat)
    requires up == ROOT || up == 3
    ensures LinkInv(RemovedTree(up))
  {
    hide Counted;
    RemovedTreeCounts(up, 1);
    RemovedTreeCounts(up, 2);
    RemovedTreeCounts(up, 3);
  }

  lemma RemovedTreeCounts(up: nat, i: nat)
    requires (up == ROOT || up == 3) && 0 < i < 4
    ensures Counted(RemovedTree(up), i)
  {
    var nodes := RemovedTree(up);
    var one: set<(nat, nat)> := {(1, 1)};
    assert Refs(nodes, i) == if i == 1 then one else {};
    assert |one| == 1;
  }

  /** For instance create("b") in a directory that has been removed while it is somebody's current directory. */
  lemma CreateCanBreak()
    ensures var nodes := RemovedTree(ROOT);
            && LinkInv(nodes) && NameiParent(nodes, 2, "b") == At(Target(2, "b"))
            && Find(nodes[2].entries, "b") == 2 && !LinkInv(Created(nodes, 2, "b", 3, File))
  {
    hide LinkInv;
    var nodes := RemovedTree(ROOT);
    var gone := nodes[2].entries;
    RemovedTreeInv(ROOT);
    NothingLeft("b", 1);
    ElementHere("b", 0, 1);
    assert "b"[0..] == "b" == "b"[0..1];
    WalkStep(nodes, 2, "b", []);
    assert Find(gone, "b") == 2 by { assert !Matches(gone[0], "b") && !Matches(gone[1], "b"); }
    CreateKeepsIff(nodes, 2, "b", 3, File);
  }

  /** Create keeps the invariant exactly when its directory is still linked. In one that is not, a new file would have
      a link count of one and no name that counts. */
  lemma CreateKeepsIff(nodes: seq<Node>, dp: nat, name: Name, i: nat, kind: Kind)
    requires LinkInv(nodes) && dp < |nodes| && nodes[dp].kind == Dir
    requires Find(nodes[dp].entries, name) == |nodes[dp].entries|
    requires 0 < i < |nodes| && nodes[i].kind == Free && kind != Free
    ensures LinkInv(Created(nodes, dp, name, i, kind)) <==> Linked(nodes, dp)
    ensures var nodes' := Created(nodes, dp, name, i, kind);
            !Linked(nodes, dp) && kind != Dir ==> nodes'[i].nlink == 1 && Refs(nodes', i) == {}
  {
    hide LinkInv, Refs, Find;
    if Linked(nodes, dp) {
      CreatedInv(nodes, dp, name, i, kind);
    } else {
      InvWell(nodes, dp);
      InvCounted(nodes, dp);
      InvCounted(nodes, i);
      var nodes' := Created(nodes, dp, name, i, kind);
      if kind == Dir {
        IslandUnnamed(nodes, dp, name, i);
        if LinkInv(nodes') { InvAttached(nodes', dp); }
      } else {
        forall p: (nat, nat)
          ensures p !in Refs(nodes', i)
        {
          InRefs(nodes', p.0, p.1, i);
          assert p == (p.0, p.1);
          FreeUnnamed(nodes, i, p.0, p.1);
        }
        UnlinkedFull(nodes, dp, name, i, kind);
      }
    }
  }

  /** A file created in an unlinked directory leaves that directory with an ordinary entry. */
  lemma UnlinkedFull(nodes: seq<Node>, dp: nat, name: Name, i: nat, kind: Kind)
    requires LinkInv(nodes) && dp < |nodes| && nodes[dp].kind == Dir && nodes[dp].nlink <= 0
    requires 0 < i < |nodes| && nodes[i].kind == Free && kind != Free && kind != Dir
    ensures !LinkInv(Created(nodes, dp, name, i, kind))
  {
    hide LinkInv, Refs, FirstEmpty, UniqueNames;
    var nodes' := Created(nodes, dp, name, i, kind);
    var k := FirstEmpty(nodes[dp].entries, 0);
    InvWell(nodes, dp);
    assert nodes[dp].entries[0].inum != 0 && nodes[dp].entries[1].inum != 0;
    assert nodes'[dp].entries[k].inum == i;
    if LinkInv(nodes') { InvWell(nodes', dp); }
  }

  /** A directory created in an unlinked one counts for it through "..", but no parent names either. */
  lemma IslandUnnamed(nodes: seq<Node>, dp: nat, name: Name, i: nat)
    requires LinkInv(nodes) && dp < |nodes| && nodes[dp].kind == Dir && nodes[dp].nlink == 0
    requires 0 < i < |nodes| && nodes[i].kind == Free
    ensures dp != ROOT && Linked(Created(nodes, dp, name, i, Dir), dp)
            && !Attached(Created(nodes, dp, name, i, Dir), dp)
  {
    hide LinkInv, Refs, FirstEmpty, UniqueNames;
    var nodes' := Created(nodes, dp, name, i, Dir);
    InvWell(nodes, dp);
    forall p: nat, l: nat
      ensures !Names(nodes', p, l, dp)
    {
      if Names(nodes', p, l, dp) {
        if p != dp {
          assert Names(nodes, p, l, dp);
          OrdinaryName(nodes, p, l);
          FreeNodeUnnamed(nodes, dp, p, l);
        }
      }
    }
  }

  function RootOnly(n: nat): (r: seq<Node>)
    ensures |r| == n
  {
    seq(n, i => if i == ROOT then Node(Dir, 1, [Dirent(ROOT, "."), Dirent(ROOT, "..")]) else Node(Free, 0, []))
  }

  lemma RootOnlyInv(n: nat)
    requires n > ROOT
    ensures LinkInv(RootOnly(n))
  {
    var nodes := RootOnly(n);
    assert Refs(nodes, ROOT) == {(ROOT, 1)};
    assert |{(ROOT, 1 as nat)}| == 1;
    forall i: nat | 0 < i < n && i != ROOT
      ensures Refs(nodes, i) == {}
    {
    }
  }

  /** A walk from a directory that is not linked can meet a free inode: here ".." has been freed. */
  lemma WalkCanPanic()
    ensures LinkInv(RemovedTree(3)) && Walk(RemovedTree(3), 2, [".."]) == NoType
  {
    hide LinkInv;
    var nodes := RemovedTree(3);
    var gone := nodes[2].entries;
    RemovedTreeInv(3);
    WalkStep(nodes, 2, "..", []);
    assert [".."] + [] == [".."];
    assert Find(gone, "..") == 1 by { assert !Matches(gone[0], "..") && Matches(gone[1], ".."); }
    WalkFree(nodes, 3, []);
  }

  class Directories {
    var nodes: seq<Node>
    var ref: seq<nat>       // references to each inode in memory
    var valid: seq<bool>    // its copy in memory has been read
    var locked: set<nat>    // its sleep lock is held

    ghost predicate Cached() reads this {
      CacheInv(nodes, ref, valid)
    }

    /** Inode i is referenced and has a type, but may have just been allocated. */
    ghost predicate CachedBut(i: nat) reads this {
      && |ref| == |nodes| && |valid| == |nodes|
      && i < |nodes| && ref[i] > 0 && nodes[i].kind != Free
      && forall j: nat :: j < |nodes| && j != i ==> Kept(nodes[j], ref[j], valid[j])
    }

    /** Between system calls. */
    ghost predicate Valid() reads this {
      LinkInv(nodes) && Cached() && locked == {}
    }

    /** A new file system: a root directory and free inodes. */
    constructor (ninodes: nat)
      requires ninodes > ROOT
      ensures Valid() && nodes == RootOnly(ninodes)
    {
      nodes, ref, valid := RootOnly(ninodes), seq(ninodes, _ => 0), seq(ninodes, _ => false);
      locked := {};
      new;
      RootOnlyInv(ninodes);
    }

    // ------------------------------------------------------- inode references

    method Iget(i: nat)
      requires Cached() && i < |nodes| && nodes[i].kind != Free
      modifies `ref, `valid
      ensures Cached() && ref == Bump(old(ref), i)
    {
      if ref[i] > 0 {
        ref := ref[i := ref[i] + 1];
      } else {
        ref, valid := ref[i := 1], valid[i := false];
      }
    }

    method Idup(i: nat)
      requires Cached() && i < |nodes| && ref[i] > 0
      modifies `ref
      ensures Cached() && ref == Bump(old(ref), i)
    {
      ref := ref[i := ref[i] + 1];
    }

    /** The inode has a type, and the caller does not hold its lock already. */
    method Ilock(i: nat)
      requires CachedBut(i) && i !in locked
      modifies `valid, `locked
      ensures Cached() && valid[i] && locked == old(locked) + {i}
    {
      valid, locked := valid[i := true], locked + {i};
    }

    method Iunlock(i: nat)
      requires i < |ref| && ref[i] > 0 && i in locked
      modifies `locked
      ensures locked == old(locked) - {i}
    {
      locked := locked - {i};
    }

    /** Frees the inode exactly when it has no link and this was the only reference. */
    method Iput(i: nat)
      requires Cached() && i < |nodes| && ref[i] > 0 && i !in locked && nodes[i].nlink >= 0
      modifies `nodes, `ref, `valid
      ensures Cached() && ref == Drop(old(ref), i)
      ensures nodes == if old(nodes[i].nlink == 0 && ref[i] == 1) then FreeNode(old(nodes), i) else old(nodes)
      ensures old(nodes[i].nlink != 0) ==> valid == old(valid)
    {
      if valid[i] && nodes[i].nlink == 0 {
        if ref[i] == 1 {
          nodes, valid := nodes[i := Node(Free, 0, [])], valid[i := false];
        }
      }
      ref := ref[i := ref[i] - 1];
    }

    method Iunlockput(i: nat)
      requires Cached() && i < |nodes| && ref[i] > 0 && i in locked && nodes[i].nlink >= 0
      modifies this
      ensures Cached() && ref == Drop(old(ref), i) && locked == old(locked) - {i}
      ensures nodes == if old(nodes[i].nlink == 0 && ref[i] == 1) then FreeNode(old(nodes), i) else old(nodes)
      ensures old(nodes[i].nlink != 0) ==> valid == old(valid)
    {
      Iunlock(i);
      Iput(i);
    }

    /** Takes the first free inode number and returns a reference to it. */
    method Ialloc(kind: Kind) returns (r: Option<nat>)
      requires Cached() && kind != Free && |nodes| > 0
      modifies `nodes, `ref, `valid
      ensures r.None? <==> old(FirstFree(nodes, 1)) == |nodes|
      ensures r.None? ==> nodes == old(nodes) && ref == old(ref) && valid == old(valid)
      ensures r.Some? ==> r.value == old(FirstFree(nodes, 1)) && |nodes| == |old(nodes)|
      ensures r.Some? ==> nodes == old(nodes)[r.value := Node(kind, 0, [])] && ref == Bump(old(ref), r.value)
      ensures r.Some? ==> CachedBut(r.value)
    {
      var i := 1;
      while i < |nodes|
        invariant 1 <= i <= |nodes| && FirstFree(nodes, i) == FirstFree(nodes, 1)
        invariant nodes == old(nodes) && ref == old(ref) && valid == old(valid)
      {
        if nodes[i].kind == Free {
          nodes := nodes[i := Node(kind, 0, [])];
          ref, valid := ref[i := 1], valid[i := false];
          return Some(i);
        }
        i := i + 1;
      }
      return None;
    }

    // ------------------------------------------------------ directory entries

    /** Takes a reference to the inode it finds, unless that is free; then the next ilock panics, or dirlink gives the
        reference back. */
    method DirLookup(dp: nat, name: Name) returns (k: nat)
      requires Cached() && Sound(nodes) && dp < |nodes|
      modifies `ref, `valid
      ensures Cached() && k == Find(nodes[dp].entries, name)
      ensures k < |nodes[dp].entries| ==> 0 < nodes[dp].entries[k].inum < |nodes|
      ensures ref == if k < |nodes[dp].entries| && InUse(nodes, nodes[dp].entries[k].inum)
                     then Bump(old(ref), nodes[dp].entries[k].inum) else old(ref)
    {
      hide Sound;
      k := 0;
      while k < |nodes[dp].entries|
        invariant k <= |nodes[dp].entries|
        invariant FindFrom(nodes[dp].entries, name, k) == Find(nodes[dp].entries, name)
        invariant ref == old(ref) && valid == old(valid)
      {
        if Matches(nodes[dp].entries[k], name) {
          SoundEntry(nodes, dp, k);
          if nodes[nodes[dp].entries[k].inum].kind != Free { Iget(nodes[dp].entries[k].inum); }
          return;
        }
        k := k + 1;
      }
    }

    /** Fails if the name is present; but when that entry is the directory itself, whose lock is held, it never
        returns. */
    method DirLink(dp: nat, name: Name, i: nat) returns (r: Outcome)
      requires Cached() && Sound(nodes) && IsDir(nodes, dp) && dp in locked
      requires var k := Find(nodes[dp].entries, name);
               k < |nodes[dp].entries| && nodes[dp].entries[k].inum in locked ==> nodes[dp].entries[k].inum == dp
      modifies `nodes, `ref, `valid
      ensures var es := old(nodes[dp].entries);
              var k := Find(es, name);
              if k == |es| then
                && r == Done && ref == old(ref)
                && var put := PutEntry(es, FirstEmpty(es, 0), Dirent(i, name));
                   nodes == old(nodes)[dp := old(nodes[dp]).(entries := put)]
              else
                && nodes == old(nodes) && r == (if es[k].inum == dp then Stuck else Failed)
                && (r == Failed ==> ref == old(ref))
      ensures r != Stuck ==> Cached()
    {
      hide Find, FindFrom, Sound, Kept;
      var k := DirLookup(dp, name);
      if k < |nodes[dp].entries| {
        var c := nodes[dp].entries[k].inum;
        if c in locked { return Stuck; }
        if nodes[c].kind != Free {
          DropBump(old(ref), c);
          BumpSpare(nodes, old(ref), old(valid), c);
          SoundCount(nodes, c);
          Iput(c);
        }
        return Failed;
      }
      k := 0;
      while k < |nodes[dp].entries| && nodes[dp].entries[k].inum != 0
        invariant k <= |nodes[dp].entries|
        invariant FirstEmpty(nodes[dp].entries, k) == FirstEmpty(nodes[dp].entries, 0)
      {
        k := k + 1;
      }
      nodes := nodes[dp := nodes[dp].(entries := PutEntry(nodes[dp].entries, k, Dirent(i, name)))];
      EntriesKept(old(nodes), dp, nodes, ref, valid);
      return Done;
    }

    /** Copies the next path element from position pos and steps past it and the slashes that follow. */
    method SkipElem(path: string, pos: nat) returns (found: bool, next: nat, name: Name)
      requires pos <= |path|
      ensures found <==> Elements(path[pos..]) != []
      ensures found ==> pos < next <= |path| && (next == |path| <==> Elements(path[next..]) == [])
      ensures found ==> [name] + Elements(path[next..]) == Elements(path[pos..])
    {
      hide Elements;
      next, name := pos, "";
      while next < |path| && path[next] == '/'
        invariant pos <= next <= |path| && Elements(path[next..]) == Elements(path[pos..])
      {
        SlashHere(path, next);
        next := next + 1;
      }
      if next == |path| {
        NothingLeft(path, next);
        return false, next, name;
      }
      var s := next;
      while next < |path| && path[next] != '/'
        invariant s <= next <= |path| && forall k :: s <= k < next ==> path[k] != '/'
      {
        next := next + 1;
      }
      ElementHere(path, s, next);
      name := if next - s >= DIRSIZ then path[s..s + DIRSIZ] else path[s..next];
      ghost var e := next;
      while next < |path| && path[next] == '/'
        invariant e <= next <= |path| && Elements(path[next..]) == Elements(path[e..])
      {
        SlashHere(path, next);
        next := next + 1;
      }
      NothingLeft(path, next);
      return true, next, name;
    }

    /** Looks the name up in the locked directory ip, and trades the reference to ip for one to what is found. */
    method Descend(ip: nat, name: Name) returns (c: Reach<nat>)
      requires Cached() && Sound(nodes) && IsDir(nodes, ip) && Spare(nodes, ref, ip) && locked == {ip}
      modifies this
      ensures nodes == old(nodes)
      ensures var es := nodes[ip].entries;
              var k := Find(es, name);
              c == if k == |es| then Nothing else if InUse(nodes, es[k].inum) then At(es[k].inum) else NoType
      ensures c != NoType ==> Cached() && locked == {}
      ensures c.Nothing? ==> ref == Drop(old(ref), ip)
      ensures c.At? ==> InUse(nodes, c.value) && ref == Bump(Drop(old(ref), ip), c.value)
    {
      hide Find, FindFrom, Sound, Kept;
      SoundCount(nodes, ip);
      var k := DirLookup(ip, name);
      if k == |nodes[ip].entries| {
        Iunlockput(ip);
        return Nothing;
      }
      if nodes[nodes[ip].entries[k].inum].kind == Free { return NoType; }
      c := At(nodes[ip].entries[k].inum);
      BumpDrop(old(ref), ip, c.value);
      Iunlockput(ip);
    }

    /** Where a walk starts, with a reference to it. */
    method StartWalk(cwd: nat, path: string) returns (ip: nat)
      requires Cached() && Sound(nodes) && IsDir(nodes, cwd) && ref[cwd] > 0
      modifies `ref, `valid
      ensures Cached() && IsDir(nodes, ip) && ref == Bump(old(ref), ip)
      ensures ip == if path != "" && path[0] == '/' then ROOT else cwd
    {
      hide Sound;
      SoundRoot(nodes);
      if path != "" && path[0] == '/' {
        ip := ROOT;
        Iget(ip);
      } else {
        ip := cwd;
        Idup(ip);
      }
    }

    /** Walks a path with one inode locked at a time; no inode is freed, and the only reference left is to the
        result. */
    method Namex(cwd: nat, path: string, parent: bool) returns (r: Reach<nat>, name: Name)
      requires Cached() && Sound(nodes) && locked == {} && IsDir(nodes, cwd) && ref[cwd] > 0
      modifies this
      ensures nodes == old(nodes)
      ensures !parent ==> r == Namei(nodes, cwd, path)
      ensures parent ==> Named(r, name) == NameiParent(nodes, cwd, path)
      ensures r != NoType ==> Cached() && locked == {}
      ensures r.At? ==> InUse(nodes, r.value) && (parent ==> IsDir(nodes, r.value))
      ensures r.At? ==> ref == Bump(old(ref), r.value) && Spare(nodes, ref, r.value)
      ensures r.Nothing? ==> ref == old(ref)
    {
      hide Elements, Walk, WalkParent, Find, FindFrom, Sound, Kept, Bump, Drop, Spare;
      var ip := StartWalk(cwd, path);
      var pos := 0;
      name := "";
      assert path[0..] == path;
      while true
        invariant pos <= |path| && InUse(nodes, ip)
        invariant nodes == old(nodes) && locked == {} && Cached() && ref == Bump(old(ref), ip)
        invariant Walk(nodes, ip, Elements(path[pos..])) == Namei(nodes, cwd, path)
        invariant parent ==> WalkParent(nodes, ip, Elements(path[pos..])) == NameiParent(nodes, cwd, path)
        decreases |path| - pos
      {
        DropBump(old(ref), ip);
        BumpSpare(nodes, old(ref), old(valid), ip);
        SoundCount(nodes, ip);
        SpareStays(nodes, ref, ip);
        var found, next, e := SkipElem(path, pos);
        if !found {
          NoNames(nodes, ip);
          break;
        }
        name := e;
        WalkStep(nodes, ip, name, Elements(path[next..]));
        Ilock(ip);
        if nodes[ip].kind != Dir {
          Iunlockput(ip);
          return Nothing, name;
        }
        if parent && next == |path| {
          Iunlock(ip);
          return At(ip), name;
        }
        var c := Descend(ip, name);
        if c.Nothing? { return Nothing, name; }
        if c.NoType? {
          WalkFree(nodes, nodes[ip].entries[Find(nodes[ip].entries, name)].inum, Elements(path[next..]));
          return NoType, name;
        }
        ip, pos := c.value, next;
      }
      BumpSpare(nodes, old(ref), old(valid), ip);
      SoundCount(nodes, ip);
      SpareStays(nodes, ref, ip);
      if parent {
        Iput(ip);
        return Nothing, name;
      }
      return At(ip), name;
    }

    method IsDirEmpty(dp: nat) returns (empty: bool)
      requires dp < |nodes|
      ensures empty <==> NoOrdinaryEntries(nodes[dp].entries)
    {
      var k := 2;
      while k < |nodes[dp].entries|
        invariant 2 <= k && forall j :: 2 <= j < k && j < |nodes[dp].entries| ==> nodes[dp].entries[j].inum == 0
      {
        if nodes[dp].entries[k].inum != 0 { return false; }
        k := k + 1;
      }
      return true;
    }

    // -------------------------------------------------------------- unlinking

    /** The part of unlink after its checks: erase the slot, then give both inodes back. */
    method Erase(dp: nat, k: nat)
      requires Cached() && Linked(nodes, dp) && k < |nodes[dp].entries|
      requires var i := nodes[dp].entries[k].inum;
               && 0 < i < |nodes| && i != dp && locked == {dp, i}
               && ref[dp] > 0 && ref[i] > 0 && valid[i] && nodes[i].nlink > 0 && nodes[i].kind != Free
               && (nodes[i].kind == Dir ==> nodes[dp].nlink >= 2)
      modifies this
      ensures Cached() && locked == {}
      ensures var i := old(nodes[dp].entries[k].inum);
              && ref == Drop(Drop(old(ref), dp), i)
              && nodes == Unlinked(old(nodes), ref, dp, k)
    {
      hide LinkInv;
      var i := nodes[dp].entries[k].inum;
      ghost var n, isDir := nodes, nodes[i].kind == Dir;
      nodes := nodes[dp := nodes[dp].(entries := nodes[dp].entries[k := EMPTY])];
      if nodes[i].kind == Dir {
        nodes := nodes[dp := nodes[dp].(nlink := nodes[dp].nlink - 1)];
      }
      Iunlockput(dp);
      nodes := nodes[i := nodes[i].(nlink := nodes[i].nlink - 1)];
      assert nodes == if isDir then DropDir(n, dp, k) else DropName(n, dp, k);
      Iunlockput(i);
    }

    /** Unlink once its directory is found and locked. */
    method UnlinkAt(dp: nat, name: Name) returns (r: Outcome)
      requires LinkInv(nodes) && Cached() && IsDir(nodes, dp) && Spare(nodes, ref, dp) && locked == {dp}
      modifies this
      ensures Valid() && ref == Drop(old(ref), dp)
      ensures UnlinkEffect(old(nodes), ref, At(Target(dp, name)), nodes, r)
    {
      hide LinkInv, Find, FindFrom, Kept, Bump, Drop, Unlinked, NoOrdinaryEntries, Sound;
      InvSound(nodes);
      SoundCount(nodes, dp);
      if name == "." || name == ".." {
        Iunlockput(dp);
        return Failed;
      }
      var k := DirLookup(dp, name);
      if k == |nodes[dp].entries| {
        Iunlockput(dp);
        return Failed;
      }
      var i := nodes[dp].entries[k].inum;
      if !Linked(nodes, dp) { UnlinkedFinds(nodes, dp, name); }
      EntryLeads(nodes, dp, k);
      SecondBack(old(ref), dp, i);
      NotItself(nodes, dp, name);
      Ilock(i);
      if nodes[i].kind == Dir {
        var empty := IsDirEmpty(i);
        if !empty {
          Iunlockput(i);
          Iunlockput(dp);
          return Failed;
        }
        UnlinkSlotOrdinary(nodes, Target(dp, name));
        HolderCount(nodes, dp, k);
      }
      UnlinkedInv(nodes, Drop(old(ref), dp), Target(dp, name));
      Erase(dp, k);
      return Done;
    }

    /** On every path each reference taken is given back. */
    method Unlink(cwd: nat, path: string) returns (r: Outcome)
      requires Valid() && IsDir(nodes, cwd) && ref[cwd] > 0
      modifies this
      ensures r != Untyped ==> Valid() && ref == old(ref)
      ensures UnlinkEffect(old(nodes), old(ref), NameiParent(old(nodes), cwd, path), nodes, r)
    {
      hide LinkInv, NameiParent, Kept, Bump, Drop, UnlinkSlot, Spare;
      InvSound(nodes);
      var d, name := Namex(cwd, path, true);
      if d.Nothing? { return Failed; }
      if d.NoType? { return Untyped; }
      DropBump(old(ref), d.value);
      Ilock(d.value);
      r := UnlinkAt(d.value, name);
    }

    // ---------------------------------------------------------------- linking

    /** Takes back the link that was counted ahead of its name. */
    method Uncount(i: nat)
      requires Cached() && InUse(nodes, i) && Spare(OneFewer(nodes, i), ref, i) && locked == {} && nodes[i].nlink >= 1
      modifies this
      ensures Cached() && locked == {} && ref == Drop(old(ref), i)
      ensures nodes == OneFewer(old(nodes), i)
    {
      Ilock(i);
      nodes := nodes[i := nodes[i].(nlink := nodes[i].nlink - 1)];
      Iunlockput(i);
    }

    /** The part of link that adds the name, once the link is counted: on failure it is uncounted. */
    method LinkAt(i: nat, dp: nat, name: Name, ghost before: seq<Node>) returns (r: Outcome)
      requires LinkInv(before) && Cached() && locked == {} && InUse(before, i) && nodes == OneMore(before, i)
      requires before[i].kind != Dir && IsDir(before, dp) && Spare(before, ref, dp) && Spare(before, ref, i)
      modifies this
      ensures r != Stuck ==> Cached() && locked == {} && ref == Drop(Drop(old(ref), dp), i)
      ensures r != Stuck ==> (LinkInv(nodes) <==> r == Done ==> Linked(before, dp))
      ensures LinkEffect(before, At(i), At(Target(dp, name)), nodes, r)
    {
      hide LinkInv, Find, FindFrom, FirstEmpty, Kept, Sound;
      InvSound(before);
      SoundCount(before, i);
      SoundCount(before, dp);
      OneMoreSound(before, i);
      assert OneFewer(nodes, i) == before;
      Ilock(dp);
      r := DirLink(dp, name, i);
      if r == Stuck { return; }
      if r == Done {
        LinkKeepsIff(before, dp, name, i);
        assert WellFormed(before, i) by { InvWell(before, i); }
        assert nodes == AddName(before, dp, FirstEmpty(before[dp].entries, 0), name, i, before[i].kind);
      }
      Iunlockput(dp);
      if r == Failed { Uncount(i); } else { Iput(i); }
    }

    /** On every path that returns, each reference taken is given back; the link counts are right unless the name
        went to a directory that is not linked. */
    method Link(cwd: nat, oldPath: string, newPath: string) returns (r: Outcome)
      requires Valid() && IsDir(nodes, cwd) && ref[cwd] > 0
      modifies this
      ensures r != Stuck && r != Untyped ==> Cached() && locked == {} && ref == old(ref)
      ensures r == Failed ==> Valid()
      ensures r == Done ==> var t := NameiParent(old(nodes), cwd, newPath);
                            t.At? && (Valid() <==> Linked(old(nodes), t.value.dir))
      ensures LinkEffect(old(nodes), Namei(old(nodes), cwd, oldPath), NameiParent(old(nodes), cwd, newPath), nodes, r)
    {
      hide LinkInv, Namei, Walk, WalkParent, Elements, Kept, Bump, Drop, Sound, Find, FirstEmpty, Spare;
      ghost var before := nodes;
      InvSound(nodes);
      var s, name := Namex(cwd, oldPath, false);
      if s.Nothing? { return Failed; }
      if s.NoType? { return Untyped; }
      var i := s.value;
      DropBump(old(ref), i);
      SoundCount(nodes, i);
      SpareStays(nodes, ref, i);
      Ilock(i);
      if nodes[i].kind == Dir {
        Iunlockput(i);
        return Failed;
      }
      OneMoreKept(before, ref, valid, i);
      nodes := nodes[i := nodes[i].(nlink := nodes[i].nlink + 1)];
      Iunlock(i);
      OneMoreSound(before, i);
      OneMoreWalk(before, i, StartOf(cwd, newPath), Elements(newPath));
      var d;
      CwdKept(old(ref), i, cwd);
      d, name := Namex(cwd, newPath, true);
      if d.NoType? { return Untyped; }
      if d.Nothing? {
        Uncount(i);
        return Failed;
      }
      ThirdBack(old(ref), i, d.value);
      BothSpare(before, old(ref), old(valid), i, d.value);
      r := LinkAt(i, d.value, name, before);
    }

    // --------------------------------------------------------------- creating

    /** Writes "." and ".." into the new directory i. */
    method AddDots(i: nat, dp: nat, ghost before: seq<Node>)
      requires Cached() && Sound(before) && 0 < dp < |before| && 0 < i < |before| && i != dp && i in locked
      requires before[i].kind == Free
      requires nodes == before[i := Node(Dir, 1, [])][dp := before[dp].(nlink := before[dp].nlink + 1)]
      modifies `nodes, `ref, `valid
      ensures Cached() && ref == old(ref)
      ensures nodes == before[i := Node(Dir, 1, [Dirent(i, "."), Dirent(dp, "..")])]
                             [dp := before[dp].(nlink := before[dp].nlink + 1)]
    {
      hide Sound, Kept;
      FreshSound(before, i, dp, Node(Dir, 1, []), 1);
      var r := DirLink(i, ".", i);
      assert nodes[i] == Node(Dir, 1, [Dirent(i, ".")]);
      assert nodes == before[i := Node(Dir, 1, [Dirent(i, ".")])][dp := before[dp].(nlink := before[dp].nlink + 1)];
      FreshSound(before, i, dp, Node(Dir, 1, [Dirent(i, ".")]), 1);
      r := DirLink(i, "..", dp);
      assert nodes[i] == Node(Dir, 1, [Dirent(i, "."), Dirent(dp, "..")]);
    }

    /** The part of create after ialloc: count the link, set up a directory's own entries, add the name. */
    method Populate(dp: nat, name: Name, i: nat, kind: Kind, ghost before: seq<Node>)
      requires LinkInv(before) && IsDir(before, dp) && Find(before[dp].entries, name) == |before[dp].entries|
      requires 0 < i < |before| && before[i].kind == Free && kind != Free && nodes == before[i := Node(kind, 0, [])]
      requires Cached() && locked == {dp, i}
      modifies `nodes, `ref, `valid
      ensures Cached() && ref == old(ref)
      ensures nodes == Created(before, dp, name, i, kind)
    {
      hide LinkInv, Find, FindFrom, FirstEmpty, Sound;
      InvSound(before);
      InvCounted(before, i);
      nodes := nodes[i := nodes[i].(nlink := 1)];
      if kind == Dir {
        nodes := nodes[dp := nodes[dp].(nlink := nodes[dp].nlink + 1)];
        AddDots(i, dp, before);
      }
      FreshSound(before, i, dp, nodes[i], if kind == Dir then 1 else 0);
      assert nodes == before[i := nodes[i]]
                            [dp := before[dp].(nlink := before[dp].nlink + (if kind == Dir then 1 else 0))];
      var r := DirLink(dp, name, i);
      assert nodes == Created(before, dp, name, i, kind);
    }

    /** Create once its directory is found and locked; that may have been unlinked. */
    method CreateAt(dp: nat, name: Name, kind: Kind) returns (r: Outcome, i: nat)
      requires LinkInv(nodes) && Cached() && IsDir(nodes, dp) && Spare(nodes, ref, dp) && locked == {dp} && kind != Free
      modifies this
      ensures CreateEffect(old(nodes), At(Target(dp, name)), kind, nodes, r, i) && r != Stuck
      ensures r == Failed ==> Valid() && ref == Drop(old(ref), dp)
      ensures r == Done ==>
              Cached() && InUse(nodes, i) && |old(nodes)| == |nodes| && (kind == Dir ==> nodes[i].nlink > 0)
      ensures r == Done ==> locked == {i} && ref == Bump(Drop(old(ref), dp), i)
      ensures r == Done ==> (LinkInv(nodes) <==> nodes == old(nodes) || Linked(old(nodes), dp))
    {
      hide LinkInv, Find, FindFrom, FirstFree, Kept, Bump, Drop, Sound, Created, Spare;
      ghost var before := nodes;
      InvSound(nodes);
      SoundCount(nodes, dp);
      SpareStays(nodes, ref, dp);
      var k := DirLookup(dp, name);
      if k < |nodes[dp].entries| {
        i := nodes[dp].entries[k].inum;
        if nodes[i].kind == Free { return Untyped, 0; }
        BumpDrop(old(ref), dp, i);
        DropBump(Drop(old(ref), dp), i);
        SoundCount(nodes, i);
        DropKept(nodes, old(ref), dp, i);
        BumpKept(nodes, old(ref), dp, i);
        Iunlockput(dp);
        SpareAfter(nodes, old(ref), old(valid), dp, i);
        Ilock(i);
        if kind == File && nodes[i].kind == File { return Done, i; }
        Iunlockput(i);
        return Failed, 0;
      }
      var f := Ialloc(kind);
      if f.None? { return NoInodes, 0; }
      i := f.value;
      BumpDrop(old(ref), dp, i);
      Ilock(i);
      Populate(dp, name, i, kind, before);
      CreateKeepsIff(before, dp, name, i, kind);
      CreatedHas(before, dp, name, i, kind);
      CreatedOther(before, dp, name, i, kind);
      SpareGrows(before, old(ref), dp, nodes, i);
      Iunlockput(dp);
      return Done, i;
    }

    /** Returns a locked, referenced inode for the path; every other path through it balances its references. The link
        counts are right unless the new name went to a directory that is not linked. */
    method Create(cwd: nat, path: string, kind: Kind) returns (r: Outcome, i: nat)
      requires Valid() && IsDir(nodes, cwd) && ref[cwd] > 0 && kind != Free
      modifies this
      ensures CreateEffect(old(nodes), NameiParent(old(nodes), cwd, path), kind, nodes, r, i) && r != Stuck
      ensures r == Failed ==> Valid() && ref == old(ref)
      ensures r == Done ==>
              Cached() && InUse(nodes, i) && |old(nodes)| == |nodes| && (kind == Dir ==> nodes[i].nlink > 0)
      ensures r == Done ==> locked == {i} && ref == Bump(old(ref), i)
      ensures r == Done ==> var t := NameiParent(old(nodes), cwd, path);
                            t.At? && (LinkInv(nodes) <==> nodes == old(nodes) || Linked(old(nodes), t.value.dir))
    {
      hide LinkInv, NameiParent, Find, FirstFree, Kept, Bump, Drop, Sound, Created, Spare;
      InvSound(nodes);
      var d, name := Namex(cwd, path, true);
      if d.Nothing? { return Failed, 0; }
      if d.NoType? { return Untyped, 0; }
      DropBump(old(ref), d.value);
      Ilock(d.value);
      r, i := CreateAt(d.value, name, kind);
    }

    method Mkdir(cwd: nat, path: string) returns (r: Outcome, i: nat)
      requires Valid() && IsDir(nodes, cwd) && ref[cwd] > 0
      modifies this
      ensures r == Failed ==> Valid() && ref == old(ref)
      ensures r == Done ==> Cached() && locked == {} && ref == old(ref)
      ensures r == Done ==> var t := NameiParent(old(nodes), cwd, path);
                            t.At? && (Valid() <==> nodes == old(nodes) || Linked(old(nodes), t.value.dir))
      ensures CreateEffect(old(nodes), NameiParent(old(nodes), cwd, path), Dir, nodes, r, i)
    {
      hide LinkInv, Bump, Drop, Kept, CreateEffect, NameiParent;
      r, i := Create(cwd, path, Dir);
      if r == Done {
        DropBump(old(ref), i);
        Iunlockput(i);
      }
    }
  }

  function Named(r: Reach<nat>, name: Name): Reach<Target> {
    match r
    case Nothing => Nothing
    case NoType => NoType
    case At(i) => At(Target(i, name))
  }

  lemma SoundEntry(nodes: seq<Node>, d: nat, k: nat)
    requires Sound(nodes) && d < |nodes| && k < |nodes[d].entries|
    ensures nodes[d].entries[k].inum < |nodes|
  {
    assert SoundNode(nodes, d);
  }

  lemma SoundCount(nodes: seq<Node>, i: nat)
    requires Sound(nodes) && 0 < i < |nodes|
    ensures nodes[i].nlink >= 0
  {
    assert SoundNode(nodes, i);
  }

  lemma SoundRoot(nodes: seq<Node>)
    requires Sound(nodes)
    ensures Linked(nodes, ROOT) && nodes[0].kind == Free
  {
  }

  lemma SpareStays(nodes: seq<Node>, ref: seq<nat>, i: nat)
    requires Spare(nodes, ref, i)
    ensures i < |nodes| == |ref| && ref[i] > 0 && (nodes[i].nlink == 0 ==> ref[i] != 1)
  {
  }

  /** Two references taken on top of what the cache holds. */
  lemma BothSpare(nodes: seq<Node>, ref: seq<nat>, valid: seq<bool>, i: nat, d: nat)
    requires CacheInv(nodes, ref, valid) && InUse(nodes, i) && InUse(nodes, d)
    ensures Spare(nodes, Bump(Bump(ref, i), d), i) && Spare(nodes, Bump(Bump(ref, i), d), d)
  {
  }

  lemma DropKept(nodes: seq<Node>, ref: seq<nat>, dp: nat, i: nat)
    requires dp < |ref| && i < |ref| && ref[dp] > 0
    ensures Bump(Drop(ref, dp), i)[i] > 0
  {
  }

  lemma BumpKept(nodes: seq<Node>, ref: seq<nat>, dp: nat, i: nat)
    requires Spare(nodes, ref, dp) && i < |nodes|
    ensures Spare(nodes, Bump(ref, i), dp) && Bump(ref, i)[dp] > 0 && (nodes[dp].nlink == 0 ==> Bump(ref, i)[dp] != 1)
  {
  }

  lemma SpareAfter(nodes: seq<Node>, ref: seq<nat>, valid: seq<bool>, dp: nat, i: nat)
    requires CacheInv(nodes, ref, valid) && Spare(nodes, ref, dp) && InUse(nodes, i)
    ensures var r := Bump(Drop(ref, dp), i); |r| == |nodes| && r[i] > 0 && (nodes[i].nlink == 0 ==> r[i] != 1)
  {
  }

  lemma CreatedOther(nodes: seq<Node>, dp: nat, name: Name, i: nat, kind: Kind)
    requires dp < |nodes| && i < |nodes| && i != dp && nodes[i].kind == Free && kind != Free
    ensures Created(nodes, dp, name, i, kind) != nodes && Created(nodes, dp, name, i, kind)[i].kind == kind
  {
    hide FirstEmpty;
  }

  lemma SpareGrows(nodes: seq<Node>, ref: seq<nat>, dp: nat, nodes': seq<Node>, i: nat)
    requires Spare(nodes, ref, dp) && |nodes'| == |nodes| && i < |nodes| && nodes'[dp].nlink >= nodes[dp].nlink
    ensures Bump(ref, i)[dp] > 0 && (nodes'[dp].nlink == 0 ==> Bump(ref, i)[dp] != 1)
  {
  }
}

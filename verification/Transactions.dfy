/** What the file system logs in its transactions meets what the log asks of its clients. */
module Transactions {
  import opened Basics
  import opened LogFormat
  import opened LogSystem
  import FileBlocks
  import FileSystem

  /** What each operation may log: few enough blocks, none of them in the log. */
  ghost predicate Planned(disk: Disk, lay: Layout, plan: map<nat, set<int>>) {
    forall op :: op in plan ==> |plan[op]| <= MAXOPBLOCKS && forall b :: b in plan[op] ==> lay.IsHome(disk, b)
  }

  /** The action logs nothing that is not planned. */
  predicate Follows(a: Action, plan: map<nat, set<int>>) {
    a.Write? ==> a.op in plan && a.block in plan[a.op]
  }

  /** What one action leads to, whoever takes it. */
  ghost predicate Steps(s: State, a: Action, t: State) {
    Addressable(s) ==> Step(s, a) == Ok(t)
  }

  /** Every operation in progress has logged only what was planned for it. */
  ghost predicate WithinPlan(s: State, plan: map<nat, set<int>>) {
    forall op :: op in s.ops && s.ops[op] != {} ==> op in plan && s.ops[op] <= plan[op]
  }

  lemma SubsetCard(a: set<int>, b: set<int>)
    requires a <= b
    ensures |a| <= |b|
  {
    assert b == a + (b - a);
  }

  lemma FollowsDisciplined(s: State, a: Action, plan: map<nat, set<int>>)
    requires Planned(s.disk, s.lay, plan) && Follows(a, plan) && WithinPlan(s, plan)
    ensures Disciplined(s, a)
  {
    if a.Write? && a.op in s.ops {
      assert s.ops[a.op] + {a.block} <= plan[a.op];
      SubsetCard(s.ops[a.op] + {a.block}, plan[a.op]);
    }
  }

  lemma StaysWithin(s: State, a: Action, t: State, plan: map<nat, set<int>>)
    requires Addressable(s) && Step(s, a) == Ok(t) && Follows(a, plan) && WithinPlan(s, plan)
    ensures WithinPlan(t, plan) && t.lay == s.lay && |t.disk| == |s.disk|
  {
  }

  lemma PlannedDisk(disk: Disk, lay: Layout, plan: map<nat, set<int>>, disk': Disk)
    requires Planned(disk, lay, plan) && |disk'| == |disk|
    ensures Planned(disk', lay, plan)
  {
    forall op | op in plan
      ensures forall b :: b in plan[op] ==> lay.IsHome(disk', b)
    {
      forall b | b in plan[op]
        ensures lay.IsHome(disk', b)
      {
        assert lay.IsHome(disk, b);
      }
    }
  }

  /** In any interleaving of operations that log only what was planned for them, every action is one the log allows, so
      that all it promises of disciplined clients holds of these. */
  lemma {:induction false} PlannedRun(ss: seq<State>, acts: seq<Action>, plan: map<nat, set<int>>)
    requires |ss| == |acts| + 1 && Init(ss[0]) && Planned(ss[0].disk, ss[0].lay, plan)
    requires forall i :: 0 <= i < |acts| ==> Follows(acts[i], plan) && Steps(ss[i], acts[i], ss[i + 1])
    ensures IsRun(ss, acts) && WithinPlan(ss[|acts|], plan)
    ensures ss[|acts|].lay == ss[0].lay && |ss[|acts|].disk| == |ss[0].disk|
    decreases |acts|
  {
    hide Init, Step, Addressable, Disciplined, Planned, WithinPlan, Inv;
    if acts == [] {
      StartsWithin(ss[0], plan);
    } else {
      var n := |acts| - 1;
      PlannedRun(ss[..n + 1], acts[..n], plan);
      RunInv(ss[..n + 1], acts[..n], n);
      var s, a, t := ss[n], acts[n], ss[n + 1];
      PlannedDisk(ss[0].disk, ss[0].lay, plan, s.disk);
      FollowsDisciplined(s, a, plan);
      StepInv(s, a);
      assert Steps(s, a, t) && Follows(a, plan);
      StaysWithin(s, a, t, plan);
      assert Next(s, a, t);
      forall i | 0 <= i < |acts|
        ensures Next(ss[i], acts[i], ss[i + 1])
      {
        if i < n { assert Next(ss[..n + 1][i], acts[..n][i], ss[..n + 1][i + 1]); }
      }
    }
  }

  lemma StartsWithin(s: State, plan: map<nat, set<int>>)
    requires Init(s)
    ensures WithinPlan(s, plan)
  {
  }

  /** A run of the log, on a disk laid out as the file system says, whose operations each log what one of the given
      transactions does; other steps, crashes and recoveries come in any order. */
  ghost predicate CarriesOut(fs: FileSystem.FileSystem, txs: seq<set<nat>>, ss: seq<State>, acts: seq<Action>,
                             plan: map<nat, set<nat>>)
  {
    && |ss| == |acts| + 1 && Init(ss[0])
    && |ss[0].disk| == fs.sb.size && ss[0].lay.start + ss[0].lay.size <= fs.sb.inodestart
    && (forall op :: op in plan ==> plan[op] in txs)
    && forall i :: 0 <= i < |acts| ==> Follows(acts[i], plan) && Steps(ss[i], acts[i], ss[i + 1])
  }

  lemma BoundedPlanned(fs: FileSystem.FileSystem, txs: seq<set<nat>>, disk: Disk, lay: Layout,
                       plan: map<nat, set<nat>>)
    requires fs.LaidOut() && forall t :: 0 <= t < |txs| ==> fs.Bounded(txs[t])
    requires |disk| == fs.sb.size && lay.start + lay.size <= fs.sb.inodestart
    requires forall op :: op in plan ==> plan[op] in txs
    ensures Planned(disk, lay, plan)
  {
  }

  /** filewrite through the log: every run that carries out its transactions is one of a disciplined client, so that a
      crash anywhere leaves each chunk whole or absent. */
  method WriteThroughLog(fs: FileSystem.FileSystem, i: nat, off: nat, src: seq<FileBlocks.Byte>)
    returns (ok: bool, r: int, w: nat, ghost txs: seq<set<nat>>)
    requires fs.Valid() && i < |fs.mem| && off < WORD && |src| < WORD && fs.LaidOut()
    modifies fs
    ensures ok ==> fs.Valid()
    ensures ok ==> forall ss: seq<State>, acts: seq<Action>, plan: map<nat, set<nat>> ::
                CarriesOut(fs, txs, ss, acts, plan) ==> IsRun(ss, acts)
  {
    hide IsRun, Init, Step, Addressable, Planned;
    ok, r, w, txs := fs.FileWrite(i, off, src);
    if ok {
      forall ss: seq<State>, acts: seq<Action>, plan: map<nat, set<nat>> | CarriesOut(fs, txs, ss, acts, plan)
        ensures IsRun(ss, acts)
      {
        BoundedPlanned(fs, txs, ss[0].disk, ss[0].lay, plan);
        PlannedRun(ss, acts, plan);
      }
    }
  }
}

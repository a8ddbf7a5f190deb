/** What the steps of the scheduler come to for the processes that make them and for the others. */
module SchedSteps {
  import opened Basics
  import opened Sched

  // -------------------------------------------------------------------- wait

  /** How a scan by wait ends, for process p. With a zombie child it returns the pid of one and empties that slot.
      Without one it returns -1 exactly when p has no child or is killed, and else p goes to sleep on itself. No other
      process changes. */
  lemma WaitIff(s: State, a: Action, p: nat)
    requires Inv(s) && Enabled(s, a) && Scans(s, a) && a.c < |s.cpus| && s.cpus[a.c].cur == Some(p)
    ensures p < |s.procs| && |Next(s, a).procs| == |s.procs| && |Next(s, a).cpus| == |s.cpus|
    ensures var t := Next(s, a);
            var zombie := exists q :: 0 <= q < |s.procs| && s.procs[q].parent == Some(p) && s.procs[q].state == Zombie;
            var child := exists q :: 0 <= q < |s.procs| && s.procs[q].parent == Some(p);
            && (t.procs[p].state == Sleeping <==> !zombie && child && !s.procs[p].killed)
            && (t.procs[p].state == Sleeping ==>
                  && t.procs[p].chan == Some(ProcChan(p)) && t.procs[p].pc == Waiting && t.cpus[a.c].mode == Returning)
            && (t.procs[p].state != Sleeping ==>
                  && t.procs[p].state == Running && t.procs[p].pc == Normal && t.cpus[a.c].mode == Exec)
            && (t.reaped == s.reaped <==> !zombie)
            && (!zombie ==> forall q :: 0 <= q < |s.procs| && q != p ==> t.procs[q] == s.procs[q])
            && (zombie ==> exists q :: 0 <= q < |s.procs| && Taken(s, t, p, q))
  {
    hide RunInv, SpinInv, ForkInv, PcInv, HoldInv, KinInv, PidInv, Next, Enabled, WaitScan;
    ScansIs(s, a);
    var q := FirstZombie(s.procs, p, 0);
    if q < |s.procs| {
      assert ZombieChild(s.procs[q], p);
      ScanReaps(s, a.c, p, q);
    } else {
      assert forall r :: 0 <= r < |s.procs| ==> !ZombieChild(s.procs[r], p);
      ScanFindsNone(s, a.c, p);
    }
  }

  lemma ScanReaps(s: State, c: nat, p: nat, q: nat)
    requires KinInv(s) && PidInv(s) && c < |s.cpus| && s.cpus[c].cur == Some(p) && p < |s.procs|
    requires s.procs[p].state == Running && q == FirstZombie(s.procs, p, 0) < |s.procs|
    ensures var t := WaitScan(s, c);
            && |t.procs| == |s.procs| && |t.cpus| == |s.cpus| && Taken(s, t, p, q) && t.reaped != s.reaped
            && t.procs[p].state == Running && t.procs[p].pc == Normal && t.cpus[c].mode == Exec
  {
    assert ZombieChild(s.procs[q], p) && KinOk(s, q) && PidOk(s, q);
  }

  lemma ScanFindsNone(s: State, c: nat, p: nat)
    requires c < |s.cpus| && s.cpus[c].cur == Some(p) && p < |s.procs| && s.procs[p].state == Running
    requires FirstZombie(s.procs, p, 0) == |s.procs|
    ensures var t := WaitScan(s, c);
            var child := exists q :: 0 <= q < |s.procs| && s.procs[q].parent == Some(p);
            && |t.procs| == |s.procs| && |t.cpus| == |s.cpus| && t.reaped == s.reaped
            && (t.procs[p].state == Sleeping <==> child && !s.procs[p].killed)
            && (t.procs[p].state == Sleeping ==>
                  && t.procs[p].chan == Some(ProcChan(p)) && t.procs[p].pc == Waiting && t.cpus[c].mode == Returning)
            && (t.procs[p].state != Sleeping ==>
                  && t.procs[p].state == Running && t.procs[p].pc == Normal && t.cpus[c].mode == Exec)
            && forall q :: 0 <= q < |s.procs| && q != p ==> t.procs[q] == s.procs[q]
  {
  }

  /** The zombie child q of p has been reaped, and nobody else has changed. */
  ghost predicate Taken(s: State, t: State, p: nat, q: nat)
    requires |t.procs| == |s.procs| && q < |s.procs|
  {
    && s.procs[q].parent == Some(p) && s.procs[q].state == Zombie && q != p
    && t.procs[q].state == Unused && t.procs[q].parent == None && t.procs[q].pid == 0 && !t.procs[q].killed
    && t.reaped == s.reaped + {s.procs[q].pid}
    && forall r :: 0 <= r < |s.procs| && r != p && r != q ==> t.procs[r] == s.procs[r]
  }

  /** In every run, a wait that returned no pid was made by a process that had no children or was killed, and one that
      went to sleep by a process that had children, none of them a zombie. */
  lemma WaitReturned(states: seq<State>, actions: seq<Action>, i: nat, p: nat)
    requires IsRun(states, actions) && Inv(states[0]) && i < |actions| && Scans(states[i], actions[i])
    requires actions[i].c < |states[i].cpus| && states[i].cpus[actions[i].c].cur == Some(p)
    ensures p < |states[i].procs| == |states[i + 1].procs|
    ensures var s, t := states[i], states[i + 1];
            && (t.procs[p].state != Sleeping && t.reaped == s.reaped ==>
                  s.procs[p].killed || forall q :: 0 <= q < |s.procs| ==> s.procs[q].parent != Some(p))
            && (t.procs[p].state == Sleeping ==>
                  && (exists q :: 0 <= q < |s.procs| && s.procs[q].parent == Some(p))
                  && forall q :: 0 <= q < |s.procs| && s.procs[q].parent == Some(p) ==> s.procs[q].state != Zombie)
  {
    hide Inv, Next, Enabled;
    RunKeeps(states, actions, i);
    WaitIff(states[i], actions[i], p);
  }

  // ------------------------------------------------------- sleep and wakeup

  /** After wakeup nobody is asleep on the channel: whoever was is runnable, and nobody else has changed. */
  lemma WakesAll(procs: seq<Proc>, ch: Chan, q: nat)
    requires q < |procs|
    ensures var r := WakeAll(procs, ch);
            && |r| == |procs| && !(r[q].state == Sleeping && r[q].chan == Some(ch))
            && (procs[q].state == Sleeping && procs[q].chan == Some(ch) ==> r[q] == procs[q].(state := Runnable))
            && (procs[q].state != Sleeping || procs[q].chan != Some(ch) ==> r[q] == procs[q])
  {
  }

  /** The step is one that wakes process p, asleep as it is: a wakeup on what it sleeps on, a kill, or the exit of a
      process whose parent sleeps on itself, or whose zombie children go to init. */
  ghost predicate Wakes(s: State, a: Action, p: nat)
    requires Enabled(s, a) && p < |s.procs|
  {
    var ch := s.procs[p].chan;
    match a
    case Wakeup(c, n) => ch == Some(OtherChan(n))
    case Notify(c) => ch == Some(LockChan(s.procs[Cur(s, c)].pc.l))
    case Kill(c, q) => q == p
    case Exit(c) =>
      var me := Cur(s, c);
      || (s.procs[me].parent.Some? && ch == Some(ProcChan(s.procs[me].parent.value)))
      || (ch == Some(ProcChan(s.init)) && exists q :: 0 <= q < |s.procs| && ZombieChild(s.procs[q], me))
    case _ => false
  }

  /** A sleeping process stays asleep where it is, through every step but those that wake it. */
  lemma WakesIff(s: State, a: Action, p: nat)
    requires Inv(s) && Enabled(s, a) && p < |s.procs| && s.procs[p].state == Sleeping
    ensures |Next(s, a).procs| == |s.procs|
    ensures var p' := Next(s, a).procs[p];
            && p'.state == (if Wakes(s, a, p) then Runnable else Sleeping)
            && p'.chan == s.procs[p].chan && p'.pc == s.procs[p].pc && p'.pid == s.procs[p].pid
            && (s.procs[p].killed ==> p'.killed)
  {
    hide Inv, RunInv, SpinInv, ForkInv, PcInv, KinInv, PidInv, HoldInv, Next, Enabled, Wakes, Reaching, OwnChange;
    assert RunInv(s) && ForkInv(s) by { InvParts(s); }
    if Own(a) || CpuOnly(a) {
      OwnWakes(s, a, p);
    } else if a.Exit? {
      ExitWakesIff(s, a.c, p);
    } else if Scans(s, a) {
      ScanWakes(s, a, p);
    } else {
      ReachingWakes(s, a, p);
    }
  }

  lemma InvParts(s: State)
    requires Inv(s)
    ensures RunInv(s) && ForkInv(s)
  {
  }

  lemma OwnWakes(s: State, a: Action, p: nat)
    requires RunInv(s) && Enabled(s, a) && p < |s.procs| && s.procs[p].state == Sleeping && (Own(a) || CpuOnly(a))
    ensures |Next(s, a).procs| == |s.procs| && !Wakes(s, a, p) && Next(s, a).procs[p] == s.procs[p]
  {
    hide RunInv, Next, Enabled;
    OwnAll(s, a);
    assert OwnChange(s.procs[p], Next(s, a).procs[p]);
  }

  lemma ScanWakes(s: State, a: Action, p: nat)
    requires RunInv(s) && Enabled(s, a) && Scans(s, a) && p < |s.procs| && s.procs[p].state == Sleeping
    ensures |Next(s, a).procs| == |s.procs| && !Wakes(s, a, p) && Next(s, a).procs[p] == s.procs[p]
  {
    hide RunInv, Enabled;
    ScansIs(s, a);
  }

  lemma ReachingWakes(s: State, a: Action, p: nat)
    requires RunInv(s) && ForkInv(s) && Enabled(s, a) && p < |s.procs| && s.procs[p].state == Sleeping
    requires !Own(a) && !CpuOnly(a) && !Scans(s, a) && !a.Exit?
    ensures |Next(s, a).procs| == |s.procs|
    ensures var p' := Next(s, a).procs[p];
            && p'.state == (if Wakes(s, a, p) then Runnable else Sleeping)
            && p' == s.procs[p].(state := p'.state, killed := p'.killed) && (s.procs[p].killed ==> p'.killed)
  {
    hide RunInv;
    CurOk(s, a.c);
    assert ForkOk(s, Cur(s, a.c));
  }

  lemma ExitWakesIff(s: State, c: nat, p: nat)
    requires RunInv(s) && Enabled(s, Exit(c)) && p < |s.procs| && s.procs[p].state == Sleeping
    ensures |Next(s, Exit(c)).procs| == |s.procs|
    ensures var p' := Next(s, Exit(c)).procs[p];
            && p'.state == (if Wakes(s, Exit(c), p) then Runnable else Sleeping)
            && p' == s.procs[p].(state := p'.state, parent := p'.parent)
  {
    hide RunInv;
    CurOk(s, c);
    var me := Cur(s, c);
    ExitState(s.procs, me, s.init, p);
  }

  /** Whom exit wakes, exactly. */
  lemma ExitState(procs: seq<Proc>, me: nat, init: nat, q: nat)
    requires me < |procs| && q < |procs| && q != me && procs[me].state == Running
    ensures var r := ExitTable(procs, me, init)[q];
            && r == procs[q].(state := r.state, parent := if procs[q].parent == Some(me) then Some(init)
                                                          else procs[q].parent)
            && r.state == if procs[q].state == Sleeping
                             && (|| (procs[me].parent.Some? && procs[q].chan == Some(ProcChan(procs[me].parent.value)))
                                 || (procs[q].chan == Some(ProcChan(init)) && HasZombie(procs, me)))
                          then Runnable else procs[q].state
  {
    var a := if procs[me].parent.None? then procs else WakeAll(procs, ProcChan(procs[me].parent.value));
    assert forall k :: 0 <= k < |procs| ==> (ZombieChild(a[k], me) <==> ZombieChild(procs[k], me));
    assert HasZombie(a, me) <==> HasZombie(procs, me);
  }

  /** A process falls asleep only by its own step: in sleep, in acquiresleep on a lock that is taken, or in wait. */
  lemma FallsAsleep(s: State, a: Action, p: nat)
    requires Inv(s) && Enabled(s, a) && p < |s.procs| && s.procs[p].state != Sleeping
    ensures |Next(s, a).procs| == |s.procs|
    ensures Next(s, a).procs[p].state == Sleeping ==>
              && a.c < |s.cpus| && s.cpus[a.c].cur == Some(p) && s.procs[p].state == Running
              && (a.Sleep? || (a.Land? && s.procs[p].pc.Falling?) || Scans(s, a))
  {
    hide Inv, RunInv, ForkInv, Next, Enabled, Scans;
    InvParts(s);
    if Own(a) || CpuOnly(a) { OwnFalls(s, a, p); } else { OthersFall(s, a, p); }
  }

  lemma OwnFalls(s: State, a: Action, p: nat)
    requires RunInv(s) && Enabled(s, a) && p < |s.procs| && s.procs[p].state != Sleeping && (Own(a) || CpuOnly(a))
    ensures |Next(s, a).procs| == |s.procs|
    ensures Next(s, a).procs[p].state == Sleeping ==>
              && a.c < |s.cpus| && s.cpus[a.c].cur == Some(p) && s.procs[p].state == Running
              && (a.Sleep? || (a.Land? && s.procs[p].pc.Falling?))
  {
    hide RunInv;
    CurOk(s, a.c);
  }

  lemma OthersFall(s: State, a: Action, p: nat)
    requires RunInv(s) && ForkInv(s) && Enabled(s, a) && p < |s.procs| && s.procs[p].state != Sleeping
    requires !Own(a) && !CpuOnly(a)
    ensures |Next(s, a).procs| == |s.procs|
    ensures Next(s, a).procs[p].state == Sleeping ==>
              a.c < |s.cpus| && s.cpus[a.c].cur == Some(p) && s.procs[p].state == Running && Scans(s, a)
  {
    hide RunInv, ExitTable;
    CurOk(s, a.c);
    if Scans(s, a) { ScansIs(s, a); }
    if a.Exit? { ExitAt(s.procs, Cur(s, a.c), s.init, p); }
  }

  /** And sleep does put it to sleep, on the channel given; a wakeup there or a kill makes it runnable again. */
  lemma SleepThenWakeup(s: State, c: nat, n: nat, p: nat)
    requires Inv(s) && Enabled(s, Sleep(c, n)) && s.cpus[c].cur == Some(p)
    ensures var t := Next(s, Sleep(c, n));
            && p < |t.procs| == |s.procs| && t.cpus[c].mode == Returning
            && t.procs[p] == s.procs[p].(state := Sleeping, chan := Some(OtherChan(n)), pc := SleptOther)
            && (forall q :: 0 <= q < |s.procs| && q != p ==> t.procs[q] == s.procs[q])
            && WakeAll(t.procs, OtherChan(n))[p].state == Runnable
  {
  }

  // ------------------------------------------------------- kill, exit, fork

  /** Kill marks the process, and no sleep keeps it; nobody else changes. */
  lemma KillDoes(s: State, c: nat, p: nat)
    requires Enabled(s, Kill(c, p))
    ensures var t := Next(s, Kill(c, p));
            && p < |t.procs| == |s.procs| && t.procs[p].killed && t.procs[p].state != Sleeping
            && (s.procs[p].state != Sleeping ==> t.procs[p] == s.procs[p].(killed := true))
            && (s.procs[p].state == Sleeping ==> t.procs[p] == s.procs[p].(killed := true, state := Runnable))
            && forall q :: 0 <= q < |s.procs| && q != p ==> t.procs[q] == s.procs[q]
  {
  }

  /** The step is a scan by wait that empties slot p. */
  predicate Empties(s: State, a: Action, p: nat) {
    && Scans(s, a) && a.c < |s.cpus| && s.cpus[a.c].cur.Some? && Cur(s, a.c) < |s.procs| && p < |s.procs|
    && p == FirstZombie(s.procs, Cur(s, a.c), 0)
  }

  /** A slot is marked as killed by kill alone, whatever it holds, and the mark goes only when wait empties the slot. */
  lemma KilledIff(s: State, a: Action, p: nat)
    requires Inv(s) && Enabled(s, a) && p < |s.procs|
    ensures |Next(s, a).procs| == |s.procs|
    ensures Next(s, a).procs[p].killed <==> (a.Kill? && a.p == p) || (s.procs[p].killed && !Empties(s, a, p))
  {
    hide Inv, RunInv, ForkInv, Next, Enabled, Empties;
    InvParts(s);
    if Own(a) || CpuOnly(a) {
      OwnKilled(s, a, p);
    } else if Scans(s, a) {
      ScanKilled(s, a, p);
    } else if a.Exit? {
      ExitKilled(s, a.c, p);
    } else {
      OthersKilled(s, a, p);
    }
  }

  lemma OwnKilled(s: State, a: Action, p: nat)
    requires RunInv(s) && Enabled(s, a) && p < |s.procs| && (Own(a) || CpuOnly(a))
    ensures |Next(s, a).procs| == |s.procs| && Next(s, a).procs[p].killed == s.procs[p].killed && !Empties(s, a, p)
  {
    hide RunInv;
    CurOk(s, a.c);
  }

  lemma ScanKilled(s: State, a: Action, p: nat)
    requires RunInv(s) && Enabled(s, a) && p < |s.procs| && Scans(s, a)
    ensures |Next(s, a).procs| == |s.procs|
    ensures Next(s, a).procs[p].killed <==> s.procs[p].killed && !Empties(s, a, p)
  {
    hide RunInv, Enabled;
    ScansIs(s, a);
  }

  lemma ExitKilled(s: State, c: nat, p: nat)
    requires RunInv(s) && Enabled(s, Exit(c)) && p < |s.procs|
    ensures |Next(s, Exit(c)).procs| == |s.procs|
    ensures Next(s, Exit(c)).procs[p].killed == s.procs[p].killed && !Empties(s, Exit(c), p)
  {
    hide RunInv;
    CurOk(s, c);
  }

  lemma OthersKilled(s: State, a: Action, p: nat)
    requires RunInv(s) && ForkInv(s) && Enabled(s, a) && p < |s.procs|
    requires !Own(a) && !CpuOnly(a) && !Scans(s, a) && !a.Exit?
    ensures |Next(s, a).procs| == |s.procs| && !Empties(s, a, p)
    ensures Next(s, a).procs[p].killed <==> (a.Kill? && a.p == p) || s.procs[p].killed
  {
    hide RunInv;
    CurOk(s, a.c);
    assert ForkOk(s, Cur(s, a.c));
  }

  /** So a process can be killed before it is born: a kill that finds pid 0, which is that of an unused slot, marks the
      slot, and the next fork that takes it has a killed child. */
  lemma BornKilled(s: State, c: nat, p: nat, q: nat)
    requires Inv(s) && LockFree(s) && Executing(s, c) && s.cpus[c].cur == Some(p) && s.procs[p].pc == Normal
    requires q < |s.procs| && s.procs[q].state == Unused
    ensures Enabled(s, Kill(c, q))
    ensures var s1 := Next(s, Kill(c, q));
            && Enabled(s1, Alloc(c, q))
            && var s2 := Next(s1, Alloc(c, q));
               && Enabled(s2, SetParent(c))
               && var s3 := Next(s2, SetParent(c));
                  && Enabled(s3, Launch(c)) && |Next(s3, Launch(c)).procs| == |s.procs|
                  && Next(s3, Launch(c)).procs[q].state == Runnable && Next(s3, Launch(c)).procs[q].killed
  {
    hide SpinInv, ForkInv, KinInv, PcInv, PidInv, HoldInv;
    CurOk(s, c);
  }

  /** Exit leaves a zombie with its pid and parent, and gives its children to init. */
  lemma ExitDoes(s: State, c: nat, me: nat)
    requires Inv(s) && Enabled(s, Exit(c)) && s.cpus[c].cur == Some(me)
    ensures var t := Next(s, Exit(c));
            && me < |t.procs| == |s.procs| && t.cpus[c].mode == Returning
            && t.procs[me].state == Zombie && t.procs[me].pid == s.procs[me].pid
            && t.procs[me].parent == s.procs[me].parent && t.exited == s.exited + {s.procs[me].pid}
            && (forall q :: 0 <= q < |s.procs| && q != me ==>
                  && t.procs[q].parent == (if s.procs[q].parent == Some(me) then Some(s.init) else s.procs[q].parent)
                  && t.procs[q].pid == s.procs[q].pid && t.procs[q].killed == s.procs[q].killed
                  && (t.procs[q].state == s.procs[q].state
                      || (s.procs[q].state == Sleeping && t.procs[q].state == Runnable)))
  {
    hide RunInv, SpinInv, ForkInv, PcInv, PidInv, HoldInv;
    CurOk(s, c);
    assert KinOk(s, me);
    ExitAt(s.procs, me, s.init, me);
    forall q: nat | q < |s.procs| && q != me
      ensures var r := Next(s, Exit(c)).procs[q];
              && ExitBystander(s.procs[q], r, me, s.init) && r.killed == s.procs[q].killed
    {
      ExitState(s.procs, me, s.init, q);
    }
  }

  /** The end of a fork: the child is runnable, the forking process is its parent, and no other process has its pid. */
  lemma ForkDoes(s: State, c: nat, p: nat)
    requires Inv(s) && Enabled(s, Launch(c)) && s.cpus[c].cur == Some(p)
    ensures p < |s.procs| && s.procs[p].pc.Forking? && s.procs[p].pc.np < |s.procs|
    ensures var t, np := Next(s, Launch(c)), s.procs[p].pc.np;
            && |t.procs| == |s.procs| && np != p
            && t.procs[np].state == Runnable && t.procs[np].parent == Some(p) && t.procs[p].pc == Normal
            && (forall q :: 0 <= q < |s.procs| && q != np && t.procs[q].state != Unused ==>
                  t.procs[q].pid != t.procs[np].pid)
            && forall q :: 0 <= q < |s.procs| && q != np && q != p ==> t.procs[q] == s.procs[q]
  {
    hide RunInv, SpinInv, KinInv, PcInv, HoldInv;
    assert ForkOk(s, p);
    var np := s.procs[p].pc.np;
    forall q: nat | q < |s.procs| && q != np && s.procs[q].state != Unused
      ensures s.procs[q].pid != s.procs[np].pid
    {
      assert PidsDiffer(s.procs[if q < np then q else np], s.procs[if q < np then np else q]);
    }
  }

  /** Its start: an unused slot becomes an embryo with a pid that no process has had, and belongs to this fork. */
  lemma AllocDoes(s: State, c: nat, p: nat, np: nat)
    requires Inv(s) && Enabled(s, Alloc(c, np)) && s.cpus[c].cur == Some(p)
    ensures var t := Next(s, Alloc(c, np));
            && p < |t.procs| == |s.procs| && np < |s.procs| && np != p && s.procs[np].state == Unused
            && t.procs[np].state == Embryo && t.procs[p].pc == Forking(np, false)
            && (forall q :: 0 <= q < |s.procs| && s.procs[q].state != Unused ==> s.procs[q].pid != t.procs[np].pid)
            && t.procs[np].pid !in s.exited && t.nextPid > t.procs[np].pid
            && forall q :: 0 <= q < |s.procs| && q != np && q != p ==> t.procs[q] == s.procs[q]
  {
    hide RunInv, SpinInv, KinInv, PcInv, ForkInv, HoldInv;
    CurOk(s, c);
    forall q: nat | q < |s.procs| && s.procs[q].state != Unused
      ensures s.procs[q].pid < s.nextPid
    {
      assert PidOk(s, q);
    }
  }

  /** If it fails, the slot is unused again and has no parent. */
  lemma ForkFailDoes(s: State, c: nat, p: nat)
    requires Inv(s) && Enabled(s, ForkFail(c)) && s.cpus[c].cur == Some(p)
    ensures p < |s.procs| && s.procs[p].pc.Forking? && s.procs[p].pc.np < |s.procs|
    ensures var t, np := Next(s, ForkFail(c)), s.procs[p].pc.np;
            && |t.procs| == |s.procs| && np != p && t.procs[p].pc == Normal
            && t.procs[np].state == Unused && t.procs[np].parent == None
            && forall q :: 0 <= q < |s.procs| && q != np && q != p ==> t.procs[q] == s.procs[q]
  {
    hide RunInv, SpinInv, KinInv, PcInv, PidInv, HoldInv;
    assert ForkOk(s, p);
  }

  /** A process that yields and is picked again next, by the same CPU, finds everything as it left it. */
  lemma YieldAndBack(s: State, c: nat, p: nat)
    requires Inv(s) && Enabled(s, Yield(c)) && s.cpus[c].cur == Some(p)
    ensures var s1 := Next(s, Yield(c));
            && p < |s1.procs| && s1.procs[p].state == Runnable && Enabled(s1, Clear(c))
            && var s2 := Next(s1, Clear(c));
               && Enabled(s2, Dispatch(c, p))
               && var s3 := Next(s2, Dispatch(c, p)); Enabled(s3, Resume(c)) && Next(s3, Resume(c)) == s
  {
    hide SpinInv, KinInv, ForkInv, PcInv, PidInv, HoldInv;
    assert CpuOk(s.cpus[c], s.procs);
    var s3 := Next(Next(Next(s, Yield(c)), Clear(c)), Dispatch(c, p));
    assert s3.procs == s.procs[p := s.procs[p].(pc := Yielded)] && s3.cpus == s.cpus[c := Cpu(Resuming, Some(p))];
    assert Next(s3, Resume(c)).procs == s.procs && Next(s3, Resume(c)).cpus == s.cpus;
  }

  /** A process that is picked again goes on where it was switched out: outside these sections, or on its way to the
      lock that it slept on; a scan by wait is made again. */
  lemma ResumeDoes(s: State, c: nat, p: nat)
    requires Inv(s) && Enabled(s, Resume(c)) && s.cpus[c].cur == Some(p) && s.procs[p].pc != Waiting
    ensures var t := Next(s, Resume(c));
            && p < |t.procs| == |s.procs| && t.cpus[c].mode == Exec && t.procs[p].state == Running
            && t.procs[p].pc == (if s.procs[p].pc.Slept? then Woken(s.procs[p].pc.l) else Normal)
            && (s.procs[p].pc.Slept? || s.procs[p].pc.SleptOther? ==> t.procs[p].chan == None)
            && forall q :: 0 <= q < |s.procs| && q != p ==> t.procs[q] == s.procs[q]
  {
    hide SpinInv, ForkInv, KinInv, PcInv, PidInv, HoldInv;
    CurOk(s, c);
  }

  // ------------------------------------------------------------- sleep locks

  /** acquiresleep takes a lock that is open, for the process that asks. */
  lemma TakeDoes(s: State, c: nat, p: nat, l: nat)
    requires Inv(s) && Executing(s, c) && s.cpus[c].cur == Some(p) && l < |s.locks| && s.procs[p].pc == Testing(l)
    ensures Enabled(s, Take(c)) <==> !s.locks[l].locked
    ensures Enabled(s, Take(c)) ==>
              var t := Next(s, Take(c));
              HoldingSleep(t, p, l) && t.locks[l].spin == None && t.procs[p].pc == Normal
  {
    hide Inv;
  }

  /** And sleeps on one that is taken. */
  lemma FallDoes(s: State, c: nat, p: nat, l: nat)
    requires Inv(s) && Executing(s, c) && s.cpus[c].cur == Some(p) && l < |s.locks| && s.procs[p].pc == Testing(l)
    ensures LockFree(s) ==> (Enabled(s, Fall(c)) <==> s.locks[l].locked)
    ensures Enabled(s, Fall(c)) ==>
              var t := Next(s, Fall(c));
              && t.locks[l] == s.locks[l].(spin := None) && Enabled(t, Land(c))
              && var u := Next(t, Land(c));
                 && |u.procs| == |s.procs| && u.procs[p].state == Sleeping && u.procs[p].chan == Some(LockChan(l))
                 && u.procs[p].pc == Slept(l)
  {
    hide Inv;
  }

  /** releasesleep is for its holder, and opens it. */
  lemma ReleaseDoes(s: State, c: nat, p: nat, l: nat)
    requires Inv(s) && Executing(s, c) && s.cpus[c].cur == Some(p) && l < |s.locks| && s.procs[p].pc == Normal
    ensures s.locks[l].spin == None ==> (Enabled(s, Release(c, l)) <==> HoldingSleep(s, p, l))
    ensures Enabled(s, Release(c, l)) ==>
              var t := Next(s, Release(c, l)); !t.locks[l].locked && t.procs[p].pc == Releasing(l)
  {
    hide Inv;
  }

  // ---------------------------------------------------------------- progress

  /** A process that runs outside these sections may make any of the calls whenever the table's lock is free. */
  lemma CallsAdmitted(s: State, c: nat, p: nat)
    requires Executing(s, c) && s.cpus[c].cur == Some(p) && s.procs[p].pc == Normal && LockFree(s)
    ensures Enabled(s, Yield(c)) && Enabled(s, Wait(c)) && (Enabled(s, Exit(c)) <==> p != s.init)
    ensures forall n: nat :: Enabled(s, Sleep(c, n)) && Enabled(s, Wakeup(c, n))
    ensures forall q: nat :: (Enabled(s, Kill(c, q)) <==> q < |s.procs|)
                             && (Enabled(s, Alloc(c, q)) <==> q < |s.procs| && s.procs[q].state == Unused)
    ensures forall l: nat :: Enabled(s, SpinAcquire(c, l)) <==> l < |s.locks| && s.locks[l].spin == None
  {
  }

  /** The CPU can take a step. */
  ghost predicate CanStep(s: State, c: nat) {
    exists a: Action :: a.c == c && Enabled(s, a)
  }

  /** A process that is on its way to a sleep lock is on its way to one that exists. */
  predicate LockOf(pc: Pc, nlocks: nat) {
    pc.Falling? || pc.Slept? || pc.Woken? ==> pc.l < nlocks
  }

  ghost predicate LockRefs(s: State) {
    forall p: nat :: p < |s.procs| ==> LockOf(s.procs[p].pc, |s.locks|)
  }

  lemma StartLockRefs(nprocs: nat, ncpus: nat, nlocks: nat)
    ensures var locks := seq(nlocks, i => Lock(false, None, 0, {}));
            LockRefs(State(StartTable(nprocs), seq(ncpus, i => Cpu(Idle, None)), locks, 0, 2, {}, {}))
  {
  }

  lemma LockOfNext(s: State, a: Action, p: nat)
    requires RunInv(s) && ForkInv(s) && LockRefs(s) && Enabled(s, a) && p < |s.procs|
    ensures |Next(s, a).procs| == |s.procs| && |Next(s, a).locks| == |s.locks|
    ensures LockOf(Next(s, a).procs[p].pc, |s.locks|)
  {
    hide RunInv, ForkInv, LockRefs, Next, Enabled;
    if Own(a) || CpuOnly(a) { OwnLockOf(s, a, p); } else { OthersLockOf(s, a, p); }
  }

  lemma OwnLockOf(s: State, a: Action, p: nat)
    requires RunInv(s) && LockRefs(s) && Enabled(s, a) && p < |s.procs| && (Own(a) || CpuOnly(a))
    ensures |Next(s, a).procs| == |s.procs| && |Next(s, a).locks| == |s.locks|
    ensures LockOf(Next(s, a).procs[p].pc, |s.locks|)
  {
    hide RunInv;
    CurOk(s, a.c);
    assert LockOf(s.procs[p].pc, |s.locks|);
  }

  lemma OthersLockOf(s: State, a: Action, p: nat)
    requires RunInv(s) && ForkInv(s) && LockRefs(s) && Enabled(s, a) && p < |s.procs| && !Own(a) && !CpuOnly(a)
    ensures |Next(s, a).procs| == |s.procs| && |Next(s, a).locks| == |s.locks|
    ensures LockOf(Next(s, a).procs[p].pc, |s.locks|)
  {
    hide RunInv, ExitTable;
    CurOk(s, a.c);
    assert LockOf(s.procs[p].pc, |s.locks|);
    if a.Exit? { ExitAt(s.procs, Cur(s, a.c), s.init, p); }
  }

  lemma {:induction false} RunLockRefs(states: seq<State>, actions: seq<Action>, i: nat)
    requires IsRun(states, actions) && Inv(states[0]) && LockRefs(states[0]) && i < |states|
    ensures LockRefs(states[i])
  {
    hide Inv, RunInv, ForkInv, Next, Enabled, LockOf;
    if i > 0 {
      RunLockRefs(states, actions, i - 1);
      RunKeeps(states, actions, i - 1);
      var s, a := states[i - 1], actions[i - 1];
      InvParts(s);
      assert Enabled(s, a) && states[i] == Next(s, a);
      assert s.procs != [] by { SomeProc(s); }
      LockOfNext(s, a, 0);
      forall p: nat | p < |s.procs|
        ensures LockOf(states[i].procs[p].pc, |s.locks|)
      {
        LockOfNext(s, a, p);
      }
    }
  }

  lemma SomeProc(s: State)
    requires Inv(s)
    ensures s.procs != []
  {
  }

  /** No deadlock, in any run. A CPU that holds the table's lock can take a step. When none does, every CPU can, except
      one whose process wants back the spinlock of a sleep lock that another process has; then that one's CPU can. */
  lemma Progress(states: seq<State>, actions: seq<Action>, i: nat, c: nat)
    requires IsRun(states, actions) && Inv(states[0]) && LockRefs(states[0]) && i < |states| && c < |states[i].cpus|
    ensures var s := states[i];
            && (Holds(s.cpus[c].mode) ==> CanStep(s, c))
            && (LockFree(s) && !CanStep(s, c) ==>
                  && s.cpus[c].cur.Some? && s.cpus[c].cur.value < |s.procs|
                  && var pc := s.procs[s.cpus[c].cur.value].pc;
                     && pc.Woken? && pc.l < |s.locks| && s.locks[pc.l].spin.Some?
                     && exists d: nat :: d < |s.cpus| && s.cpus[d].cur == s.locks[pc.l].spin && CanStep(s, d))
  {
    hide Inv, CanStep;
    RunKeeps(states, actions, i);
    RunLockRefs(states, actions, i);
    var s := states[i];
    if Holds(s.cpus[c].mode) {
      HolderSteps(s, c);
    } else if s.cpus[c].mode == Exec && LockFree(s) {
      ExecSteps(s, c);
      if !CanStep(s, c) { SpinHolderSteps(s, s.procs[s.cpus[c].cur.value].pc.l); }
    } else if LockFree(s) {
      IdleSteps(s, c);
    }
  }

  lemma IdleSteps(s: State, c: nat)
    requires LockFree(s) && c < |s.cpus| && s.cpus[c].mode == Idle
    ensures CanStep(s, c)
  {
    assert Enabled(s, SchedAcquire(c));
  }

  lemma HolderSteps(s: State, c: nat)
    requires Inv(s) && c < |s.cpus| && Holds(s.cpus[c].mode)
    ensures CanStep(s, c)
  {
    hide SpinInv, KinInv, PcInv, ForkInv, HoldInv, PidInv;
    assert CpuOk(s.cpus[c], s.procs);
    match s.cpus[c].mode
    case Picking => assert Enabled(s, SchedRelease(c));
    case Resuming => assert Enabled(s, Resume(c));
    case Holding => assert Enabled(s, Land(c));
    case Returning => assert Enabled(s, Clear(c));
  }

  lemma ExecSteps(s: State, c: nat)
    requires Inv(s) && LockRefs(s) && LockFree(s) && c < |s.cpus| && s.cpus[c].mode == Exec
    ensures s.cpus[c].cur.Some? && s.cpus[c].cur.value < |s.procs|
    ensures var pc := s.procs[s.cpus[c].cur.value].pc;
            CanStep(s, c) || (pc.Woken? && pc.l < |s.locks| && s.locks[pc.l].spin.Some?)
  {
    hide KinInv, PcInv, HoldInv, PidInv;
    assert CpuOk(s.cpus[c], s.procs);
    var p := s.cpus[c].cur.value;
    assert LockOf(s.procs[p].pc, |s.locks|) && ForkOk(s, p);
    match s.procs[p].pc
    case Normal => assert Enabled(s, Yield(c));
    case Forking(np, owned) => assert if owned then Enabled(s, Launch(c)) else Enabled(s, SetParent(c));
    case Testing(l) =>
      assert SpinHeld(s, p, l);
      assert if s.locks[l].locked then Enabled(s, Fall(c)) else Enabled(s, Take(c));
    case Woken(l) => if s.locks[l].spin == None { assert Enabled(s, SpinAcquire(c, l)); }
    case Releasing(l) => assert Enabled(s, Notify(c));
    case Released(l) =>
      assert SpinHeld(s, p, l);
      assert Enabled(s, SpinDrop(c));
  }

  lemma SpinHolderSteps(s: State, l: nat)
    requires Inv(s) && LockRefs(s) && LockFree(s) && l < |s.locks| && s.locks[l].spin.Some?
    ensures exists d: nat :: d < |s.cpus| && s.cpus[d].cur == s.locks[l].spin && CanStep(s, d)
  {
    hide KinInv, HoldInv, PidInv, ForkInv, CanStep;
    var q := s.locks[l].spin.value;
    assert SpinHolder(s, l) && PcOk(s.procs[q], q);
    var d: nat :| RunsOn(s, q, d);
    assert CpuOk(s.cpus[d], s.procs) && !Holds(s.cpus[d].mode);
    ExecSteps(s, d);
  }
}

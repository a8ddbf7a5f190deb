/** The process table as the kernel's loops change it. Each method is one critical section of ptable.lock. */
module ProcTable {
  import opened Basics
  import opened Sched

  // ------------------------------------------------------- how far a loop got

  function WakeSome(procs: seq<Proc>, ch: Chan, n: nat): seq<Proc>
    requires n <= |procs|
  {
    seq(|procs|, q requires 0 <= q < |procs| => if q < n then WakeProc(procs[q], ch) else procs[q])
  }

  predicate ZombieBefore(procs: seq<Proc>, parent: nat, n: nat)
    requires n <= |procs|
  {
    exists q :: 0 <= q < n && ZombieChild(procs[q], parent)
  }

  /** Exit's loop after n processes: their parents are changed, and init is awake if one of them is a zombie child. */
  function AdoptSome(procs: seq<Proc>, me: nat, init: nat, n: nat): seq<Proc>
    requires n <= |procs|
  {
    var some := seq(|procs|, q requires 0 <= q < |procs| => if q < n then AdoptProc(procs[q], me, init) else procs[q]);
    if ZombieBefore(procs, me, n) then WakeAll(some, ProcChan(init)) else some
  }

  lemma AdoptNext(procs: seq<Proc>, me: nat, init: nat, n: nat)
    requires n < |procs|
    ensures var now := AdoptSome(procs, me, init, n);
            && |now| == |procs| && now[n].parent == procs[n].parent
            && (now[n].state == Zombie <==> procs[n].state == Zombie)
            && AdoptSome(procs, me, init, n + 1) ==
               if procs[n].parent != Some(me) then now
               else
                 var given := now[n := now[n].(parent := Some(init))];
                 if procs[n].state == Zombie then WakeAll(given, ProcChan(init)) else given
  {
    assert ZombieBefore(procs, me, n + 1) <==> ZombieBefore(procs, me, n) || ZombieChild(procs[n], me);
  }

  lemma AdoptDone(procs: seq<Proc>, me: nat, init: nat)
    ensures AdoptSome(procs, me, init, 0) == procs
    ensures AdoptSome(procs, me, init, |procs|) ==
            if HasZombie(procs, me) then WakeAll(Adopt(procs, me, init), ProcChan(init)) else Adopt(procs, me, init)
  {
    assert HasZombie(procs, me) <==> ZombieBefore(procs, me, |procs|);
  }

  /** First unused slot from n on, or the length. */
  function FirstUnused(procs: seq<Proc>, n: nat): (r: nat)
    requires n <= |procs|
    ensures n <= r <= |procs| && (r < |procs| ==> procs[r].state == Unused)
    ensures forall q :: n <= q < r ==> procs[q].state != Unused
    decreases |procs| - n
  {
    if n == |procs| || procs[n].state == Unused then n else FirstUnused(procs, n + 1)
  }

  /** First slot from n on with this pid, or the length. */
  function FirstPid(procs: seq<Proc>, pid: nat, n: nat): (r: nat)
    requires n <= |procs|
    ensures n <= r <= |procs| && (r < |procs| ==> procs[r].pid == pid)
    ensures forall q :: n <= q < r ==> procs[q].pid != pid
    decreases |procs| - n
  {
    if n == |procs| || procs[n].pid == pid then n else FirstPid(procs, pid, n + 1)
  }

  class ProcTable {
    var procs: seq<Proc>
    var nextPid: nat
    const init: nat

    /** userinit */
    constructor (nprocs: nat)
      requires nprocs > 0
      ensures procs == StartTable(nprocs) && init == 0 && nextPid == 2
    {
      procs, nextPid, init := StartTable(nprocs), 2, 0;
    }

    method Wakeup1(ch: Chan)
      modifies `procs
      ensures procs == WakeAll(old(procs), ch)
      ensures forall q :: 0 <= q < |procs| ==>
                procs[q] == if old(procs)[q].state == Sleeping && old(procs)[q].chan == Some(ch)
                            then old(procs)[q].(state := Runnable) else old(procs)[q]
    {
      var q := 0;
      while q < |procs|
        invariant q <= |procs| == |old(procs)| && procs == WakeSome(old(procs), ch, q)
      {
        if procs[q].state == Sleeping && procs[q].chan == Some(ch) {
          procs := procs[q := procs[q].(state := Runnable)];
        }
        q := q + 1;
      }
    }

    /** allocproc's scan: the first unused slot becomes an embryo with a new pid. */
    method AllocProc() returns (r: Option<nat>)
      modifies this
      ensures r.None? <==> old(FirstUnused(procs, 0)) == |old(procs)|
      ensures r.None? ==> procs == old(procs) && nextPid == old(nextPid)
      ensures r.Some? ==>
                && r.value == old(FirstUnused(procs, 0)) && nextPid == old(nextPid) + 1
                && procs == old(procs)[r.value := old(procs)[r.value].(state := Embryo, pid := old(nextPid), pc := New)]
    {
      var q := 0;
      while q < |procs|
        invariant q <= |procs| && FirstUnused(procs, q) == FirstUnused(procs, 0)
        invariant procs == old(procs) && nextPid == old(nextPid)
      {
        if procs[q].state == Unused {
          procs := procs[q := procs[q].(state := Embryo, pid := nextPid, pc := New)];
          nextPid := nextPid + 1;
          return Some(q);
        }
        q := q + 1;
      }
      return None;
    }

    /** exit, up to the switch to the scheduler. */
    method Exit(me: nat)
      requires me < |procs| && me != init
      modifies `procs
      ensures procs == ExitTable(old(procs), me, init)
    {
      hide WakeAll, AdoptSome, Adopt, HasZombie;
      if procs[me].parent.Some? { Wakeup1(ProcChan(procs[me].parent.value)); }
      ghost var a := procs;
      AdoptDone(a, me, init);
      var q := 0;
      while q < |procs|
        invariant q <= |procs| == |a| && procs == AdoptSome(a, me, init, q)
      {
        AdoptNext(a, me, init, q);
        if procs[q].parent == Some(me) {
          procs := procs[q := procs[q].(parent := Some(init))];
          if procs[q].state == Zombie { Wakeup1(ProcChan(init)); }
        }
        q := q + 1;
      }
      procs := procs[me := procs[me].(state := Zombie, pc := Dead)];
    }

    /** kill: the first process with this pid is marked, and runs again if it was asleep. */
    method Kill(pid: nat) returns (found: bool)
      modifies `procs
      ensures var q := old(FirstPid(procs, pid, 0));
              && (found <==> q < |old(procs)|)
              && procs == if found then old(procs)[q := KillProc(old(procs)[q])] else old(procs)
      ensures found ==> exists q :: 0 <= q < |procs| && old(procs)[q].pid == pid && procs[q].killed
                                    && procs[q].state != Sleeping
      ensures !found ==> forall q :: 0 <= q < |procs| ==> procs[q].pid != pid
    {
      var q := 0;
      while q < |procs|
        invariant q <= |procs| && procs == old(procs) && FirstPid(procs, pid, q) == FirstPid(procs, pid, 0)
      {
        if procs[q].pid == pid {
          procs := procs[q := procs[q].(killed := true)];
          if procs[q].state == Sleeping { procs := procs[q := procs[q].(state := Runnable)]; }
          return true;
        }
        q := q + 1;
      }
      return false;
    }

    /** wait's scan: reap the first zombie child and return its pid, or tell whether there are children at all. */
    method WaitScan(me: nat) returns (pid: Option<nat>, havekids: bool)
      requires me < |procs|
      modifies `procs
      ensures var q := old(FirstZombie(procs, me, 0));
              if q < |old(procs)| then pid == Some(old(procs)[q].pid) && procs == Reap(old(procs), q)
              else pid == None && procs == old(procs) && havekids == HasChild(procs, me)
      ensures pid.None? <==> forall q :: 0 <= q < |old(procs)| && old(procs)[q].parent == Some(me) ==>
                               old(procs)[q].state != Zombie
      ensures pid.None? ==> (havekids <==> exists q :: 0 <= q < |procs| && procs[q].parent == Some(me))
    {
      havekids := false;
      var q := 0;
      while q < |procs|
        invariant q <= |procs| && procs == old(procs) && FirstZombie(procs, me, q) == FirstZombie(procs, me, 0)
        invariant havekids <==> exists i :: 0 <= i < q && procs[i].parent == Some(me)
      {
        if procs[q].parent == Some(me) {
          havekids := true;
          if procs[q].state == Zombie {
            pid := Some(procs[q].pid);
            procs := procs[q := procs[q].(state := Unused, parent := None, pid := 0, killed := false)];
            return;
          }
        }
        q := q + 1;
      }
      return None, havekids;
    }
  }
}

/** The process table, the CPUs and the sleep locks, as a system of steps. */
module Sched {
  import opened Basics

  datatype PState = Unused | Embryo | Sleeping | Runnable | Running | Zombie

  /** What a process can sleep on: a process (in wait), a sleep lock, or something else. */
  datatype Chan = ProcChan(p: nat) | LockChan(l: nat) | OtherChan(n: nat)

  /** Where a process is in the kernel code. */
  datatype Pc =
    | Normal                            // running, outside the code below
    | Forking(np: nat, owned: bool)     // in fork, with the child allocated; owned once it has its parent
    | Testing(l: nat)                   // in acquiresleep, holding the spinlock, at the loop test
    | Falling(l: nat)                   // in sleep, holding ptable.lock, the spinlock released
    | Slept(l: nat)                     // switched out in that sleep
    | Woken(l: nat)                     // back from it, about to take the spinlock again
    | Releasing(l: nat)                 // in releasesleep, unlocked, before wakeup
    | Released(l: nat)                  // after wakeup, about to drop the spinlock
    | Yielded                           // switched out in yield
    | New                               // not yet run: will start in forkret
    | Waiting                           // switched out in wait's sleep
    | SleptOther                        // switched out in some other sleep
    | Dead                              // exited

  datatype Proc = Proc(state: PState, chan: Option<Chan>, parent: Option<nat>, pid: nat, killed: bool, pc: Pc)

  /** What a CPU is doing. In all but Idle and Exec it holds ptable.lock. */
  datatype Mode =
    | Idle          // in the scheduler, without the lock
    | Picking       // in the scheduler, with the lock
    | Resuming      // just switched to a process
    | Exec          // running a process
    | Holding       // running a process inside sleep
    | Returning     // just switched back from a process

  datatype Cpu = Cpu(mode: Mode, cur: Option<nat>)

  /** takers are the pids that have taken the lock and not released it. */
  datatype Lock = Lock(locked: bool, spin: Option<nat>, pid: nat, takers: set<nat>)

  /** exited and reaped record pids that have exited and that wait has returned. */
  datatype State = State(procs: seq<Proc>, cpus: seq<Cpu>, locks: seq<Lock>, init: nat, nextPid: nat,
                         exited: set<nat>, reaped: set<nat>)

  predicate Holds(m: Mode) { m != Idle && m != Exec }

  predicate OnProc(m: Mode) { m == Resuming || m == Exec || m == Holding }

  ghost predicate LockFree(s: State) {
    forall c :: 0 <= c < |s.cpus| ==> !Holds(s.cpus[c].mode)
  }

  // -------------------------------------------------- the table's own loops

  function WakeProc(p: Proc, ch: Chan): Proc {
    if p.state == Sleeping && p.chan == Some(ch) then p.(state := Runnable) else p
  }

  /** wakeup1. */
  function WakeAll(procs: seq<Proc>, ch: Chan): (r: seq<Proc>)
    ensures |r| == |procs| && forall q :: 0 <= q < |procs| ==> r[q] == WakeProc(procs[q], ch)
  {
    seq(|procs|, q requires 0 <= q < |procs| => WakeProc(procs[q], ch))
  }

  /** What kill does to a process: it is marked, and wakes if it is asleep, whatever it sleeps on. */
  function KillProc(p: Proc): Proc {
    p.(killed := true, state := if p.state == Sleeping then Runnable else p.state)
  }

  function AdoptProc(p: Proc, from: nat, init: nat): Proc {
    if p.parent == Some(from) then p.(parent := Some(init)) else p
  }

  /** The children of an exiting process go to init. */
  function Adopt(procs: seq<Proc>, from: nat, init: nat): (r: seq<Proc>)
    ensures |r| == |procs| && forall q :: 0 <= q < |procs| ==> r[q] == AdoptProc(procs[q], from, init)
  {
    seq(|procs|, q requires 0 <= q < |procs| => AdoptProc(procs[q], from, init))
  }

  predicate ZombieChild(p: Proc, parent: nat) {
    p.parent == Some(parent) && p.state == Zombie
  }

  predicate HasZombie(procs: seq<Proc>, parent: nat) {
    exists q :: 0 <= q < |procs| && ZombieChild(procs[q], parent)
  }

  predicate HasChild(procs: seq<Proc>, parent: nat) {
    exists q :: 0 <= q < |procs| && procs[q].parent == Some(parent)
  }

  /** exit, up to the switch. */
  function ExitTable(procs: seq<Proc>, p: nat, init: nat): (r: seq<Proc>)
    requires p < |procs|
    ensures |r| == |procs|
  {
    var a := if procs[p].parent.None? then procs else WakeAll(procs, ProcChan(procs[p].parent.value));
    var b := Adopt(a, p, init);
    var d := if HasZombie(a, p) then WakeAll(b, ProcChan(init)) else b;
    d[p := d[p].(state := Zombie, pc := Dead)]
  }

  /** The first zombie child, or the length. */
  function FirstZombie(procs: seq<Proc>, parent: nat, from: nat): (r: nat)
    requires from <= |procs|
    ensures from <= r <= |procs| && (r < |procs| ==> ZombieChild(procs[r], parent))
    ensures forall q :: from <= q < r ==> !ZombieChild(procs[q], parent)
    decreases |procs| - from
  {
    if from == |procs| || ZombieChild(procs[from], parent) then from else FirstZombie(procs, parent, from + 1)
  }

  function Reap(procs: seq<Proc>, q: nat): seq<Proc>
    requires q < |procs|
  {
    procs[q := procs[q].(state := Unused, parent := None, pid := 0, killed := false)]
  }

  // ------------------------------------------------------------------ steps

  datatype Action =
    | SchedAcquire(c: nat)
    | SchedRelease(c: nat)
    | Dispatch(c: nat, p: nat)
    | Clear(c: nat)
    | Resume(c: nat)
    | Yield(c: nat)
    | Alloc(c: nat, np: nat)
    | ForkFail(c: nat)
    | SetParent(c: nat)
    | Launch(c: nat)
    | Exit(c: nat)
    | Wait(c: nat)
    | Sleep(c: nat, n: nat)
    | Wakeup(c: nat, n: nat)
    | Kill(c: nat, p: nat)
    | SpinAcquire(c: nat, l: nat)
    | Take(c: nat)
    | Fall(c: nat)
    | Land(c: nat)
    | Release(c: nat, l: nat)
    | Notify(c: nat)
    | SpinDrop(c: nat)

  /** CPU c runs a process in kernel or user code, outside ptable.lock. */
  predicate Executing(s: State, c: nat) {
    && c < |s.cpus| && s.cpus[c].mode == Exec && s.cpus[c].cur.Some? && s.cpus[c].cur.value < |s.procs|
  }

  function Cur(s: State, c: nat): nat
    requires c < |s.cpus| && s.cpus[c].cur.Some?
  {
    s.cpus[c].cur.value
  }

  /** The process on CPU c becomes np, and the CPU goes to mode m. */
  function Put(s: State, c: nat, np: Proc, m: Mode): State
    requires c < |s.cpus| && s.cpus[c].cur.Some? && Cur(s, c) < |s.procs|
  {
    s.(procs := s.procs[Cur(s, c) := np], cpus := s.cpus[c := s.cpus[c].(mode := m)])
  }

  /** wait's scan by process p on CPU c: return a zombie's pid, return -1, or sleep. */
  function WaitScan(s: State, c: nat): State
    requires c < |s.cpus| && s.cpus[c].cur.Some? && Cur(s, c) < |s.procs|
  {
    var p := Cur(s, c);
    var q := FirstZombie(s.procs, p, 0);
    if q < |s.procs| then
      var s' := Put(s, c, s.procs[p].(chan := None, pc := Normal), Exec);
      s'.(procs := Reap(s'.procs, q), reaped := s.reaped + {s.procs[q].pid})
    else if !HasChild(s.procs, p) || s.procs[p].killed then Put(s, c, s.procs[p].(chan := None, pc := Normal), Exec)
    else Put(s, c, s.procs[p].(chan := Some(ProcChan(p)), state := Sleeping, pc := Waiting), Returning)
  }

  predicate Forks(s: State, p: nat)
    requires p < |s.procs|
  {
    s.procs[p].pc.Forking? && s.procs[p].pc.np < |s.procs| && s.procs[p].pc.np != p
  }

  /** holdingsleep, which callers check before they release a sleep lock. */
  predicate HoldingSleep(s: State, p: nat, l: nat) {
    p < |s.procs| && l < |s.locks| && s.locks[l].locked && s.locks[l].pid == s.procs[p].pid
  }

  ghost predicate Enabled(s: State, a: Action) {
    match a
    case SchedAcquire(c) => c < |s.cpus| && s.cpus[c].mode == Idle && LockFree(s)
    case SchedRelease(c) => c < |s.cpus| && s.cpus[c].mode == Picking
    case Dispatch(c, p) => c < |s.cpus| && s.cpus[c].mode == Picking && p < |s.procs| && s.procs[p].state == Runnable
    case Clear(c) => c < |s.cpus| && s.cpus[c].mode == Returning
    case Resume(c) => c < |s.cpus| && s.cpus[c].mode == Resuming && s.cpus[c].cur.Some? && Cur(s, c) < |s.procs|
    case Yield(c) => Executing(s, c) && LockFree(s) && s.procs[Cur(s, c)].pc == Normal
    case Alloc(c, np) => Executing(s, c) && LockFree(s) && s.procs[Cur(s, c)].pc == Normal
                         && np < |s.procs| && s.procs[np].state == Unused
    case ForkFail(c) => Executing(s, c) && Forks(s, Cur(s, c)) && !s.procs[Cur(s, c)].pc.owned
    case SetParent(c) => Executing(s, c) && Forks(s, Cur(s, c)) && !s.procs[Cur(s, c)].pc.owned
    case Launch(c) => Executing(s, c) && LockFree(s) && Forks(s, Cur(s, c)) && s.procs[Cur(s, c)].pc.owned
    case Exit(c) => Executing(s, c) && LockFree(s) && s.procs[Cur(s, c)].pc == Normal && Cur(s, c) != s.init
    case Wait(c) => Executing(s, c) && LockFree(s) && s.procs[Cur(s, c)].pc == Normal
    case Sleep(c, n) => Executing(s, c) && LockFree(s) && s.procs[Cur(s, c)].pc == Normal
    case Wakeup(c, n) => Executing(s, c) && LockFree(s) && s.procs[Cur(s, c)].pc == Normal
    case Kill(c, p) => Executing(s, c) && LockFree(s) && s.procs[Cur(s, c)].pc == Normal && p < |s.procs|
    case SpinAcquire(c, l) => Executing(s, c) && l < |s.locks| && s.locks[l].spin == None
                              && (s.procs[Cur(s, c)].pc == Normal || s.procs[Cur(s, c)].pc == Woken(l))
    case Take(c) => Executing(s, c) && s.procs[Cur(s, c)].pc.Testing? && s.procs[Cur(s, c)].pc.l < |s.locks|
                    && !s.locks[s.procs[Cur(s, c)].pc.l].locked
    case Fall(c) => Executing(s, c) && LockFree(s) && s.procs[Cur(s, c)].pc.Testing?
                    && s.procs[Cur(s, c)].pc.l < |s.locks| && s.locks[s.procs[Cur(s, c)].pc.l].locked
    case Land(c) => c < |s.cpus| && s.cpus[c].mode == Holding && s.cpus[c].cur.Some? && Cur(s, c) < |s.procs|
    case Release(c, l) => Executing(s, c) && s.procs[Cur(s, c)].pc == Normal && l < |s.locks| && s.locks[l].spin == None
                          && HoldingSleep(s, Cur(s, c), l)
    case Notify(c) => Executing(s, c) && LockFree(s) && s.procs[Cur(s, c)].pc.Releasing?
    case SpinDrop(c) => Executing(s, c) && s.procs[Cur(s, c)].pc.Released? && s.procs[Cur(s, c)].pc.l < |s.locks|
  }

  function ResumeProc(p: Proc): Proc {
    match p.pc
    case Slept(l) => p.(chan := None, pc := Woken(l))
    case SleptOther => p.(chan := None, pc := Normal)
    case _ => p.(pc := Normal)
  }

  ghost function Next(s: State, a: Action): State
    requires Enabled(s, a)
  {
    match a
    case SchedAcquire(c) => s.(cpus := s.cpus[c := s.cpus[c].(mode := Picking)])
    case SchedRelease(c) => s.(cpus := s.cpus[c := s.cpus[c].(mode := Idle)])
    case Dispatch(c, p) =>
      s.(cpus := s.cpus[c := Cpu(Resuming, Some(p))], procs := s.procs[p := s.procs[p].(state := Running)])
    case Clear(c) => s.(cpus := s.cpus[c := Cpu(Picking, None)])
    case Resume(c) =>
      if s.procs[Cur(s, c)].pc == Waiting then WaitScan(s, c) else Put(s, c, ResumeProc(s.procs[Cur(s, c)]), Exec)
    case Yield(c) => Put(s, c, s.procs[Cur(s, c)].(state := Runnable, pc := Yielded), Returning)
    case Alloc(c, np) =>
      var s' := Put(s, c, s.procs[Cur(s, c)].(pc := Forking(np, false)), Exec);
      s'.(procs := s'.procs[np := s.procs[np].(state := Embryo, pid := s.nextPid, pc := New)], nextPid := s.nextPid + 1)
    case ForkFail(c) =>
      var np := s.procs[Cur(s, c)].pc.np;
      var s' := Put(s, c, s.procs[Cur(s, c)].(pc := Normal), Exec);
      s'.(procs := s'.procs[np := s.procs[np].(state := Unused)])
    case SetParent(c) =>
      var np := s.procs[Cur(s, c)].pc.np;
      var s' := Put(s, c, s.procs[Cur(s, c)].(pc := Forking(np, true)), Exec);
      s'.(procs := s'.procs[np := s.procs[np].(parent := Some(Cur(s, c)))])
    case Launch(c) =>
      var np := s.procs[Cur(s, c)].pc.np;
      var s' := Put(s, c, s.procs[Cur(s, c)].(pc := Normal), Exec);
      s'.(procs := s'.procs[np := s.procs[np].(state := Runnable)])
    case Exit(c) =>
      s.(procs := ExitTable(s.procs, Cur(s, c), s.init), cpus := s.cpus[c := s.cpus[c].(mode := Returning)],
         exited := s.exited + {s.procs[Cur(s, c)].pid})
    case Wait(c) => WaitScan(s, c)
    case Sleep(c, n) =>
      Put(s, c, s.procs[Cur(s, c)].(state := Sleeping, chan := Some(OtherChan(n)), pc := SleptOther), Returning)
    case Wakeup(c, n) => s.(procs := WakeAll(s.procs, OtherChan(n)))
    case Kill(c, p) => s.(procs := s.procs[p := KillProc(s.procs[p])])
    case SpinAcquire(c, l) =>
      var s' := Put(s, c, s.procs[Cur(s, c)].(pc := Testing(l)), Exec);
      s'.(locks := s.locks[l := s.locks[l].(spin := Some(Cur(s, c)))])
    case Take(c) =>
      var l := s.procs[Cur(s, c)].pc.l;
      var s' := Put(s, c, s.procs[Cur(s, c)].(pc := Normal), Exec);
      var x := s.procs[Cur(s, c)].pid;
      s'.(locks := s.locks[l := Lock(true, None, x, s.locks[l].takers + {x})])
    case Fall(c) =>
      var l := s.procs[Cur(s, c)].pc.l;
      var s' := Put(s, c, s.procs[Cur(s, c)].(pc := Falling(l)), Holding);
      s'.(locks := s.locks[l := s.locks[l].(spin := None)])
    case Land(c) =>
      var p := s.procs[Cur(s, c)];
      if p.pc.Falling? then Put(s, c, p.(state := Sleeping, chan := Some(LockChan(p.pc.l)), pc := Slept(p.pc.l)),
          Returning)
      else s
    case Release(c, l) =>
      var s' := Put(s, c, s.procs[Cur(s, c)].(pc := Releasing(l)), Exec);
      var x := s.procs[Cur(s, c)].pid;
      s'.(locks := s.locks[l := Lock(false, Some(Cur(s, c)), 0, s.locks[l].takers - {x})])
    case Notify(c) =>
      var l := s.procs[Cur(s, c)].pc.l;
      var s' := s.(procs := WakeAll(s.procs, LockChan(l)));
      Put(s', c, s.procs[Cur(s, c)].(pc := Released(l)), Exec)
    case SpinDrop(c) =>
      var l := s.procs[Cur(s, c)].pc.l;
      var s' := Put(s, c, s.procs[Cur(s, c)].(pc := Normal), Exec);
      s'.(locks := s.locks[l := s.locks[l].(spin := None)])
  }

  // ---------------------------------------------- who runs where: invariant

  predicate ExecPc(pc: Pc) {
    pc == Normal || pc.Forking? || pc.Testing? || pc.Woken? || pc.Releasing? || pc.Released?
  }

  predicate ResumePc(pc: Pc) {
    pc == Yielded || pc == New || pc == Waiting || pc.Slept? || pc == SleptOther
  }

  predicate CpuOk(cpu: Cpu, procs: seq<Proc>) {
    if cpu.mode == Idle || cpu.mode == Picking then cpu.cur == None
    else
      && cpu.cur.Some? && cpu.cur.value < |procs|
      && var p := procs[cpu.cur.value];
         match cpu.mode
         case Resuming => p.state == Running && ResumePc(p.pc)
         case Exec => p.state == Running && ExecPc(p.pc)
         case Holding => p.state == Running && p.pc.Falling?
         case _ => p.state == Runnable || p.state == Sleeping || p.state == Zombie
  }

  predicate RunsOn(s: State, p: nat, c: nat) {
    c < |s.cpus| && s.cpus[c].cur == Some(p) && OnProc(s.cpus[c].mode)
  }

  ghost predicate RunInv(s: State) {
    && (forall c :: 0 <= c < |s.cpus| ==> CpuOk(s.cpus[c], s.procs))
    && (forall c, d :: 0 <= c < d < |s.cpus| && s.cpus[c].cur.Some? ==> s.cpus[c].cur != s.cpus[d].cur)
    && (forall c, d :: 0 <= c < d < |s.cpus| ==> !(Holds(s.cpus[c].mode) && Holds(s.cpus[d].mode)))
    && (forall p: nat :: p < |s.procs| && s.procs[p].state == Running ==> exists c: nat :: RunsOn(s, p, c))
  }

  /** A step by CPU c and process p keeps it, if other processes neither start nor stop running. */
  lemma RunStep(s: State, s': State, c: nat, p: nat)
    requires RunInv(s) && |s'.procs| == |s.procs| && |s'.cpus| == |s.cpus| && c < |s.cpus| && p < |s.procs|
    requires forall d :: 0 <= d < |s.cpus| && d != c ==> s'.cpus[d] == s.cpus[d]
    requires forall q: nat :: q < |s.procs| && q != p ==>
               && (s.procs[q].state == Running <==> s'.procs[q].state == Running)
               && (s.procs[q].state == Running ==> s'.procs[q].pc == s.procs[q].pc)
    requires forall d :: 0 <= d < |s.cpus| && d != c && s.cpus[d].mode == Returning ==>
               CpuOk(s'.cpus[d], s'.procs)
    requires s.cpus[c].cur == Some(p) || (s.cpus[c].cur == None && forall d :: 0 <= d < |s.cpus| ==>
             s.cpus[d].cur != Some(p))
    requires CpuOk(s'.cpus[c], s'.procs) && (s'.cpus[c].cur == Some(p) || s'.cpus[c].cur == None)
    requires s'.procs[p].state == Running ==> s'.cpus[c].cur == Some(p) && OnProc(s'.cpus[c].mode)
    requires Holds(s'.cpus[c].mode) ==> Holds(s.cpus[c].mode) || LockFree(s)
    ensures RunInv(s')
  {
    forall d | 0 <= d < |s.cpus|
      ensures CpuOk(s'.cpus[d], s'.procs)
    {
      if d != c { assert CpuOk(s.cpus[d], s.procs); }
    }
    forall q: nat | q < |s.procs| && s'.procs[q].state == Running
      ensures exists d: nat :: RunsOn(s', q, d)
    {
      if q == p {
        assert RunsOn(s', p, c);
      } else {
        var d: nat :| RunsOn(s, q, d);
        assert RunsOn(s', q, d);
      }
    }
  }

  /** What a process may see happen to another in one step: it neither starts nor stops running, and keeps its place. */
  predicate Bystander(p: Proc, p': Proc) {
    && (p.state == Running <==> p'.state == Running)
    && (p.state == Running ==> p'.pc == p.pc)
  }

  /** A step of the process on CPU c. Unless the table's lock is free, other processes keep their states. */
  lemma RunPut(s: State, s': State, c: nat)
    requires RunInv(s) && c < |s.cpus| && OnProc(s.cpus[c].mode)
    requires |s'.procs| == |s.procs| && |s'.cpus| == |s.cpus|
             && s'.cpus == s.cpus[c := s.cpus[c].(mode := s'.cpus[c].mode)]
    requires CpuOk(s.cpus[c], s.procs) ==> CpuOk(s'.cpus[c], s'.procs)
    requires forall q: nat :: q < |s.procs| && s.cpus[c].cur != Some(q) ==> Bystander(s.procs[q], s'.procs[q])
    requires LockFree(s) || Holds(s.cpus[c].mode) ||
             forall q: nat :: q < |s.procs| && s.cpus[c].cur != Some(q) && s.procs[q].state != Embryo ==>
               s'.procs[q].state == s.procs[q].state
    requires s.cpus[c].cur.Some? && Cur(s, c) < |s.procs| ==>
               (s'.procs[Cur(s, c)].state == Running ==> OnProc(s'.cpus[c].mode))
    requires s'.cpus[c].mode != Idle && s'.cpus[c].mode != Picking
    requires Holds(s'.cpus[c].mode) ==> Holds(s.cpus[c].mode) || LockFree(s)
    ensures RunInv(s')
  {
    assert CpuOk(s.cpus[c], s.procs);
    var p := Cur(s, c);
    forall d | 0 <= d < |s.cpus| && d != c && s.cpus[d].mode == Returning
      ensures CpuOk(s'.cpus[d], s'.procs)
    {
      assert CpuOk(s.cpus[d], s.procs);
      assert Holds(s.cpus[d].mode);
      assert s.cpus[d].cur != s.cpus[c].cur;
    }
    RunStep(s, s', c, p);
  }

  lemma RunSched(s: State, a: Action)
    requires RunInv(s) && Enabled(s, a) && (a.SchedAcquire? || a.SchedRelease? || a.Clear?)
    ensures RunInv(Next(s, a))
  {
    var s', c := Next(s, a), a.c;
    assert CpuOk(s.cpus[c], s.procs);
    forall d | 0 <= d < |s.cpus|
      ensures CpuOk(s'.cpus[d], s'.procs)
    {
      assert CpuOk(s.cpus[d], s.procs);
    }
    forall p: nat | p < |s.procs| && s.procs[p].state == Running
      ensures exists d: nat :: RunsOn(s', p, d)
    {
      var d: nat :| RunsOn(s, p, d);
      assert RunsOn(s', p, d);
    }
  }

  /** What state a process is in tells where its code can be. */
  predicate PcOk(p: Proc, i: nat) {
    match p.state
    case Runnable => ResumePc(p.pc)
    case Sleeping =>
      || (p.pc == Waiting && p.chan == Some(ProcChan(i)))
      || (p.pc.Slept? && p.chan == Some(LockChan(p.pc.l)))
      || (p.pc == SleptOther && p.chan.Some? && p.chan.value.OtherChan?)
    case Running => p.pc != Dead
    case Zombie => p.pc == Dead
    case Embryo => p.pc == New
    case Unused => p.pc == New || p.pc == Dead
  }

  ghost predicate PcInv(s: State) {
    forall p: nat :: p < |s.procs| ==> PcOk(s.procs[p], p)
  }

  lemma RunDispatch(s: State, c: nat, p: nat)
    requires RunInv(s) && PcInv(s) && Enabled(s, Dispatch(c, p))
    ensures RunInv(Next(s, Dispatch(c, p)))
  {
    var s' := Next(s, Dispatch(c, p));
    assert CpuOk(s.cpus[c], s.procs) && PcOk(s.procs[p], p);
    forall d | 0 <= d < |s.cpus|
      ensures s.cpus[d].cur != Some(p)
    {
      assert CpuOk(s.cpus[d], s.procs);
      assert d != c ==> !Holds(s.cpus[d].mode);
    }
    RunStep(s, s', c, p);
  }

  /** Steps that change only the process itself, its CPU and a lock. */
  predicate Own(a: Action) {
    a.Yield? || a.Sleep? || a.SpinAcquire? || a.Take? || a.Fall? || a.Land? || a.Release? || a.SpinDrop?
  }

  lemma RunOwn(s: State, a: Action)
    requires RunInv(s) && Enabled(s, a) && Own(a)
    ensures RunInv(Next(s, a))
  {
    hide RunInv;
    CurOk(s, a.c);
    RunPut(s, Next(s, a), a.c);
  }

  lemma CurOk(s: State, c: nat)
    requires RunInv(s) && c < |s.cpus|
    ensures CpuOk(s.cpus[c], s.procs)
  {
  }

  lemma RunResume(s: State, c: nat)
    requires RunInv(s) && Enabled(s, Resume(c)) && s.procs[Cur(s, c)].pc != Waiting
    ensures RunInv(Next(s, Resume(c)))
  {
    hide RunInv;
    CurOk(s, c);
    RunPut(s, Next(s, Resume(c)), c);
  }

  lemma RunWait(s: State, c: nat)
    requires RunInv(s) && c < |s.cpus| && OnProc(s.cpus[c].mode) && s.cpus[c].cur.Some? && Cur(s, c) < |s.procs|
    requires LockFree(s) || Holds(s.cpus[c].mode)
    ensures RunInv(WaitScan(s, c))
  {
    hide RunInv;
    CurOk(s, c);
    RunPut(s, WaitScan(s, c), c);
  }

  lemma RunFork(s: State, a: Action)
    requires RunInv(s) && ForkInv(s) && Enabled(s, a) && ForkAction(a)
    ensures RunInv(Next(s, a))
  {
    hide RunInv;
    CurOk(s, a.c);
    assert ForkOk(s, Cur(s, a.c));
    RunPut(s, Next(s, a), a.c);
  }

  lemma RunOthers(s: State, a: Action)
    requires RunInv(s) && Enabled(s, a) && (a.Exit? || a.Wakeup? || a.Notify? || a.Kill?)
    ensures RunInv(Next(s, a))
  {
    hide RunInv;
    CurOk(s, a.c);
    RunPut(s, Next(s, a), a.c);
  }

  /** The child a process is forking is an embryo, which has its parent once it is owned. */
  predicate ForkOk(s: State, p: nat)
    requires p < |s.procs|
  {
    s.procs[p].pc.Forking? ==>
      var np := s.procs[p].pc.np;
      && s.procs[p].state == Running && np < |s.procs| && np != p && s.procs[np].state == Embryo
      && (s.procs[np].parent == if s.procs[p].pc.owned then Some(p) else None)
  }

  /** Every embryo is one process's child to be. */
  ghost predicate ForkInv(s: State) {
    && (forall p: nat :: p < |s.procs| ==> ForkOk(s, p))
    && (forall p: nat, q: nat :: p < |s.procs| && q < |s.procs| && SameChild(s.procs[p].pc, s.procs[q].pc) ==> p == q)
  }

  predicate SameChild(a: Pc, b: Pc) {
    a.Forking? && b.Forking? && a.np == b.np
  }

  // --------------------------------------------- where the code is: invariant

  predicate ForkAction(a: Action) {
    a.Alloc? || a.ForkFail? || a.SetParent? || a.Launch?
  }

  /** Steps that leave every process as it is, or only make one run. */
  predicate CpuOnly(a: Action) {
    a.SchedAcquire? || a.SchedRelease? || a.Clear? || a.Dispatch?
  }

  /** The other steps, apart from exit and from scans by wait. */
  predicate Reaching(s: State, a: Action) {
    ForkAction(a) || a.Wakeup? || a.Notify? || a.Kill? || ResumesPlain(s, a)
  }

  predicate ResumesPlain(s: State, a: Action) {
    a.Resume? && a.c < |s.cpus| && s.cpus[a.c].cur.Some? && Cur(s, a.c) < |s.procs|
        && s.procs[Cur(s, a.c)].pc != Waiting
  }

  /** What a step of the scheduler, or of a process that touches no other, does to a process. */
  predicate OwnChange(p: Proc, p': Proc) {
    || p' == p
    || (p.state == Runnable && p' == p.(state := Running))
    || (&& p.state == Running && !p.pc.Forking? && !p'.pc.Forking? && p'.pc != Dead
        && p'.parent == p.parent && p'.pid == p.pid
        && (|| p'.state == Running
            || (p'.state == Runnable && p'.pc == Yielded)
            || (p'.state == Sleeping && p'.pc.Slept? && p'.chan == Some(LockChan(p'.pc.l)))
            || (p'.state == Sleeping && p'.pc == SleptOther && p'.chan.Some? && p'.chan.value.OtherChan?)))
  }

  lemma OwnAt(s: State, a: Action, p: nat)
    requires RunInv(s) && Enabled(s, a) && (Own(a) || CpuOnly(a)) && p < |s.procs|
    ensures |Next(s, a).procs| == |s.procs| && OwnChange(s.procs[p], Next(s, a).procs[p])
  {
    hide RunInv;
    CurOk(s, a.c);
  }

  /** The parts of the state that are there for good. */
  lemma Shape(s: State, a: Action)
    requires Enabled(s, a) && (Own(a) || CpuOnly(a) || Reaching(s, a))
    ensures |Next(s, a).procs| == |s.procs| && |Next(s, a).locks| == |s.locks| && Next(s, a).init == s.init
  {
  }

  lemma OwnAll(s: State, a: Action)
    requires RunInv(s) && Enabled(s, a) && (Own(a) || CpuOnly(a))
    ensures |Next(s, a).procs| == |s.procs|
    ensures forall p: nat :: p < |s.procs| ==> OwnChange(s.procs[p], Next(s, a).procs[p])
  {
    hide RunInv, Next, Enabled, OwnChange;
    Shape(s, a);
    forall p: nat | p < |s.procs|
      ensures OwnChange(s.procs[p], Next(s, a).procs[p])
    {
      OwnAt(s, a, p);
    }
  }

  lemma PcOwn(s: State, a: Action)
    requires RunInv(s) && PcInv(s) && Enabled(s, a) && (Own(a) || CpuOnly(a))
    ensures PcInv(Next(s, a))
  {
    hide RunInv, Next, Enabled;
    OwnAll(s, a);
    var s' := Next(s, a);
    forall p: nat | p < |s'.procs|
      ensures PcOk(s'.procs[p], p)
    {
      assert PcOk(s.procs[p], p) && OwnChange(s.procs[p], s'.procs[p]);
    }
  }

  lemma PcForkAt(s: State, a: Action, p: nat)
    requires RunInv(s) && PcInv(s) && ForkInv(s) && Enabled(s, a) && ForkAction(a) && p < |s.procs|
    ensures |Next(s, a).procs| == |s.procs| && PcOk(Next(s, a).procs[p], p)
  {
    hide RunInv;
    CurOk(s, a.c);
    assert ForkOk(s, Cur(s, a.c)) && PcOk(s.procs[p], p);
  }

  lemma PcOthersAt(s: State, a: Action, p: nat)
    requires RunInv(s) && PcInv(s) && Enabled(s, a) && Reaching(s, a) && !ForkAction(a) && p < |s.procs|
    ensures |Next(s, a).procs| == |s.procs| && PcOk(Next(s, a).procs[p], p)
  {
    hide RunInv;
    CurOk(s, a.c);
    assert PcOk(s.procs[p], p);
  }

  lemma PcReaching(s: State, a: Action)
    requires RunInv(s) && PcInv(s) && ForkInv(s) && Enabled(s, a) && Reaching(s, a)
    ensures PcInv(Next(s, a))
  {
    hide RunInv, ForkInv, Enabled, Next, PcOk;
    forall p: nat | p < |s.procs|
      ensures |Next(s, a).procs| == |s.procs| && PcOk(Next(s, a).procs[p], p)
    {
      if ForkAction(a) { PcForkAt(s, a, p); } else { PcOthersAt(s, a, p); }
    }
    Shape(s, a);
  }

  lemma PcWait(s: State, c: nat)
    requires PcInv(s) && c < |s.cpus| && s.cpus[c].cur.Some? && Cur(s, c) < |s.procs|
             && s.procs[Cur(s, c)].state == Running
    ensures PcInv(WaitScan(s, c))
  {
    var s' := WaitScan(s, c);
    forall p: nat | p < |s'.procs|
      ensures PcOk(s'.procs[p], p)
    {
      assert PcOk(s.procs[p], p);
    }
  }

  lemma PcExit(s: State, c: nat)
    requires RunInv(s) && PcInv(s) && Enabled(s, Exit(c))
    ensures PcInv(Next(s, Exit(c)))
  {
    hide RunInv;
    var s' := Next(s, Exit(c));
    forall p: nat | p < |s'.procs|
      ensures PcOk(s'.procs[p], p)
    {
      assert PcOk(s.procs[p], p);
    }
  }

  // ------------------------------------------------------- forking: invariant

  /** Nothing about forks in progress changes. */
  lemma ForkSame(s: State, s': State)
    requires ForkInv(s) && |s'.procs| == |s.procs|
    requires forall p: nat :: p < |s.procs| ==> ForkBystander(s.procs[p], s'.procs[p])
    ensures ForkInv(s')
  {
    forall p: nat | p < |s.procs|
      ensures ForkOk(s', p)
    {
      assert ForkOk(s, p);
    }
  }

  predicate ForkBystander(p: Proc, p': Proc) {
    && (p.pc.Forking? || p'.pc.Forking? ==> p'.pc == p.pc && p'.state == p.state)
    && (p.state == Embryo ==> p'.state == Embryo && p'.parent == p.parent)
  }

  lemma ForkOwn(s: State, a: Action)
    requires ForkInv(s) && RunInv(s) && Enabled(s, a) && (Own(a) || CpuOnly(a))
    ensures ForkInv(Next(s, a))
  {
    hide RunInv, Next, Enabled;
    OwnAll(s, a);
    var s' := Next(s, a);
    forall p: nat | p < |s.procs|
      ensures ForkBystander(s.procs[p], s'.procs[p])
    {
      assert ForkOk(s, p) && OwnChange(s.procs[p], s'.procs[p]);
    }
    ForkSame(s, s');
  }

  lemma ForkReaching(s: State, a: Action)
    requires ForkInv(s) && RunInv(s) && PcInv(s) && Enabled(s, a) && Reaching(s, a) && !ForkAction(a)
    ensures ForkInv(Next(s, a))
  {
    hide RunInv;
    CurOk(s, a.c);
    var s' := Next(s, a);
    forall p: nat | p < |s.procs|
      ensures ForkBystander(s.procs[p], s'.procs[p])
    {
      assert PcOk(s.procs[p], p) && ForkOk(s, p);
    }
    ForkSame(s, s');
  }

  lemma ForkWait(s: State, c: nat)
    requires ForkInv(s) && c < |s.cpus| && s.cpus[c].cur.Some? && Cur(s, c) < |s.procs|
    requires s.procs[Cur(s, c)].state == Running && !s.procs[Cur(s, c)].pc.Forking?
    ensures ForkInv(WaitScan(s, c))
  {
    var s' := WaitScan(s, c);
    forall p: nat | p < |s.procs|
      ensures ForkBystander(s.procs[p], s'.procs[p])
    {
      assert ForkOk(s, p);
    }
    ForkSame(s, s');
  }

  lemma ForkExit(s: State, c: nat)
    requires ForkInv(s) && RunInv(s) && KinInv(s) && Enabled(s, Exit(c))
    ensures ForkInv(Next(s, Exit(c)))
  {
    hide RunInv, ExitTable;
    CurOk(s, c);
    var s' := Next(s, Exit(c));
    forall p: nat | p < |s.procs|
      ensures ForkBystander(s.procs[p], s'.procs[p])
    {
      assert ForkOk(s, p) && KinOk(s, p);
      ExitAt(s.procs, Cur(s, c), s.init, p);
    }
    ForkSame(s, s');
  }

  lemma AllocForkOk(s: State, a: Action, p: nat)
    requires ForkInv(s) && RunInv(s) && PcInv(s) && KinInv(s) && Enabled(s, a) && a.Alloc? && p < |s.procs|
    ensures ForkOk(Next(s, a), p)
  {
    hide RunInv;
    CurOk(s, a.c);
    assert ForkOk(s, p) && PcOk(s.procs[p], p) && KinOk(s, a.np);
  }

  lemma ForkStepOk(s: State, a: Action, p: nat)
    requires ForkInv(s) && RunInv(s) && PcInv(s) && Enabled(s, a) && ForkAction(a) && !a.Alloc? && p < |s.procs|
    ensures ForkOk(Next(s, a), p)
  {
    hide RunInv;
    CurOk(s, a.c);
    var me := Cur(s, a.c);
    assert ForkOk(s, p) && ForkOk(s, me) && PcOk(s.procs[p], p);
    if p != me && s.procs[p].pc.Forking? { assert !SameChild(s.procs[p].pc, s.procs[me].pc); }
  }

  lemma ForkStepOne(s: State, a: Action, p: nat, q: nat)
    requires ForkInv(s) && RunInv(s) && PcInv(s) && Enabled(s, a) && ForkAction(a) && p < |s.procs| && q < |s.procs|
    ensures SameChild(Next(s, a).procs[p].pc, Next(s, a).procs[q].pc) ==> p == q
  {
    hide RunInv;
    CurOk(s, a.c);
    assert ForkOk(s, p) && ForkOk(s, q) && PcOk(s.procs[p], p) && PcOk(s.procs[q], q);
    assert SameChild(s.procs[p].pc, s.procs[q].pc) ==> p == q;
  }

  lemma ForkSteps(s: State, a: Action)
    requires ForkInv(s) && RunInv(s) && PcInv(s) && KinInv(s) && Enabled(s, a) && ForkAction(a)
    ensures ForkInv(Next(s, a))
  {
    hide RunInv, PcInv, KinInv, ForkOk;
    var s' := Next(s, a);
    forall p: nat | p < |s.procs| ensures ForkOk(s', p) {
      if a.Alloc? { AllocForkOk(s, a, p); } else { ForkStepOk(s, a, p); }
    }
    forall p: nat, q: nat | p < |s.procs| && q < |s.procs| && SameChild(s'.procs[p].pc, s'.procs[q].pc)
      ensures p == q
    {
      ForkStepOne(s, a, p, q);
    }
  }

  // ------------------------------------------------------- parents: invariant

  predicate Live(p: Proc) {
    p.state == Runnable || p.state == Running || p.state == Sleeping
  }

  /** Every process in use, other than init, has another, live process for its parent. */
  predicate KinOk(s: State, q: nat)
    requires q < |s.procs|
  {
    var p := s.procs[q];
    && (p.state == Unused ==> p.parent == None)
    && ((Live(p) || p.state == Zombie) && q != s.init ==>
          p.parent.Some? && p.parent.value != q && p.parent.value < |s.procs| && Live(s.procs[p.parent.value]))
    && (p.state == Embryo && p.parent.Some? ==>
          p.parent.value < |s.procs| && s.procs[p.parent.value].pc == Forking(q, true))
  }

  /** A process asleep in wait. */
  predicate AsleepInWait(p: Proc, i: nat) {
    p.state == Sleeping && p.chan == Some(ProcChan(i))
  }

  ghost predicate KinInv(s: State) {
    && s.init < |s.procs| && Live(s.procs[s.init])
    && (forall q: nat :: q < |s.procs| ==> KinOk(s, q))
    && (forall p: nat, q: nat :: p < |s.procs| && q < |s.procs| && AsleepInWait(s.procs[p], p) ==>
          !ZombieChild(s.procs[q], p))
  }

  /** A step that moves no child, kills nobody and puts nobody to sleep in wait. */
  predicate KinBystander(p: Proc, p': Proc, i: nat) {
    && p'.parent == p.parent
    && (Live(p) <==> Live(p')) && (p.state == Zombie <==> p'.state == Zombie)
    && (p'.state == Unused ==> p.state == Unused || p.parent == None)
    && (p.state == Embryo || p'.state == Embryo ==> p'.state != Embryo || p.state == Embryo || p.parent == None)
    && (AsleepInWait(p', i) ==> AsleepInWait(p, i))
    && (p.pc.Forking? && p.pc.owned ==> p'.pc == p.pc)
  }

  lemma KinSame(s: State, s': State)
    requires KinInv(s) && |s'.procs| == |s.procs| && s'.init == s.init
    requires forall p: nat :: p < |s.procs| ==> KinBystander(s.procs[p], s'.procs[p], p)
    ensures KinInv(s')
  {
    forall q: nat | q < |s.procs|
      ensures KinOk(s', q)
    {
      assert KinOk(s, q) && KinBystander(s.procs[q], s'.procs[q], q);
    }
  }

  lemma KinOwn(s: State, a: Action)
    requires KinInv(s) && RunInv(s) && PcInv(s) && Enabled(s, a) && (Own(a) || CpuOnly(a))
    ensures KinInv(Next(s, a))
  {
    hide RunInv, KinInv, Next, Enabled;
    OwnAll(s, a);
    Shape(s, a);
    var s' := Next(s, a);
    forall p: nat | p < |s.procs|
      ensures KinBystander(s.procs[p], s'.procs[p], p)
    {
      assert PcOk(s.procs[p], p) && OwnChange(s.procs[p], s'.procs[p]);
    }
    KinSame(s, s');
  }

  lemma KinReaching(s: State, a: Action)
    requires KinInv(s) && ForkInv(s) && RunInv(s) && PcInv(s) && Enabled(s, a)
    requires Reaching(s, a) && !ForkAction(a)
    ensures KinInv(Next(s, a))
  {
    hide RunInv, KinInv, ForkInv, KinOk;
    CurOk(s, a.c);
    var s' := Next(s, a);
    forall p: nat | p < |s.procs|
      ensures KinBystander(s.procs[p], s'.procs[p], p)
    {
      assert PcOk(s.procs[p], p);
    }
    KinSame(s, s');
  }

  lemma KinAlloc(s: State, a: Action)
    requires KinInv(s) && ForkInv(s) && RunInv(s) && PcInv(s) && Enabled(s, a) && (a.Alloc? || a.ForkFail?)
    ensures KinInv(Next(s, a))
  {
    hide RunInv;
    CurOk(s, a.c);
    var s' := Next(s, a);
    assert ForkOk(s, Cur(s, a.c));
    forall p: nat | p < |s.procs|
      ensures KinBystander(s.procs[p], s'.procs[p], p)
    {
      assert KinOk(s, p) && PcOk(s.procs[p], p);
    }
    KinSame(s, s');
  }

  lemma KinForkAt(s: State, a: Action, q: nat)
    requires KinInv(s) && ForkInv(s) && RunInv(s) && PcInv(s) && Enabled(s, a) && (a.SetParent? || a.Launch?)
    requires q < |s.procs|
    ensures |Next(s, a).procs| == |s.procs| && KinOk(Next(s, a), q)
  {
    hide RunInv;
    CurOk(s, a.c);
    assert ForkOk(s, Cur(s, a.c)) && KinOk(s, q);
  }

  lemma KinForkAsleep(s: State, a: Action, p: nat, q: nat)
    requires KinInv(s) && ForkInv(s) && RunInv(s) && PcInv(s) && Enabled(s, a) && (a.SetParent? || a.Launch?)
    requires p < |s.procs| && q < |s.procs|
    ensures |Next(s, a).procs| == |s.procs| && Next(s, a).init == s.init
    ensures AsleepInWait(Next(s, a).procs[p], p) ==> !ZombieChild(Next(s, a).procs[q], p)
    ensures Live(s.procs[p]) ==> Live(Next(s, a).procs[p])
  {
    hide RunInv;
    CurOk(s, a.c);
    assert ForkOk(s, Cur(s, a.c));
  }

  lemma KinFork(s: State, a: Action)
    requires KinInv(s) && ForkInv(s) && RunInv(s) && PcInv(s) && Enabled(s, a) && (a.SetParent? || a.Launch?)
    ensures KinInv(Next(s, a))
  {
    hide RunInv, ForkInv, PcInv, KinOk, Enabled, Next;
    var s' := Next(s, a);
    KinForkAsleep(s, a, s.init, s.init);
    forall q: nat | q < |s.procs|
      ensures KinOk(s', q)
    {
      KinForkAt(s, a, q);
    }
    forall p: nat, q: nat | p < |s.procs| && q < |s.procs| && AsleepInWait(s'.procs[p], p)
      ensures !ZombieChild(s'.procs[q], p)
    {
      KinForkAsleep(s, a, p, q);
    }
  }

  lemma KinWait(s: State, c: nat)
    requires KinInv(s) && c < |s.cpus| && s.cpus[c].cur.Some? && Cur(s, c) < |s.procs|
    requires s.procs[Cur(s, c)].state == Running && !s.procs[Cur(s, c)].pc.Forking?
    ensures KinInv(WaitScan(s, c))
  {
    var s', me := WaitScan(s, c), Cur(s, c);
    forall q: nat | q < |s.procs|
      ensures KinOk(s', q)
    {
      assert KinOk(s, q);
    }
    forall p: nat, q: nat | p < |s.procs| && q < |s.procs| && AsleepInWait(s'.procs[p], p)
      ensures !ZombieChild(s'.procs[q], p)
    {
      assert p != me ==> AsleepInWait(s.procs[p], p);
    }
  }

  /** What exit does to each process: the exiting one becomes a zombie, sleepers may wake, children change parent. */
  predicate ExitBystander(p: Proc, p': Proc, me: nat, init: nat) {
    && (p'.state == p.state || (p.state == Sleeping && p'.state == Runnable))
    && p'.parent == (if p.parent == Some(me) then Some(init) else p.parent)
    && p'.pc == p.pc && p'.chan == p.chan && p'.pid == p.pid
  }

  lemma ExitAt(procs: seq<Proc>, me: nat, init: nat, q: nat)
    requires me < |procs| && q < |procs|
    ensures var r := ExitTable(procs, me, init);
            if q == me then
              && r[q].state == Zombie && r[q].pc == Dead && r[q].pid == procs[q].pid
              && r[q].parent == (if procs[q].parent == Some(me) then Some(init) else procs[q].parent)
            else ExitBystander(procs[q], r[q], me, init)
  {
  }

  lemma KinExitOk(s: State, c: nat, q: nat)
    requires KinInv(s) && RunInv(s) && Enabled(s, Exit(c)) && q < |s.procs|
    ensures KinOk(Next(s, Exit(c)), q)
  {
    hide RunInv, ExitTable;
    CurOk(s, c);
    var me := Cur(s, c);
    assert KinOk(s, q);
    ExitAt(s.procs, me, s.init, q);
    ExitAt(s.procs, me, s.init, s.init);
    if s.procs[q].parent.Some? && s.procs[q].parent.value < |s.procs| {
      ExitAt(s.procs, me, s.init, s.procs[q].parent.value);
    }
  }

  lemma KinExit(s: State, c: nat)
    requires KinInv(s) && RunInv(s) && Enabled(s, Exit(c))
    ensures KinInv(Next(s, Exit(c)))
  {
    hide RunInv, ExitTable, KinOk;
    var s', me := Next(s, Exit(c)), Cur(s, c);
    ExitAt(s.procs, me, s.init, s.init);
    forall q: nat | q < |s.procs| ensures KinOk(s', q) { KinExitOk(s, c, q); }
    forall p: nat, q: nat | p < |s.procs| && q < |s.procs| && AsleepInWait(s'.procs[p], p)
      ensures !ZombieChild(s'.procs[q], p)
    {
      ExitWakes(s, c, p, q);
    }
  }

  /** Exit wakes the parent, and init if it inherits a zombie. */
  lemma ExitWakesAt(procs: seq<Proc>, me: nat, init: nat, p: nat, q: nat)
    requires me < |procs| && p < |procs| && q < |procs| && procs[me].parent.Some?
    requires AsleepInWait(ExitTable(procs, me, init)[p], p)
    ensures AsleepInWait(procs[p], p) && procs[me].parent != Some(p)
    ensures ZombieChild(procs[q], me) ==> p != init
  {
    var a := WakeAll(procs, ProcChan(procs[me].parent.value));
    if ZombieChild(procs[q], me) { assert ZombieChild(a[q], me) && HasZombie(a, me); }
  }

  /** Whoever exit gives a zombie to is awake afterwards. */
  lemma ExitWakes(s: State, c: nat, p: nat, q: nat)
    requires KinInv(s) && RunInv(s) && Enabled(s, Exit(c)) && p < |s.procs| && q < |s.procs|
    requires AsleepInWait(Next(s, Exit(c)).procs[p], p)
    ensures !ZombieChild(Next(s, Exit(c)).procs[q], p)
  {
    hide RunInv, ExitTable;
    CurOk(s, c);
    var me := Cur(s, c);
    assert KinOk(s, me) && KinOk(s, q);
    ExitWakesAt(s.procs, me, s.init, p, q);
    ExitAt(s.procs, me, s.init, q);
  }

  // --------------------------------------------------- sleep locks: invariant

  /** The process is inside l's spinlock. */
  predicate Spins(p: Proc, l: nat) {
    p.pc == Testing(l) || p.pc == Releasing(l) || p.pc == Released(l)
  }

  /** The process is asleep on l, or has let go of l's spinlock to sleep on it. */
  predicate Sleeper(p: Proc, l: nat) {
    (p.state == Sleeping && p.chan == Some(LockChan(l))) || p.pc == Falling(l)
  }

  /** Some process has unlocked l and has yet to wake its sleepers. */
  predicate WakeupDue(s: State, l: nat)
    requires l < |s.locks|
  {
    s.locks[l].spin.Some? && s.locks[l].spin.value < |s.procs| && s.procs[s.locks[l].spin.value].pc == Releasing(l)
  }

  /** A process inside l's spinlock is the one that holds it. */
  predicate SpinHeld(s: State, p: nat, l: nat)
    requires p < |s.procs|
  {
    Spins(s.procs[p], l) ==> l < |s.locks| && s.locks[l].spin == Some(p)
  }

  predicate SpinHolder(s: State, l: nat)
    requires l < |s.locks|
  {
    s.locks[l].spin.Some? ==> s.locks[l].spin.value < |s.procs| && Spins(s.procs[s.locks[l].spin.value], l)
  }

  /** If l is unlocked while p sleeps on it, then a wakeup is due. */
  predicate NotForgotten(s: State, p: nat, l: nat)
    requires p < |s.procs| && l < |s.locks|
  {
    Sleeper(s.procs[p], l) && !s.locks[l].locked ==> WakeupDue(s, l)
  }

  ghost predicate SpinInv(s: State) {
    && (forall p: nat, l: nat :: p < |s.procs| ==> SpinHeld(s, p, l))
    && (forall l: nat :: l < |s.locks| ==> SpinHolder(s, l))
    && (forall p: nat, l: nat :: p < |s.procs| && l < |s.locks| ==> NotForgotten(s, p, l))
  }

  /** The process neither enters nor leaves a spinlock, nor starts to sleep on a lock. */
  predicate SpinBystander(p: Proc, p': Proc) {
    && (p.pc.Testing? || p.pc.Releasing? || p.pc.Released? || p'.pc.Testing? || p'.pc.Releasing? || p'.pc.Released? ==>
          p'.pc == p.pc)
    && (p'.pc.Falling? ==> p'.pc == p.pc)
    && (p'.state == Sleeping && p'.chan.Some? && p'.chan.value.LockChan? ==>
          (p.state == Sleeping && p.chan == p'.chan) || p.pc == Falling(p'.chan.value.l))
  }

  lemma SpinSame(s: State, s': State)
    requires SpinInv(s) && |s'.procs| == |s.procs| && s'.locks == s.locks
    requires forall p: nat :: p < |s.procs| ==> SpinBystander(s.procs[p], s'.procs[p])
    ensures SpinInv(s')
  {
    forall p: nat, l: nat | p < |s.procs|
      ensures SpinHeld(s', p, l)
    {
      assert SpinHeld(s, p, l);
    }
    forall l: nat | l < |s.locks|
      ensures SpinHolder(s', l)
    {
      assert SpinHolder(s, l);
    }
    forall p: nat, l: nat | p < |s.procs| && l < |s.locks|
      ensures NotForgotten(s', p, l)
    {
      assert NotForgotten(s, p, l);
    }
  }

  lemma SpinPlain(s: State, a: Action)
    requires SpinInv(s) && RunInv(s) && PcInv(s) && Enabled(s, a)
    requires CpuOnly(a) || a.Yield? || a.Sleep? || a.Land? || a.Wakeup? || a.Kill? || ResumesPlain(s, a)
    ensures SpinInv(Next(s, a))
  {
    hide RunInv, SpinInv;
    CurOk(s, a.c);
    var s' := Next(s, a);
    forall p: nat | p < |s.procs|
      ensures SpinBystander(s.procs[p], s'.procs[p])
    {
      assert PcOk(s.procs[p], p);
    }
    SpinSame(s, s');
  }

  lemma SpinFork(s: State, a: Action)
    requires SpinInv(s) && RunInv(s) && PcInv(s) && ForkInv(s) && Enabled(s, a) && ForkAction(a)
    ensures SpinInv(Next(s, a))
  {
    hide RunInv, SpinInv;
    CurOk(s, a.c);
    var s' := Next(s, a);
    assert ForkOk(s, Cur(s, a.c));
    forall p: nat | p < |s.procs|
      ensures SpinBystander(s.procs[p], s'.procs[p])
    {
      assert PcOk(s.procs[p], p);
    }
    SpinSame(s, s');
  }

  lemma SpinWait(s: State, c: nat)
    requires SpinInv(s) && PcInv(s) && c < |s.cpus| && s.cpus[c].cur.Some? && Cur(s, c) < |s.procs|
    requires s.procs[Cur(s, c)].pc == Normal || s.procs[Cur(s, c)].pc == Waiting
    ensures SpinInv(WaitScan(s, c))
  {
    hide SpinInv;
    var s' := WaitScan(s, c);
    forall p: nat | p < |s.procs|
      ensures SpinBystander(s.procs[p], s'.procs[p])
    {
      assert PcOk(s.procs[p], p);
    }
    SpinSame(s, s');
  }

  lemma SpinExit(s: State, c: nat)
    requires SpinInv(s) && Enabled(s, Exit(c))
    ensures SpinInv(Next(s, Exit(c)))
  {
    hide SpinInv, ExitTable;
    var s' := Next(s, Exit(c));
    forall p: nat | p < |s.procs|
      ensures SpinBystander(s.procs[p], s'.procs[p])
    {
      ExitAt(s.procs, Cur(s, c), s.init, p);
    }
    SpinSame(s, s');
  }

  /** The steps on one lock l by process me. */
  lemma SpinLocal(s: State, s': State, me: nat, l: nat)
    requires SpinInv(s) && |s'.procs| == |s.procs| && me < |s.procs| && l < |s.locks|
    requires |s'.locks| == |s.locks| && s'.locks == s.locks[l := s'.locks[l]]
    requires forall q: nat :: q < |s.procs| && q != me ==> SpinBystander(s.procs[q], s'.procs[q])
    requires s.locks[l].spin == None || s.locks[l].spin == Some(me)
    requires s'.locks[l].spin == None || s'.locks[l].spin == Some(me)
    requires s'.locks[l].spin == Some(me) <==> Spins(s'.procs[me], l)
    requires forall k: nat :: k != l ==> !Spins(s.procs[me], k) && !Spins(s'.procs[me], k)
    requires forall k: nat :: Sleeper(s'.procs[me], k) ==> k == l && s'.locks[l].locked
    requires !s'.locks[l].locked ==> WakeupDue(s', l) || forall q: nat :: q < |s.procs| ==> !Sleeper(s'.procs[q], l)
    ensures SpinInv(s')
  {
    forall p: nat, k: nat | p < |s.procs|
      ensures SpinHeld(s', p, k)
    {
      assert SpinHeld(s, p, k);
    }
    forall k: nat | k < |s.locks|
      ensures SpinHolder(s', k)
    {
      assert SpinHolder(s, k);
    }
    forall p: nat, k: nat | p < |s.procs| && k < |s.locks|
      ensures NotForgotten(s', p, k)
    {
      assert NotForgotten(s, p, k) && SpinHolder(s, k);
    }
  }

  /** When the table's lock is free nobody is halfway into sleep. */
  lemma NoneFalling(s: State, q: nat)
    requires RunInv(s) && PcInv(s) && LockFree(s) && q < |s.procs|
    ensures !s.procs[q].pc.Falling?
  {
    assert PcOk(s.procs[q], q);
    if s.procs[q].state == Running {
      var c: nat :| RunsOn(s, q, c);
      assert CpuOk(s.cpus[c], s.procs);
    }
  }

  lemma SpinAcquireDrop(s: State, a: Action)
    requires SpinInv(s) && RunInv(s) && PcInv(s) && Enabled(s, a) && (a.SpinAcquire? || a.SpinDrop?)
    ensures SpinInv(Next(s, a))
  {
    hide RunInv;
    CurOk(s, a.c);
    var me := Cur(s, a.c);
    var s', l := Next(s, a), if a.SpinAcquire? then a.l else s.procs[me].pc.l;
    assert SpinHeld(s, me, l) && PcOk(s.procs[me], me);
    if !s.locks[l].locked {
      forall q: nat | q < |s.procs|
        ensures !Sleeper(s'.procs[q], l)
      {
        assert NotForgotten(s, q, l);
      }
    }
    SpinLocal(s, s', me, l);
  }

  lemma SpinTakeFall(s: State, a: Action)
    requires SpinInv(s) && RunInv(s) && PcInv(s) && Enabled(s, a) && (a.Take? || a.Fall?)
    ensures SpinInv(Next(s, a))
  {
    hide RunInv;
    CurOk(s, a.c);
    var me := Cur(s, a.c);
    var l := s.procs[me].pc.l;
    assert SpinHeld(s, me, l) && PcOk(s.procs[me], me);
    SpinLocal(s, Next(s, a), me, l);
  }

  lemma SpinRelease(s: State, c: nat, l: nat)
    requires SpinInv(s) && RunInv(s) && PcInv(s) && Enabled(s, Release(c, l))
    ensures SpinInv(Next(s, Release(c, l)))
  {
    hide RunInv;
    CurOk(s, c);
    SpinLocal(s, Next(s, Release(c, l)), Cur(s, c), l);
  }

  lemma SpinNotify(s: State, c: nat)
    requires SpinInv(s) && RunInv(s) && PcInv(s) && Enabled(s, Notify(c))
    ensures SpinInv(Next(s, Notify(c)))
  {
    hide RunInv;
    CurOk(s, c);
    var s', me := Next(s, Notify(c)), Cur(s, c);
    var l := s.procs[me].pc.l;
    assert SpinHeld(s, me, l);
    forall q: nat | q < |s.procs|
      ensures !Sleeper(s'.procs[q], l)
    {
      NoneFalling(s, q);
    }
    SpinLocal(s, s', me, l);
  }

  // ------------------------------------------------------------ pids: invariant

  predicate PidOk(s: State, p: nat)
    requires p < |s.procs|
  {
    var x := s.procs[p].pid;
    && (s.procs[p].state != Unused ==> 0 < x < s.nextPid)
    && (s.procs[p].state == Zombie ==> x in s.exited && x !in s.reaped)
    && (s.procs[p].state != Zombie && s.procs[p].state != Unused ==> x !in s.exited)
  }

  predicate IsZombie(s: State, p: nat, x: nat) {
    p < |s.procs| && s.procs[p].state == Zombie && s.procs[p].pid == x
  }

  predicate PidsDiffer(p: Proc, q: Proc) {
    p.state != Unused && q.state != Unused ==> p.pid != q.pid
  }

  /** An exited process is a zombie or has been reaped, never both, and pids are unique. */
  ghost predicate PidInv(s: State) {
    && s.nextPid > 0
    && (forall p: nat :: p < |s.procs| ==> PidOk(s, p))
    && (forall p: nat, q: nat :: p < q < |s.procs| ==> PidsDiffer(s.procs[p], s.procs[q]))
    && s.reaped <= s.exited
    && (forall x :: x in s.exited ==> x < s.nextPid && (x in s.reaped || exists p: nat :: IsZombie(s, p, x)))
  }

  predicate PidBystander(p: Proc, p': Proc) {
    p'.pid == p.pid && (p'.state == Unused <==> p.state == Unused) && (p'.state == Zombie <==> p.state == Zombie)
  }

  lemma PidSame(s: State, s': State)
    requires PidInv(s) && |s'.procs| == |s.procs| && s'.nextPid == s.nextPid && s'.exited == s.exited
             && s'.reaped == s.reaped
    requires forall p: nat :: p < |s.procs| ==> PidBystander(s.procs[p], s'.procs[p])
    ensures PidInv(s')
  {
    forall p: nat | p < |s.procs|
      ensures PidOk(s', p)
    {
      assert PidOk(s, p);
    }
    forall p: nat, q: nat | p < q < |s.procs|
      ensures PidsDiffer(s'.procs[p], s'.procs[q])
    {
      assert PidsDiffer(s.procs[p], s.procs[q]);
    }
    forall x | x in s.exited && x !in s.reaped
      ensures exists p: nat :: IsZombie(s', p, x)
    {
      var p: nat :| IsZombie(s, p, x);
      assert IsZombie(s', p, x);
    }
  }

  lemma PidOwn(s: State, a: Action)
    requires PidInv(s) && RunInv(s) && Enabled(s, a) && (Own(a) || CpuOnly(a))
    ensures PidInv(Next(s, a))
  {
    hide RunInv, PidInv;
    CurOk(s, a.c);
    PidSame(s, Next(s, a));
  }

  lemma PidReaching(s: State, a: Action)
    requires PidInv(s) && RunInv(s) && ForkInv(s) && Enabled(s, a) && Reaching(s, a) && !a.Alloc? && !a.ForkFail?
    ensures PidInv(Next(s, a))
  {
    hide RunInv, PidInv;
    CurOk(s, a.c);
    assert ForkOk(s, Cur(s, a.c));
    PidSame(s, Next(s, a));
  }

  /** One process changes: it gets a fresh pid, or goes from embryo to unused. */
  lemma PidAlloc(s: State, a: Action)
    requires PidInv(s) && RunInv(s) && ForkInv(s) && Enabled(s, a) && (a.Alloc? || a.ForkFail?)
    ensures PidInv(Next(s, a))
  {
    hide RunInv;
    CurOk(s, a.c);
    var s' := Next(s, a);
    assert ForkOk(s, Cur(s, a.c));
    forall p: nat | p < |s.procs|
      ensures PidOk(s', p)
    {
      assert PidOk(s, p);
    }
    forall p: nat, q: nat | p < q < |s.procs|
      ensures PidsDiffer(s'.procs[p], s'.procs[q])
    {
      assert PidsDiffer(s.procs[p], s.procs[q]) && PidOk(s, p) && PidOk(s, q);
    }
    forall x | x in s.exited && x !in s.reaped
      ensures exists p: nat :: IsZombie(s', p, x)
    {
      var p: nat :| IsZombie(s, p, x);
      assert IsZombie(s', p, x);
    }
  }

  lemma PidWait(s: State, c: nat)
    requires PidInv(s) && c < |s.cpus| && s.cpus[c].cur.Some? && Cur(s, c) < |s.procs|
             && s.procs[Cur(s, c)].state == Running
    ensures PidInv(WaitScan(s, c))
  {
    var s', me, q := WaitScan(s, c), Cur(s, c), FirstZombie(s.procs, Cur(s, c), 0);
    assert q < |s.procs| ==> PidOk(s, q);
    forall p: nat | p < |s.procs|
      ensures PidOk(s', p)
    {
      assert PidOk(s, p);
      assert q < |s.procs| && p != q ==> PidsDiffer(s.procs[if p < q then p else q], s.procs[if p < q then q else p]);
    }
    forall p: nat, r: nat | p < r < |s.procs|
      ensures PidsDiffer(s'.procs[p], s'.procs[r])
    {
      assert PidsDiffer(s.procs[p], s.procs[r]);
    }
    forall x | x in s'.exited && x !in s'.reaped
      ensures exists p: nat :: IsZombie(s', p, x)
    {
      var p: nat :| IsZombie(s, p, x);
      assert IsZombie(s', p, x);
    }
  }

  lemma PidExit(s: State, c: nat)
    requires PidInv(s) && RunInv(s) && Enabled(s, Exit(c))
    ensures PidInv(Next(s, Exit(c)))
  {
    hide RunInv, ExitTable;
    CurOk(s, c);
    var s', me := Next(s, Exit(c)), Cur(s, c);
    assert PidOk(s, me);
    ExitAt(s.procs, me, s.init, me);
    forall p: nat | p < |s.procs|
      ensures PidOk(s', p)
    {
      assert PidOk(s, p);
      ExitAt(s.procs, me, s.init, p);
      assert p != me ==> PidsDiffer(s.procs[if p < me then p else me], s.procs[if p < me then me else p]);
    }
    forall p: nat, q: nat | p < q < |s.procs|
      ensures PidsDiffer(s'.procs[p], s'.procs[q])
    {
      assert PidsDiffer(s.procs[p], s.procs[q]);
      ExitAt(s.procs, me, s.init, p);
      ExitAt(s.procs, me, s.init, q);
    }
    forall x | x in s'.exited && x !in s'.reaped
      ensures exists p: nat :: IsZombie(s', p, x)
    {
      if x == s.procs[me].pid {
        assert IsZombie(s', me, x);
      } else {
        var p: nat :| IsZombie(s, p, x);
        ExitAt(s.procs, me, s.init, p);
        assert IsZombie(s', p, x);
      }
    }
  }

  // ------------------------------------------------- sleep locks: who has one

  predicate HoldOk(s: State, l: Lock) {
    if l.locked then l.takers == {l.pid} && 0 < l.pid < s.nextPid else l.takers == {}
  }

  /** A sleep lock that is locked was taken by the one process whose pid it has, and one that is not by nobody. */
  ghost predicate HoldInv(s: State) {
    forall l: nat :: l < |s.locks| ==> HoldOk(s, s.locks[l])
  }

  /** Only taking and releasing changes who has a lock. */
  lemma LockStays(s: State, a: Action, l: nat)
    requires Enabled(s, a) && (Own(a) || CpuOnly(a) || Reaching(s, a)) && l < |s.locks| && !a.Take? && !a.Release?
    ensures |Next(s, a).locks| == |s.locks| && Next(s, a).nextPid >= s.nextPid
    ensures Next(s, a).locks[l] == s.locks[l].(spin := Next(s, a).locks[l].spin)
  {
  }

  lemma HoldTakeRelease(s: State, a: Action, l: nat)
    requires HoldInv(s) && RunInv(s) && PidInv(s) && Enabled(s, a) && (a.Take? || a.Release?) && l < |s.locks|
    ensures |Next(s, a).locks| == |s.locks| && HoldOk(Next(s, a), Next(s, a).locks[l])
  {
    hide RunInv, PidInv;
    CurOk(s, a.c);
    CurPid(s, Cur(s, a.c));
    assert HoldOk(s, s.locks[l]);
  }

  lemma HoldNext(s: State, a: Action)
    requires HoldInv(s) && RunInv(s) && PidInv(s) && Enabled(s, a) && (Own(a) || CpuOnly(a) || Reaching(s, a))
    ensures HoldInv(Next(s, a))
  {
    hide RunInv, PidInv, Enabled, Next;
    forall l: nat | l < |s.locks|
      ensures |Next(s, a).locks| == |s.locks| && HoldOk(Next(s, a), Next(s, a).locks[l])
    {
      if a.Take? || a.Release? {
        HoldTakeRelease(s, a, l);
      } else {
        LockStays(s, a, l);
        assert HoldOk(s, s.locks[l]);
      }
    }
    Shape(s, a);
  }

  lemma CurPid(s: State, p: nat)
    requires PidInv(s) && p < |s.procs| && s.procs[p].state == Running
    ensures 0 < s.procs[p].pid < s.nextPid
  {
    assert PidOk(s, p);
  }

  /** Exit and wait leave the locks alone. */
  lemma HoldSame(s: State, t: State)
    requires HoldInv(s) && t.locks == s.locks && t.nextPid == s.nextPid
    ensures HoldInv(t)
  {
    forall l: nat | l < |s.locks|
      ensures HoldOk(t, t.locks[l])
    {
      assert HoldOk(s, s.locks[l]);
    }
  }

  // -------------------------------------------------------------------- runs

  ghost predicate Inv(s: State) {
    RunInv(s) && PcInv(s) && ForkInv(s) && KinInv(s) && SpinInv(s) && PidInv(s) && HoldInv(s)
  }

  /** Wait, first entered or resumed. */
  predicate Scans(s: State, a: Action) {
    a.Wait? || (a.Resume? && !ResumesPlain(s, a))
  }

  lemma ScansIs(s: State, a: Action)
    requires RunInv(s) && Enabled(s, a) && Scans(s, a)
    ensures a.c < |s.cpus| && OnProc(s.cpus[a.c].mode) && s.cpus[a.c].cur.Some? && Cur(s, a.c) < |s.procs|
    ensures LockFree(s) || Holds(s.cpus[a.c].mode)
    ensures Next(s, a) == WaitScan(s, a.c)
    ensures var p := s.procs[Cur(s, a.c)]; p.state == Running && (p.pc == Normal || p.pc == Waiting)
  {
    hide RunInv;
    CurOk(s, a.c);
  }

  lemma ScanLocks(s: State, c: nat)
    requires c < |s.cpus| && s.cpus[c].cur.Some? && Cur(s, c) < |s.procs|
    ensures WaitScan(s, c).locks == s.locks && WaitScan(s, c).nextPid == s.nextPid
  {
  }

  lemma ScanInv(s: State, a: Action)
    requires Inv(s) && Enabled(s, a) && Scans(s, a)
    ensures Inv(Next(s, a))
  {
    hide RunInv, PcInv, ForkInv, KinInv, SpinInv, PidInv, HoldInv, WaitScan;
    ScansIs(s, a);
    ScanLocks(s, a.c);
    HoldSame(s, WaitScan(s, a.c));
    RunWait(s, a.c);
    PcWait(s, a.c);
    ForkWait(s, a.c);
    KinWait(s, a.c);
    SpinWait(s, a.c);
    PidWait(s, a.c);
  }

  lemma ExitLocks(s: State, c: nat)
    requires Enabled(s, Exit(c))
    ensures Next(s, Exit(c)).locks == s.locks && Next(s, Exit(c)).nextPid == s.nextPid
  {
  }

  lemma ExitInv(s: State, c: nat)
    requires Inv(s) && Enabled(s, Exit(c))
    ensures Inv(Next(s, Exit(c)))
  {
    hide RunInv, PcInv, ForkInv, KinInv, SpinInv, PidInv, HoldInv, Next;
    ExitLocks(s, c);
    HoldSame(s, Next(s, Exit(c)));
    RunOthers(s, Exit(c));
    PcExit(s, c);
    ForkExit(s, c);
    KinExit(s, c);
    SpinExit(s, c);
    PidExit(s, c);
  }

  lemma OwnInv(s: State, a: Action)
    requires Inv(s) && Enabled(s, a) && (Own(a) || CpuOnly(a))
    ensures Inv(Next(s, a))
  {
    hide RunInv, PcInv, ForkInv, KinInv, SpinInv, PidInv, HoldInv, Next;
    HoldNext(s, a);
    if a.Dispatch? { RunDispatch(s, a.c, a.p); } else if CpuOnly(a) { RunSched(s, a); } else { RunOwn(s, a); }
    PcOwn(s, a);
    ForkOwn(s, a);
    KinOwn(s, a);
    PidOwn(s, a);
    match a
    case SpinAcquire(_, _) => SpinAcquireDrop(s, a);
    case SpinDrop(_) => SpinAcquireDrop(s, a);
    case Take(_) => SpinTakeFall(s, a);
    case Fall(_) => SpinTakeFall(s, a);
    case Release(c, l) => SpinRelease(s, c, l);
    case _ => SpinPlain(s, a);
  }

  lemma ReachingInv(s: State, a: Action)
    requires Inv(s) && Enabled(s, a) && Reaching(s, a)
    ensures Inv(Next(s, a))
  {
    hide RunInv, PcInv, ForkInv, KinInv, SpinInv, PidInv, HoldInv, Next;
    HoldNext(s, a);
    PcReaching(s, a);
    if ForkAction(a) {
      RunFork(s, a);
      ForkSteps(s, a);
      SpinFork(s, a);
      if a.Alloc? || a.ForkFail? {
        KinAlloc(s, a);
        PidAlloc(s, a);
      } else {
        KinFork(s, a);
        PidReaching(s, a);
      }
    } else {
      if a.Resume? { RunResume(s, a.c); } else { RunOthers(s, a); }
      ForkReaching(s, a);
      KinReaching(s, a);
      PidReaching(s, a);
      if a.Notify? { SpinNotify(s, a.c); } else { SpinPlain(s, a); }
    }
  }

  lemma StepInv(s: State, a: Action)
    requires Inv(s) && Enabled(s, a)
    ensures Inv(Next(s, a))
  {
    hide Inv, Next, Enabled;
    match a
    case Exit(c) => ExitInv(s, c);
    case Wait(_) => ScanInv(s, a);
    case Resume(_) => if ResumesPlain(s, a) { ReachingInv(s, a); } else { ScanInv(s, a); }
    case _ => if Reaching(s, a) { ReachingInv(s, a); } else { OwnInv(s, a); }
  }

  /** States in the order a run passes through them. */
  ghost predicate IsRun(states: seq<State>, actions: seq<Action>) {
    && |states| == |actions| + 1
    && forall i :: 0 <= i < |actions| ==> Enabled(states[i], actions[i]) && states[i + 1] == Next(states[i], actions[i])
  }

  lemma {:induction false} RunKeeps(states: seq<State>, actions: seq<Action>, i: nat)
    requires IsRun(states, actions) && Inv(states[0]) && i < |states|
    ensures Inv(states[i])
  {
    hide Inv, Next, Enabled;
    if i > 0 {
      RunKeeps(states, actions, i - 1);
      StepInv(states[i - 1], actions[i - 1]);
    }
  }

  /** The process table as userinit leaves it: init is ready to run and every other slot is unused. */
  function StartTable(nprocs: nat): (r: seq<Proc>)
    ensures |r| == nprocs
  {
    seq(nprocs, i =>
      if i == 0 then Proc(Runnable, None, None, 1, false, New) else Proc(Unused, None, None, 0, false, New))
  }

  /** The machine as it starts: every CPU is idle and every lock open. */
  lemma StartInv(nprocs: nat, ncpus: nat, nlocks: nat)
    requires nprocs > 0
    ensures var locks := seq(nlocks, i => Lock(false, None, 0, {}));
            Inv(State(StartTable(nprocs), seq(ncpus, i => Cpu(Idle, None)), locks, 0, 2, {}, {}))
  {
  }

  // ---------------------------------------------------------------- theorems

  /** Whenever the table's lock is free, a process is RUNNING exactly when it is current on a CPU, and then on one
      only. */
  lemma RunningOnOneCpu(states: seq<State>, actions: seq<Action>, i: nat, p: nat)
    requires IsRun(states, actions) && Inv(states[0]) && i < |states| && LockFree(states[i]) && p < |states[i].procs|
    ensures var s := states[i];
            && (s.procs[p].state == Running <==> exists c: nat :: c < |s.cpus| && s.cpus[c].cur == Some(p))
            && forall c: nat, d: nat :: c < |s.cpus| && d < |s.cpus| && s.cpus[c].cur == Some(p) == s.cpus[d].cur ==>
                  c == d
  {
    RunKeeps(states, actions, i);
    var s := states[i];
    if s.procs[p].state == Running {
      var c: nat :| RunsOn(s, p, c);
      assert s.cpus[c].cur == Some(p);
    }
    if c: nat :| c < |s.cpus| && s.cpus[c].cur == Some(p) { assert CpuOk(s.cpus[c], s.procs); }
  }

  /** No process sleeps in wait while it has a zombie child. */
  lemma WaiterNotForgotten(states: seq<State>, actions: seq<Action>, i: nat, p: nat, q: nat)
    requires IsRun(states, actions) && Inv(states[0]) && i < |states| && p < |states[i].procs| && q < |states[i].procs|
    requires ZombieChild(states[i].procs[q], p)
    ensures !(states[i].procs[p].state == Sleeping && states[i].procs[p].pc == Waiting)
  {
    hide RunInv, SpinInv, PidInv, ForkInv;
    RunKeeps(states, actions, i);
    assert PcOk(states[i].procs[p], p);
  }

  /** No live or zombie process other than init has an exited parent. */
  lemma NoOrphans(states: seq<State>, actions: seq<Action>, i: nat, q: nat)
    requires IsRun(states, actions) && Inv(states[0]) && i < |states| && q < |states[i].procs| && q != states[i].init
    requires Live(states[i].procs[q]) || states[i].procs[q].state == Zombie
    ensures var parent := states[i].procs[q].parent;
            parent.Some? && parent.value < |states[i].procs| && Live(states[i].procs[parent.value])
  {
    hide RunInv, SpinInv, PidInv, ForkInv, PcInv;
    RunKeeps(states, actions, i);
    assert KinOk(states[i], q);
  }

  /** The step is a wait that returns the pid of the zombie in slot q. */
  predicate Reaps(s: State, a: Action, q: nat) {
    && Scans(s, a) && a.c < |s.cpus| && s.cpus[a.c].cur.Some? && Cur(s, a.c) < |s.procs| && q < |s.procs|
    && q == FirstZombie(s.procs, Cur(s, a.c), 0)
  }

  /** The step is a wait that returns pid x. */
  ghost predicate ReapsPid(s: State, a: Action, x: nat) {
    exists q: nat :: q < |s.procs| && Reaps(s, a, q) && s.procs[q].pid == x
  }

  /** Wait returns the pid of a process that has exited and that no wait has returned before, and empties its slot. */
  lemma ReapStep(s: State, a: Action, q: nat)
    requires Inv(s) && Enabled(s, a) && Reaps(s, a, q)
    ensures q < |s.procs| && s.procs[q].pid in s.exited && s.procs[q].pid !in s.reaped
    ensures Next(s, a).reaped == s.reaped + {s.procs[q].pid}
    ensures |Next(s, a).procs| == |s.procs| && Next(s, a).procs[q].state == Unused
  {
    hide RunInv, SpinInv, KinInv, ForkInv, PcInv;
    ScansIs(s, a);
    assert PidOk(s, q);
  }

  /** Any other step reaps nothing. */
  lemma OtherStep(s: State, a: Action)
    requires Inv(s) && Enabled(s, a) && forall q: nat :: !Reaps(s, a, q)
    ensures Next(s, a).reaped == s.reaped
  {
    hide RunInv, SpinInv, KinInv, ForkInv, PcInv, PidInv;
    if Scans(s, a) {
      ScansIs(s, a);
      assert !Reaps(s, a, FirstZombie(s.procs, Cur(s, a.c), 0));
    }
  }

  /** The set of reaped pids is exactly what the waits of the run have returned. */
  lemma {:induction false} ReapedIff(states: seq<State>, actions: seq<Action>, i: nat, x: nat)
    requires IsRun(states, actions) && Inv(states[0]) && i < |states|
    ensures x in states[i].reaped <==>
            x in states[0].reaped || exists k: nat :: k < i && ReapsPid(states[k], actions[k], x)
  {
    hide Inv, Next, Enabled, Reaps;
    if i > 0 {
      ReapedIff(states, actions, i - 1, x);
      RunKeeps(states, actions, i - 1);
      var s, a := states[i - 1], actions[i - 1];
      if q: nat :| Reaps(s, a, q) {
        ReapStep(s, a, q);
        if r: nat :| r < |s.procs| && Reaps(s, a, r) && s.procs[r].pid == x { SameReap(s, a, q, r); }
      } else {
        OtherStep(s, a);
      }
      assert (exists k: nat :: k < i && ReapsPid(states[k], actions[k], x)) <==>
             ReapsPid(s, a, x) || exists k: nat :: k < i - 1 && ReapsPid(states[k], actions[k], x);
    }
  }

  lemma SameReap(s: State, a: Action, q: nat, r: nat)
    requires Reaps(s, a, q) && Reaps(s, a, r)
    ensures q == r
  {
  }

  /** No two waits of a run return the same pid, and each returns one that has exited. */
  lemma ReapedOnce(states: seq<State>, actions: seq<Action>, i: nat, j: nat, x: nat)
    requires IsRun(states, actions) && Inv(states[0]) && i < j < |actions|
    requires ReapsPid(states[j], actions[j], x)
    ensures !ReapsPid(states[i], actions[i], x) && x in states[j].exited
  {
    hide Inv, Next, Enabled, Reaps;
    RunKeeps(states, actions, j);
    var q: nat :| q < |states[j].procs| && Reaps(states[j], actions[j], q) && states[j].procs[q].pid == x;
    ReapStep(states[j], actions[j], q);
    ReapedIff(states, actions, j, x);
  }

  /** holdingsleep is true exactly of the process that has taken the lock and not released it, and of no other. */
  lemma OneHolder(states: seq<State>, actions: seq<Action>, i: nat, l: nat, p: nat, q: nat)
    requires IsRun(states, actions) && Inv(states[0]) && i < |states| && l < |states[i].locks|
    requires p < |states[i].procs| && q < |states[i].procs|
    requires states[i].procs[p].state != Unused && states[i].procs[q].state != Unused
    ensures HoldingSleep(states[i], p, l) <==> states[i].procs[p].pid in states[i].locks[l].takers
    ensures HoldingSleep(states[i], p, l) && HoldingSleep(states[i], q, l) ==> p == q
    ensures |states[i].locks[l].takers| == if states[i].locks[l].locked then 1 else 0
  {
    hide RunInv, SpinInv, KinInv, ForkInv, PcInv;
    RunKeeps(states, actions, i);
    var s := states[i];
    assert HoldOk(s, s.locks[l]);
    if p != q { assert PidsDiffer(s.procs[if p < q then p else q], s.procs[if p < q then q else p]); }
  }

  /** Whenever a sleep lock's spinlock is free, nobody is asleep on the lock while it is unlocked. */
  lemma LockSleeperNotForgotten(states: seq<State>, actions: seq<Action>, i: nat, p: nat, l: nat)
    requires IsRun(states, actions) && Inv(states[0]) && i < |states| && p < |states[i].procs| && l < |states[i].locks|
    requires states[i].locks[l].spin == None && !states[i].locks[l].locked
    ensures !(states[i].procs[p].state == Sleeping && states[i].procs[p].chan == Some(LockChan(l)))
  {
    hide RunInv, KinInv, PidInv, ForkInv, PcInv;
    RunKeeps(states, actions, i);
    assert NotForgotten(states[i], p, l);
  }
}

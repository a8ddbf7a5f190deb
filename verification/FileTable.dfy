/** Open files: reference counts, the descriptors that account for them, and the pipe ends they stand for. */
module FileTable {
  import opened Basics
  import PipeSpec

  const NOFILE: nat := 16
  const SLOTS: nat := NOFILE + 2

  datatype End = End(pipe: nat, writable: bool)

  /** What fileclose sees: a file not set up yet, an inode, or one end of a pipe. */
  datatype Kind = Unset | Inode | PipeEnd(end: End)

  datatype File = File(ref: nat, kind: Kind)

  /** Where a process is in the calls that handle files. */
  datatype Task =
    | Unborn                       // no process, or a child that fork is setting up
    | Idle                         // free to make its next move
    | Duping(fd: nat, to: nat)     // dup has filled the slot `to` and not yet called filedup
    | Using(fd: nat)               // in pipewrite or piperead, asleep or about to test again
    | Leaving                      // in exit
    | Clearing(fd: nat)            // exit has closed the file of this slot and not yet cleared it

  /** slots are the descriptors and, after those, two pointers that system calls keep while they set files up or close
      them. closing is the pipe end that fileclose still has to close. */
  datatype Proc = Proc(slots: seq<Option<nat>>, task: Task, closing: Option<End>)

  datatype State = State(files: seq<File>, procs: seq<Proc>, pipes: map<nat, PipeSpec.State>, nextPipe: nat)

  datatype Action =
    | Alloc(p: nat, h: nat, f: nat)
    | SetInode(p: nat, h: nat)
    | MakePipe(p: nat, h: nat, g: nat, data: seq<char>)
    | Move(p: nat, a: nat, q: nat, b: nat)
    | Dup(p: nat, fd: nat, to: nat)
    | DupRef(p: nat)
    | ForkDup(p: nat, fd: nat, h: nat)
    | Launch(p: nat, q: nat)
    | Drop(p: nat, h: nat)
    | Leave(p: nat)
    | ExitDrop(p: nat, fd: nat)
    | ExitClear(p: nat)
    | Gone(p: nat)
    | ClosePipe(p: nat)
    | Section(p: nat, fd: nat, bytes: string, n: nat, killed: bool)
    | Kill(p: nat)

  // ------------------------------------------------------------------- steps

  predicate Free(s: State, p: nat) {
    p < |s.procs| && s.procs[p].task == Idle && s.procs[p].closing == None
  }

  /** Slot a of process p points to a file. */
  predicate Has(s: State, p: nat, a: nat) {
    && p < |s.procs| && a < |s.procs[p].slots| && s.procs[p].slots[a].Some?
    && s.procs[p].slots[a].value < |s.files|
  }

  function At(s: State, p: nat, a: nat): nat
    requires Has(s, p, a)
  {
    s.procs[p].slots[a].value
  }

  predicate Empty(s: State, p: nat, a: nat) {
    p < |s.procs| && a < |s.procs[p].slots| && s.procs[p].slots[a] == None
  }

  predicate Hand(a: nat) { NOFILE <= a < SLOTS }

  function KindAt(s: State, p: nat, a: nat): Kind
    requires Has(s, p, a)
  {
    s.files[At(s, p, a)].kind
  }

  predicate Enabled(s: State, a: Action) {
    match a
    case Alloc(p, h, f) => Free(s, p) && Hand(h) && Empty(s, p, h) && f < |s.files| && s.files[f].ref == 0
    case SetInode(p, h) => Free(s, p) && Has(s, p, h) && KindAt(s, p, h) == Unset
    case MakePipe(p, h, g, data) =>
      && Free(s, p) && Hand(h) && Hand(g) && Has(s, p, h) && Has(s, p, g) && At(s, p, h) != At(s, p, g)
      && KindAt(s, p, h) == Unset && KindAt(s, p, g) == Unset && |data| == PipeSpec.SIZE
    case Move(p, x, q, y) =>
      && Free(s, p) && Has(s, p, x) && Empty(s, q, y)
      && (q != p ==> Hand(x) && y < NOFILE && s.procs[q].task == Unborn)
    case Dup(p, fd, to) => Free(s, p) && Has(s, p, fd) && Empty(s, p, to) && fd < NOFILE && to < NOFILE
    case DupRef(p) => p < |s.procs| && s.procs[p].task.Duping? && Has(s, p, s.procs[p].task.to)
    case ForkDup(p, fd, h) => Free(s, p) && Has(s, p, fd) && fd < NOFILE && Hand(h) && Empty(s, p, h)
    case Launch(p, q) => Free(s, p) && q < |s.procs| && s.procs[q].task == Unborn
    case Drop(p, h) => Free(s, p) && Has(s, p, h) && Hand(h)
    case Leave(p) => Free(s, p) && Empty(s, p, NOFILE) && Empty(s, p, NOFILE + 1)
    case ExitDrop(p, fd) =>
      p < |s.procs| && s.procs[p].task == Leaving && s.procs[p].closing == None && Has(s, p, fd)
    case ExitClear(p) =>
      && p < |s.procs| && s.procs[p].task.Clearing? && s.procs[p].closing == None && Has(s, p, s.procs[p].task.fd)
    case Gone(p) =>
      && p < |s.procs| && s.procs[p].task == Leaving && s.procs[p].closing == None
      && forall a :: 0 <= a < |s.procs[p].slots| ==> s.procs[p].slots[a] == None
    case ClosePipe(p) => p < |s.procs| && s.procs[p].closing.Some?
    case Section(p, fd, bytes, n, killed) =>
      && p < |s.procs| && (s.procs[p].task == Idle || s.procs[p].task == Using(fd)) && s.procs[p].closing == None
      && fd < NOFILE && Has(s, p, fd) && KindAt(s, p, fd).PipeEnd? && !Asleep(s, p, KindAt(s, p, fd).end)
    case Kill(p) => p < |s.procs|
  }

  /** Process p sleeps at this end of its pipe. */
  predicate Asleep(s: State, p: nat, e: End) {
    e.pipe in s.pipes && p in if e.writable then s.pipes[e.pipe].writers else s.pipes[e.pipe].readers
  }

  /** What a section of the pipe's code is to the pipe. */
  function SectionEvent(p: nat, writable: bool, bytes: string, n: nat, killed: bool): PipeSpec.Event {
    if writable then PipeSpec.Write(p, bytes, killed) else PipeSpec.Read(p, n, killed)
  }

  function CloseEvent(e: End): PipeSpec.Event {
    if e.writable then PipeSpec.CloseWrite else PipeSpec.CloseRead
  }

  /** The pipe exists and allows the event. */
  predicate Allowed(s: State, k: nat, e: PipeSpec.Event) {
    k in s.pipes && PipeSpec.Enabled(s.pipes[k], e)
  }

  /** The file whose count the action changes, if it goes through filedup or fileclose. */
  function Counted(s: State, a: Action): Option<nat>
    requires Enabled(s, a)
  {
    match a
    case DupRef(p) => Some(At(s, p, s.procs[p].task.to))
    case ForkDup(p, fd, _) => Some(At(s, p, fd))
    case Drop(p, h) => Some(At(s, p, h))
    case ExitDrop(p, fd) => Some(At(s, p, fd))
    case _ => None
  }

  /** The code panics in filedup or fileclose, or touches a pipe that is freed or does not allow it. */
  predicate Bad(s: State, a: Action)
    requires Enabled(s, a)
  {
    || (Counted(s, a).Some? && s.files[Counted(s, a).value].ref < 1)
    || (a.Section? &&
        var e := KindAt(s, a.p, a.fd).end;
        !Allowed(s, e.pipe, SectionEvent(a.p, e.writable, a.bytes, a.n, a.killed)))
    || (a.ClosePipe? && var e := s.procs[a.p].closing.value; !Allowed(s, e.pipe, CloseEvent(e)))
  }

  function PipeNext(ps: PipeSpec.State, e: PipeSpec.Event): PipeSpec.State {
    if |ps.data| == PipeSpec.SIZE && 0 <= PipeSpec.Pending(ps) <= PipeSpec.SIZE then PipeSpec.Next(ps, e) else ps
  }

  function SetSlot(s: State, p: nat, a: nat, v: Option<nat>): State
    requires p < |s.procs| && a < |s.procs[p].slots|
  {
    s.(procs := s.procs[p := s.procs[p].(slots := s.procs[p].slots[a := v])])
  }

  function SetTask(s: State, p: nat, t: Task): State
    requires p < |s.procs|
  {
    s.(procs := s.procs[p := s.procs[p].(task := t)])
  }

  function Raise(s: State, f: nat): State
    requires f < |s.files|
  {
    s.(files := s.files[f := s.files[f].(ref := s.files[f].ref + 1)])
  }

  /** fileclose by process p, up to the call of pipeclose. */
  function Lower(s: State, p: nat, f: nat): State
    requires f < |s.files| && p < |s.procs| && s.files[f].ref >= 1
  {
    var file := s.files[f];
    if file.ref > 1 then s.(files := s.files[f := file.(ref := file.ref - 1)])
    else
      s.(files := s.files[f := File(0, Unset)],
         procs := s.procs[p := s.procs[p].(closing := if file.kind.PipeEnd? then Some(file.kind.end) else None)])
  }

  function SetKind(s: State, f: nat, k: Kind): State
    requires f < |s.files|
  {
    s.(files := s.files[f := s.files[f].(kind := k)])
  }

  /** pipeclose: the end is closed, and the pipe freed once both are. */
  function Closed(s: State, e: End): State
    requires e.pipe in s.pipes
  {
    var ps := PipeNext(s.pipes[e.pipe], CloseEvent(e));
    if !ps.readopen && !ps.writeopen then s.(pipes := s.pipes - {e.pipe}) else s.(pipes := s.pipes[e.pipe := ps])
  }

  /** The end of pipealloc: the two files become the ends of a new pipe. */
  function MadePipe(s: State, f: nat, g: nat, data: seq<char>): State
    requires f < |s.files| && g < |s.files|
  {
    var k := s.nextPipe;
    var readEnd, writeEnd := s.files[f].(kind := PipeEnd(End(k, false))), s.files[g].(kind := PipeEnd(End(k, true)));
    s.(files := s.files[f := readEnd][g := writeEnd],
       pipes := s.pipes[k := PipeSpec.Start(data)], nextPipe := k + 1)
  }

  /** A section of the pipe's code by process p through slot fd. */
  function Used(s: State, p: nat, fd: nat, e: End, ev: PipeSpec.Event): State
    requires e.pipe in s.pipes && p < |s.procs|
  {
    var t := s.(pipes := s.pipes[e.pipe := PipeNext(s.pipes[e.pipe], ev)]);
    SetTask(t, p, if Asleep(t, p, e) then Using(fd) else Idle)
  }

  /** Killing wakes a process that is asleep on a pipe. */
  function Killed(s: State, p: nat): State
    requires p < |s.procs|
  {
    if s.procs[p].task.Using? && Has(s, p, s.procs[p].task.fd) && KindAt(s, p, s.procs[p].task.fd).PipeEnd? then
      var k := KindAt(s, p, s.procs[p].task.fd).end.pipe;
      if k in s.pipes then s.(pipes := s.pipes[k := PipeNext(s.pipes[k], PipeSpec.Kill(p))]) else s
    else s
  }

  /** Steps through filedup and fileclose. */
  function NextCounting(s: State, a: Action): State
    requires Enabled(s, a) && Counted(s, a).Some? && s.files[Counted(s, a).value].ref >= 1
  {
    match a
    case DupRef(p) => SetTask(Raise(s, At(s, p, s.procs[p].task.to)), p, Idle)
    case ForkDup(p, fd, h) => SetSlot(Raise(s, At(s, p, fd)), p, h, s.procs[p].slots[fd])
    case Drop(p, h) => SetSlot(Lower(s, p, At(s, p, h)), p, h, None)
    case ExitDrop(p, fd) => SetTask(Lower(s, p, At(s, p, fd)), p, Clearing(fd))
    case _ => s
  }

  /** Steps on slots and tasks. */
  function NextSlots(s: State, a: Action): State
    requires Enabled(s, a)
  {
    match a
    case Alloc(p, h, f) => SetSlot(s.(files := s.files[f := s.files[f].(ref := 1)]), p, h, Some(f))
    case SetInode(p, h) => SetKind(s, At(s, p, h), Inode)
    case Move(p, x, q, y) => SetSlot(SetSlot(s, p, x, None), q, y, s.procs[p].slots[x])
    case Dup(p, fd, to) => SetTask(SetSlot(s, p, to, s.procs[p].slots[fd]), p, Duping(fd, to))
    case Launch(p, q) => SetTask(s, q, Idle)
    case Leave(p) => SetTask(s, p, Leaving)
    case ExitClear(p) => SetTask(SetSlot(s, p, s.procs[p].task.fd, None), p, Leaving)
    case Gone(p) => SetTask(s, p, Unborn)
    case _ => s
  }

  predicate OnPipes(a: Action) {
    a.MakePipe? || a.ClosePipe? || a.Section? || a.Kill?
  }

  function NextPipes(s: State, a: Action): State
    requires Enabled(s, a) && !Bad(s, a) && OnPipes(a)
  {
    match a
    case MakePipe(p, h, g, data) => MadePipe(s, At(s, p, h), At(s, p, g), data)
    case ClosePipe(p) =>
      var t := Closed(s, s.procs[p].closing.value);
      t.(procs := s.procs[p := s.procs[p].(closing := None)])
    case Section(p, fd, bytes, n, killed) =>
      var e := KindAt(s, p, fd).end;
      Used(s, p, fd, e, SectionEvent(p, e.writable, bytes, n, killed))
    case Kill(p) => Killed(s, p)
  }

  function Next(s: State, a: Action): State
    requires Enabled(s, a) && !Bad(s, a)
  {
    if Counted(s, a).Some? then NextCounting(s, a) else if OnPipes(a) then NextPipes(s, a) else NextSlots(s, a)
  }

  // --------------------------------------------------------------- invariant

  /** The slot's file does not count the slot: it does not yet, or not any more. */
  predicate Uncounted(t: Task, a: nat) {
    (t.Duping? && t.to == a) || t == Clearing(a)
  }

  /** Slot a of process p accounts for one reference to f. */
  predicate Holds(s: State, p: nat, a: nat, f: nat) {
    && p < |s.procs| && a < |s.procs[p].slots|
    && s.procs[p].slots[a] == Some(f) && !Uncounted(s.procs[p].task, a)
  }

  ghost function Holders(s: State, f: nat): set<(nat, nat)> {
    set p: nat, a: nat | p < |s.procs| && a < |s.procs[p].slots| && Holds(s, p, a, f) :: (p, a)
  }

  predicate TaskOk(s: State, p: nat)
    requires p < |s.procs|
  {
    && |s.procs[p].slots| == SLOTS
    && (forall a :: 0 <= a < SLOTS && s.procs[p].slots[a].Some? ==> s.procs[p].slots[a].value < |s.files|)
    && match s.procs[p].task
       case Duping(fd, to) => fd < SLOTS && to < SLOTS && fd != to && s.procs[p].slots[fd] == s.procs[p].slots[to]
                              && s.procs[p].slots[to].Some? && s.procs[p].closing == None
       case Using(fd) => fd < SLOTS && Has(s, p, fd) && KindAt(s, p, fd).PipeEnd? && s.procs[p].closing == None
       case Clearing(fd) => fd < SLOTS && s.procs[p].slots[fd].Some?
       case Unborn => s.procs[p].closing == None
       case _ => true
  }

  ghost predicate TaskInv(s: State) {
    forall p: nat :: p < |s.procs| ==> TaskOk(s, p)
  }

  /** A file's count is the number of slots that account for it; a free one stands for nothing. */
  ghost predicate RefInv(s: State) {
    && (forall f: nat :: f < |s.files| ==> s.files[f].ref == |Holders(s, f)|)
    && (forall f: nat :: f < |s.files| && s.files[f].ref == 0 ==> s.files[f].kind == Unset)
  }

  predicate IsOpen(s: State, e: End) {
    e.pipe in s.pipes && if e.writable then s.pipes[e.pipe].writeopen else s.pipes[e.pipe].readopen
  }

  /** File f is this pipe end. */
  predicate Is(s: State, f: nat, e: End) {
    f < |s.files| && s.files[f].kind == PipeEnd(e)
  }

  predicate Closes(s: State, p: nat, e: End) {
    p < |s.procs| && s.procs[p].closing == Some(e)
  }

  /** A pipe end that some file is, or that is about to be closed, is open, and only one file or process has it. */
  ghost predicate EndInv(s: State) {
    && (forall f: nat, e: End :: Is(s, f, e) ==> IsOpen(s, e))
    && (forall p: nat, e: End :: Closes(s, p, e) ==> IsOpen(s, e))
    && (forall f: nat, g: nat, e: End :: Is(s, f, e) && Is(s, g, e) ==> f == g)
    && (forall p: nat, q: nat, e: End :: Closes(s, p, e) && Closes(s, q, e) ==> p == q)
    && (forall f: nat, p: nat, e: End :: Is(s, f, e) ==> !Closes(s, p, e))
  }

  /** Process p is in the code of the pipe through a descriptor for this end. */
  predicate Through(s: State, p: nat, e: End) {
    && p < |s.procs| && s.procs[p].task.Using? && Has(s, p, s.procs[p].task.fd)
    && KindAt(s, p, s.procs[p].task.fd) == PipeEnd(e)
  }

  ghost predicate PipeOk(s: State, k: nat)
    requires k in s.pipes
  {
    && k < s.nextPipe && PipeSpec.StreamInv(s.pipes[k]) && (s.pipes[k].readopen || s.pipes[k].writeopen)
    && (forall p :: p in s.pipes[k].writers ==> Through(s, p, End(k, true)))
    && (forall p :: p in s.pipes[k].readers ==> Through(s, p, End(k, false)))
  }

  ghost predicate PipeInv(s: State) {
    forall k :: k in s.pipes ==> PipeOk(s, k)
  }

  /** Some file is this end, or some process is about to close it. */
  ghost predicate Kept(s: State, e: End) {
    (exists f: nat :: Is(s, f, e)) || (exists p: nat :: Closes(s, p, e))
  }

  /** No open end is forgotten. */
  ghost predicate LeakInv(s: State) {
    forall e: End :: IsOpen(s, e) ==> Kept(s, e)
  }

  ghost predicate Inv(s: State) {
    TaskInv(s) && RefInv(s) && EndInv(s) && PipeInv(s) && LeakInv(s)
  }

  // ------------------------------------------------------ references: steps

  lemma InHolders(s: State, p: nat, a: nat, f: nat)
    ensures (p, a) in Holders(s, f) <==> Holds(s, p, a, f)
  {
  }

  /** The slot that the action makes account for a file, or stop to. */
  function Came(s: State, a: Action): Option<(nat, nat)>
    requires Enabled(s, a)
  {
    match a
    case Alloc(p, h, _) => Some((p, h))
    case Move(_, _, q, y) => Some((q, y))
    case DupRef(p) => Some((p, s.procs[p].task.to))
    case ForkDup(p, _, h) => Some((p, h))
    case _ => None
  }

  function Went(s: State, a: Action): Option<(nat, nat)>
    requires Enabled(s, a)
  {
    match a
    case Move(p, x, _, _) => Some((p, x))
    case Drop(p, h) => Some((p, h))
    case ExitDrop(p, fd) => Some((p, fd))
    case _ => None
  }

  /** The file concerned. */
  function Touched(s: State, a: Action): nat
    requires Enabled(s, a)
  {
    match a
    case Alloc(_, _, f) => f
    case Move(p, x, _, _) => At(s, p, x)
    case _ => if Counted(s, a).Some? then Counted(s, a).value else 0
  }

  ghost predicate HoldsStep(s: State, a: Action, p: nat, x: nat, f: nat)
    requires Enabled(s, a) && !Bad(s, a)
  {
    Holds(Next(s, a), p, x, f) <==>
    || (Holds(s, p, x, f) && Went(s, a) != Some((p, x)))
    || (Came(s, a) == Some((p, x)) && f == Touched(s, a))
  }

  /** Steps that go through filedup or fileclose. */
  lemma HoldsCounting(s: State, a: Action, p: nat, x: nat, f: nat)
    requires TaskInv(s) && Enabled(s, a) && !Bad(s, a) && Counted(s, a).Some?
    ensures HoldsStep(s, a, p, x, f)
  {
    assert TaskOk(s, a.p);
  }

  lemma HoldsSlots(s: State, a: Action, p: nat, x: nat, f: nat)
    requires TaskInv(s) && Enabled(s, a) && !Bad(s, a) && (a.Alloc? || a.Move? || a.Dup? || a.ExitClear?)
    ensures HoldsStep(s, a, p, x, f)
  {
    assert TaskOk(s, a.p);
  }

  predicate Others(a: Action) {
    || a.SetInode? || a.MakePipe? || a.Launch? || a.Leave? || a.Gone? || a.ClosePipe? || a.Section? || a.Kill?
  }

  lemma HoldsOthers(s: State, a: Action, p: nat, x: nat, f: nat)
    requires TaskInv(s) && Enabled(s, a) && !Bad(s, a) && Others(a)
    ensures HoldsStep(s, a, p, x, f)
  {
    assert TaskOk(s, a.p);
  }

  lemma HoldsNext(s: State, a: Action, p: nat, x: nat, f: nat)
    requires TaskInv(s) && Enabled(s, a) && !Bad(s, a)
    ensures HoldsStep(s, a, p, x, f)
  {
    hide TaskInv, HoldsStep, Enabled, Bad, Next;
    if Counted(s, a).Some? {
      HoldsCounting(s, a, p, x, f);
    } else if Others(a) {
      HoldsOthers(s, a, p, x, f);
    } else {
      HoldsSlots(s, a, p, x, f);
    }
  }

  /** The slots that come and go are as the step finds them. */
  lemma CameWent(s: State, a: Action)
    requires TaskInv(s) && Enabled(s, a)
    ensures Went(s, a).Some? ==> Holds(s, Went(s, a).value.0, Went(s, a).value.1, Touched(s, a))
    ensures Came(s, a).Some? ==> forall f: nat :: !Holds(s, Came(s, a).value.0, Came(s, a).value.1, f)
    ensures Came(s, a).Some? && Went(s, a).Some? ==> Came(s, a) != Went(s, a)
  {
    assert TaskOk(s, a.p);
  }

  function Delta(s: State, a: Action, f: nat): int
    requires Enabled(s, a)
  {
    if f != Touched(s, a) then 0
    else (if Came(s, a).Some? then 1 else 0) - (if Went(s, a).Some? then 1 else 0)
  }

  ghost function GoneSlots(s: State, a: Action, f: nat): set<(nat, nat)>
    requires Enabled(s, a)
  {
    if f == Touched(s, a) && Went(s, a).Some? then {Went(s, a).value} else {}
  }

  ghost function NewSlots(s: State, a: Action, f: nat): set<(nat, nat)>
    requires Enabled(s, a)
  {
    if f == Touched(s, a) && Came(s, a).Some? then {Came(s, a).value} else {}
  }

  lemma HolderNext(s: State, a: Action, f: nat, q: (nat, nat))
    requires TaskInv(s) && Enabled(s, a) && !Bad(s, a)
    ensures q in Holders(Next(s, a), f) <==> (q in Holders(s, f) && q !in GoneSlots(s, a, f)) || q in NewSlots(s, a, f)
    ensures q in GoneSlots(s, a, f) ==> q in Holders(s, f)
    ensures q in NewSlots(s, a, f) ==> q !in Holders(s, f)
  {
    hide TaskInv, Enabled, Bad, Next, Holds, Came, Went, Touched, Holders;
    CameWent(s, a);
    assert q == (q.0, q.1);
    HoldsNext(s, a, q.0, q.1, f);
    InHolders(s, q.0, q.1, f);
    InHolders(Next(s, a), q.0, q.1, f);
    if Went(s, a) == Some(q) && Holds(s, q.0, q.1, f) { OneFile(s, q.0, q.1, f, Touched(s, a)); }
  }

  lemma CardChange(r: set<(nat, nat)>, r': set<(nat, nat)>, gone: set<(nat, nat)>, come: set<(nat, nat)>)
    requires r' == (r - gone) + come && gone <= r && come !! r
    ensures |r'| == |r| - |gone| + |come|
  {
    assert r == (r - gone) + gone;
    assert |r| == |r - gone| + |gone|;
  }

  lemma CountNext(s: State, a: Action, f: nat)
    requires TaskInv(s) && Enabled(s, a) && !Bad(s, a)
    ensures |Holders(Next(s, a), f)| == |Holders(s, f)| + Delta(s, a, f)
  {
    hide TaskInv, Enabled, Bad, Next, Came, Went, Touched, Holders;
    var r, r', gone, come := Holders(s, f), Holders(Next(s, a), f), GoneSlots(s, a, f), NewSlots(s, a, f);
    forall q: (nat, nat)
      ensures q in r' <==> q in (r - gone) + come
      ensures (q in gone ==> q in r) && (q in come ==> q !in r)
    {
      HolderNext(s, a, f, q);
    }
    CardChange(r, r', gone, come);
  }

  lemma OneFile(s: State, p: nat, x: nat, f: nat, g: nat)
    requires Holds(s, p, x, f) && Holds(s, p, x, g)
    ensures f == g
  {
  }

  // --------------------------------------------------------- no step is bad

  /** Two slots that account for a file, or one, mean as many references. */
  lemma HolderRef(s: State, p: nat, a: nat, f: nat)
    requires RefInv(s) && Holds(s, p, a, f) && f < |s.files|
    ensures s.files[f].ref >= 1
  {
    hide Holders;
    InHolders(s, p, a, f);
  }

  lemma TwoHolders(s: State, p: nat, a: nat, q: nat, b: nat, f: nat)
    requires RefInv(s) && Holds(s, p, a, f) && Holds(s, q, b, f) && (p, a) != (q, b) && f < |s.files|
    ensures s.files[f].ref >= 2
  {
    hide Holders;
    InHolders(s, p, a, f);
    InHolders(s, q, b, f);
    var r := Holders(s, f);
    assert |r - {(p, a)}| == |r| - 1;
    assert (q, b) in r - {(p, a)};
  }

  /** filedup and fileclose find a reference. */
  lemma CountedRef(s: State, a: Action)
    requires TaskInv(s) && RefInv(s) && Enabled(s, a) && Counted(s, a).Some?
    ensures s.files[Counted(s, a).value].ref >= 1
  {
    hide RefInv;
    assert TaskOk(s, a.p);
    var f := Counted(s, a).value;
    match a
    case DupRef(p) => HolderRef(s, p, s.procs[p].task.fd, f);
    case ForkDup(p, fd, _) => HolderRef(s, p, fd, f);
    case Drop(p, h) => HolderRef(s, p, h, f);
    case ExitDrop(p, fd) => HolderRef(s, p, fd, f);
  }

  /** An end is closed when nobody is asleep at it: a sleeper would have a descriptor for it. */
  lemma ClosingAllowed(s: State, p: nat, e: End)
    requires EndInv(s) && PipeInv(s) && Closes(s, p, e)
    ensures Allowed(s, e.pipe, CloseEvent(e))
  {
    assert IsOpen(s, e);
    assert PipeOk(s, e.pipe);
    var sleepers := if e.writable then s.pipes[e.pipe].writers else s.pipes[e.pipe].readers;
    forall q | q in sleepers
      ensures false
    {
      assert Through(s, q, e);
      assert Is(s, At(s, q, s.procs[q].task.fd), e);
    }
  }

  lemma SectionAllowed(s: State, a: Action)
    requires EndInv(s) && Enabled(s, a) && a.Section?
    ensures var e := KindAt(s, a.p, a.fd).end;
            Allowed(s, e.pipe, SectionEvent(a.p, e.writable, a.bytes, a.n, a.killed))
  {
    var e := KindAt(s, a.p, a.fd).end;
    assert Is(s, At(s, a.p, a.fd), e);
  }

  /** No count is ever found to be 0 by filedup or fileclose, no call touches a freed pipe or one whose end is
      closed, and no end is closed over a sleeper. */
  lemma NeverBad(s: State, a: Action)
    requires Inv(s) && Enabled(s, a)
    ensures !Bad(s, a)
  {
    hide TaskInv, RefInv, EndInv, PipeInv, Enabled, Allowed;
    EnabledIs(s, a);
    if Counted(s, a).Some? { CountedRef(s, a); }
    if a.Section? { SectionAllowed(s, a); }
    if a.ClosePipe? { ClosingAllowed(s, a.p, s.procs[a.p].closing.value); }
  }

  lemma EnabledIs(s: State, a: Action)
    requires Enabled(s, a)
    ensures a.ClosePipe? ==> a.p < |s.procs| && s.procs[a.p].closing.Some?
    ensures a.Section? ==> Has(s, a.p, a.fd) && KindAt(s, a.p, a.fd).PipeEnd?
    ensures Counted(s, a).Some? ==> Counted(s, a).value < |s.files|
  {
  }

  // ------------------------------------------------------ each step keeps it

  lemma RefDelta(s: State, a: Action, f: nat)
    requires Enabled(s, a) && !Bad(s, a) && f < |s.files|
    ensures |Next(s, a).files| == |s.files| && Next(s, a).files[f].ref == s.files[f].ref + Delta(s, a, f)
  {
  }

  /** A file that the step sets up is held. */
  lemma KindHeld(s: State, a: Action, f: nat)
    requires TaskInv(s) && RefInv(s) && Enabled(s, a) && !Bad(s, a) && f < |s.files|
    requires s.files[f].kind == Unset && |Next(s, a).files| == |s.files| && Next(s, a).files[f].kind != Unset
    ensures s.files[f].ref >= 1 && Next(s, a).files[f].ref == s.files[f].ref
  {
    hide RefInv;
    assert TaskOk(s, a.p);
    match a
    case SetInode(p, h) => HolderRef(s, p, h, f);
    case MakePipe(p, h, g, _) => HolderRef(s, p, if f == At(s, p, h) then h else g, f);
    case _ =>
  }

  lemma UnsetWhenFree(s: State, a: Action, f: nat)
    requires TaskInv(s) && RefInv(s) && Enabled(s, a) && !Bad(s, a) && f < |s.files|
    ensures |Next(s, a).files| == |s.files|
    ensures Next(s, a).files[f].ref == 0 ==> Next(s, a).files[f].kind == Unset
  {
    RefDelta(s, a, f);
    if Next(s, a).files[f].ref == 0 && Next(s, a).files[f].kind != Unset {
      if s.files[f].kind == Unset { KindHeld(s, a, f); }
    }
  }

  lemma RefNext(s: State, a: Action)
    requires TaskInv(s) && RefInv(s) && Enabled(s, a) && !Bad(s, a)
    ensures RefInv(Next(s, a))
  {
    hide TaskInv, Enabled, Bad, Next, Holders, Delta;
    forall f: nat | f < |s.files|
      ensures |Next(s, a).files| == |s.files| && Next(s, a).files[f].ref == |Holders(Next(s, a), f)|
      ensures Next(s, a).files[f].ref == 0 ==> Next(s, a).files[f].kind == Unset
    {
      CountNext(s, a, f);
      RefDelta(s, a, f);
      UnsetWhenFree(s, a, f);
    }
    FilesSame(s, a);
  }

  lemma FilesSame(s: State, a: Action)
    requires Enabled(s, a) && !Bad(s, a)
    ensures |Next(s, a).files| == |s.files| && |Next(s, a).procs| == |s.procs|
  {
  }

  /** The file of a process inside the pipe's code stays what it is. */
  lemma KindStays(s: State, a: Action, p: nat)
    requires TaskInv(s) && RefInv(s) && Enabled(s, a) && !Bad(s, a) && p < |s.procs| && s.procs[p].task.Using?
    ensures Has(s, p, s.procs[p].task.fd)
    ensures var f := At(s, p, s.procs[p].task.fd);
            f < |Next(s, a).files| && Next(s, a).files[f].kind == s.files[f].kind
  {
    hide RefInv;
    assert TaskOk(s, p) && TaskOk(s, a.p);
    var fd := s.procs[p].task.fd;
    var f := At(s, p, fd);
    match a
    case Drop(q, h) => if At(s, q, h) == f { TwoHolders(s, p, fd, q, h, f); }
    case ExitDrop(q, x) => if At(s, q, x) == f { TwoHolders(s, p, fd, q, x, f); }
    case _ =>
  }

  /** A process that is in the pipe's code stays there, with its slots, until it runs again. */
  lemma UsingStays(s: State, a: Action, p: nat)
    requires TaskInv(s) && Enabled(s, a) && !Bad(s, a) && p < |s.procs| && s.procs[p].task.Using?
    requires !(a.Section? && a.p == p)
    ensures p < |Next(s, a).procs| && Next(s, a).procs[p] == s.procs[p]
  {
    assert TaskOk(s, p) && TaskOk(s, a.p);
  }

  lemma TaskOwn(s: State, a: Action)
    requires TaskInv(s) && Enabled(s, a) && !Bad(s, a) && !a.Section? && !a.Kill? && !a.ClosePipe?
    ensures a.p < |Next(s, a).procs| && TaskOk(Next(s, a), a.p)
  {
    assert TaskOk(s, a.p);
  }

  /** The process that the action gives something to, besides its own. */
  predicate Reaches(a: Action, p: nat) {
    a.p == p || (a.Move? && a.q == p) || (a.Launch? && a.q == p)
  }

  lemma ProcStays(s: State, a: Action, p: nat)
    requires Enabled(s, a) && !Bad(s, a) && p < |s.procs| && !Reaches(a, p)
    ensures p < |Next(s, a).procs| && Next(s, a).procs[p] == s.procs[p]
  {
  }

  lemma TaskSame(s: State, t: State, p: nat)
    requires p < |s.procs| && p < |t.procs| && |t.files| == |s.files| && TaskOk(s, p) && !s.procs[p].task.Using?
    requires t.procs[p] == s.procs[p]
    ensures TaskOk(t, p)
  {
  }

  lemma TaskGiven(s: State, a: Action, p: nat)
    requires TaskInv(s) && Enabled(s, a) && !Bad(s, a) && p < |s.procs| && p != a.p && (a.Move? || a.Launch?)
             && a.q == p
    ensures p < |Next(s, a).procs| && TaskOk(Next(s, a), p)
  {
    assert TaskOk(s, p) && TaskOk(s, a.p);
  }

  lemma TaskClosed(s: State, a: Action)
    requires TaskInv(s) && Enabled(s, a) && !Bad(s, a) && (a.Kill? || a.ClosePipe?) && !s.procs[a.p].task.Using?
    ensures a.p < |Next(s, a).procs| && TaskOk(Next(s, a), a.p)
  {
    assert TaskOk(s, a.p);
  }

  lemma TaskBystander(s: State, a: Action, p: nat)
    requires TaskInv(s) && Enabled(s, a) && !Bad(s, a) && p < |s.procs| && !s.procs[p].task.Using?
    requires !a.Section? && (a.p != p || a.Kill? || a.ClosePipe?)
    ensures |Next(s, a).procs| == |s.procs| && TaskOk(Next(s, a), p)
  {
    hide TaskInv, Enabled, Bad, Next, TaskOk;
    FilesSame(s, a);
    TaskIs(s, p);
    if a.p == p {
      TaskClosed(s, a);
    } else if Reaches(a, p) {
      TaskGiven(s, a, p);
    } else {
      ProcStays(s, a, p);
      TaskSame(s, Next(s, a), p);
    }
  }

  lemma TaskSection(s: State, a: Action, p: nat)
    requires TaskInv(s) && Enabled(s, a) && !Bad(s, a) && p < |s.procs| && a.Section?
    ensures |Next(s, a).procs| == |s.procs| && TaskOk(Next(s, a), p)
  {
    assert TaskOk(s, p) && TaskOk(s, a.p);
  }

  lemma TaskUsing(s: State, a: Action, p: nat)
    requires TaskInv(s) && RefInv(s) && Enabled(s, a) && !Bad(s, a) && p < |s.procs| && s.procs[p].task.Using?
    requires !a.Section?
    ensures |Next(s, a).procs| == |s.procs| && TaskOk(Next(s, a), p)
  {
    hide TaskInv, RefInv, Enabled, Bad, Next;
    TaskIs(s, p);
    FilesSame(s, a);
    UsingStays(s, a, p);
    KindStays(s, a, p);
  }

  lemma TaskIs(s: State, p: nat)
    requires TaskInv(s) && p < |s.procs|
    ensures TaskOk(s, p)
  {
  }

  lemma TaskNext(s: State, a: Action)
    requires TaskInv(s) && RefInv(s) && Enabled(s, a) && !Bad(s, a)
    ensures TaskInv(Next(s, a))
  {
    hide RefInv, Enabled, Bad, Next, TaskOk;
    FilesSame(s, a);
    forall p: nat | p < |s.procs|
      ensures TaskOk(Next(s, a), p)
    {
      if a.Section? {
        TaskSection(s, a, p);
      } else if s.procs[p].task.Using? {
        TaskUsing(s, a, p);
      } else if a.p != p || a.Kill? || a.ClosePipe? {
        TaskBystander(s, a, p);
      } else {
        TaskOwn(s, a);
      }
    }
  }

  // ------------------------------------------------------ pipe ends: steps

  lemma EndSame(s: State, t: State)
    requires EndInv(s)
    requires forall f: nat, e: End :: Is(t, f, e) <==> Is(s, f, e)
    requires forall p: nat, e: End :: Closes(t, p, e) <==> Closes(s, p, e)
    requires forall e: End :: IsOpen(s, e) ==> IsOpen(t, e)
    ensures EndInv(t)
  {
  }

  /** A section, or a kill, leaves both ends as they are. */
  lemma PipeNextOpen(ps: PipeSpec.State, ev: PipeSpec.Event)
    requires ev.Write? || ev.Read? || ev.Kill?
    ensures PipeNext(ps, ev).readopen == ps.readopen && PipeNext(ps, ev).writeopen == ps.writeopen
  {
  }

  /** The count does not reach 0. */
  predicate Keeps(s: State, a: Action)
    requires Enabled(s, a)
  {
    (a.Drop? || a.ExitDrop?) && s.files[Counted(s, a).value].ref > 1
  }

  lemma IsSame(s: State, a: Action, f: nat, e: End)
    requires Enabled(s, a) && !Bad(s, a) && (Keeps(s, a) || !(a.Drop? || a.ExitDrop? || a.MakePipe? || a.ClosePipe?))
    ensures Is(Next(s, a), f, e) <==> Is(s, f, e)
  {
  }

  lemma ClosesSame(s: State, a: Action, p: nat, e: End)
    requires Enabled(s, a) && !Bad(s, a) && (Keeps(s, a) || !(a.Drop? || a.ExitDrop? || a.MakePipe? || a.ClosePipe?))
    ensures Closes(Next(s, a), p, e) <==> Closes(s, p, e)
  {
  }

  lemma OpenSame(s: State, a: Action, e: End)
    requires Enabled(s, a) && !Bad(s, a) && (Keeps(s, a) || !(a.Drop? || a.ExitDrop? || a.MakePipe? || a.ClosePipe?))
    ensures IsOpen(Next(s, a), e) <==> IsOpen(s, e)
  {
    hide PipeNext;
    if e.pipe in s.pipes {
      if a.Section? {
        var x := KindAt(s, a.p, a.fd).end;
        PipeNextOpen(s.pipes[e.pipe], SectionEvent(a.p, x.writable, a.bytes, a.n, a.killed));
      }
      if a.Kill? { PipeNextOpen(s.pipes[e.pipe], PipeSpec.Kill(a.p)); }
    }
  }

  lemma EndQuiet(s: State, a: Action)
    requires EndInv(s) && Enabled(s, a) && !Bad(s, a)
    requires Keeps(s, a) || !(a.Drop? || a.ExitDrop? || a.MakePipe? || a.ClosePipe?)
    ensures EndInv(Next(s, a))
  {
    hide Enabled, Bad, Next, Is, Closes, IsOpen, Keeps;
    forall f: nat, e: End
      ensures Is(Next(s, a), f, e) <==> Is(s, f, e)
    {
      IsSame(s, a, f, e);
    }
    forall p: nat, e: End
      ensures Closes(Next(s, a), p, e) <==> Closes(s, p, e)
    {
      ClosesSame(s, a, p, e);
    }
    forall e: End | IsOpen(s, e)
      ensures IsOpen(Next(s, a), e)
    {
      OpenSame(s, a, e);
    }
    EndSame(s, Next(s, a));
  }

  /** The last reference to a file goes: its end, if it is one, passes to the process that closes it. */
  lemma EndLower(s: State, p: nat, f: nat, t: State)
    requires EndInv(s) && p < |s.procs| && s.procs[p].closing == None && f < |s.files| && s.files[f].ref == 1
    requires var u := Lower(s, p, f);
             && t.files == u.files && t.pipes == u.pipes && |t.procs| == |u.procs|
             && forall q: nat :: q < |u.procs| ==> t.procs[q].closing == u.procs[q].closing
    ensures EndInv(t)
  {
    forall g: nat, e: End
      ensures Is(t, g, e) <==> Is(s, g, e) && g != f
    {
    }
    forall q: nat, e: End
      ensures Closes(t, q, e) <==> Closes(s, q, e) || (q == p && Is(s, f, e))
    {
    }
  }

  lemma EndLast(s: State, a: Action)
    requires EndInv(s) && Enabled(s, a) && !Bad(s, a) && (a.Drop? || a.ExitDrop?) && !Keeps(s, a)
    ensures EndInv(Next(s, a))
  {
    hide EndInv;
    EndLower(s, a.p, Counted(s, a).value, Next(s, a));
  }

  lemma EndAdd(s: State, t: State, f: nat, g: nat, k: nat)
    requires EndInv(s) && f != g && k !in s.pipes && IsOpen(t, End(k, false)) && IsOpen(t, End(k, true))
    requires forall x: nat, e: End ::
               Is(t, x, e) <==> Is(s, x, e) || (x == f && e == End(k, false)) || (x == g && e == End(k, true))
    requires forall p: nat, e: End :: Closes(t, p, e) <==> Closes(s, p, e)
    requires forall e: End :: IsOpen(s, e) ==> IsOpen(t, e)
    ensures EndInv(t)
  {
    forall x: nat, e: End | Is(s, x, e)
      ensures e.pipe != k
    {
      assert IsOpen(s, e);
    }
    forall x: nat, e: End | Closes(s, x, e)
      ensures e.pipe != k
    {
      assert IsOpen(s, e);
    }
  }

  lemma EndMake(s: State, a: Action)
    requires EndInv(s) && PipeInv(s) && Enabled(s, a) && !Bad(s, a) && a.MakePipe?
    ensures EndInv(Next(s, a))
  {
    hide EndInv;
    var t, k, f, g := Next(s, a), s.nextPipe, At(s, a.p, a.h), At(s, a.p, a.g);
    assert k !in s.pipes;
    forall x: nat, e: End
      ensures Is(t, x, e) <==> Is(s, x, e) || (x == f && e == End(k, false)) || (x == g && e == End(k, true))
    {
    }
    EndAdd(s, t, f, g, k);
  }

  lemma EndRemove(s: State, t: State, p: nat, x: End)
    requires EndInv(s) && Closes(s, p, x)
    requires forall f: nat, e: End :: Is(t, f, e) <==> Is(s, f, e)
    requires forall q: nat, e: End :: Closes(t, q, e) <==> Closes(s, q, e) && q != p
    requires forall e: End :: IsOpen(s, e) && e != x ==> IsOpen(t, e)
    ensures EndInv(t)
  {
  }

  lemma EndClose(s: State, a: Action)
    requires EndInv(s) && PipeInv(s) && Enabled(s, a) && !Bad(s, a) && a.ClosePipe?
    ensures EndInv(Next(s, a))
  {
    hide EndInv, PipeNext;
    var t, x := Next(s, a), s.procs[a.p].closing.value;
    assert PipeOk(s, x.pipe);
    CloseOpen(s.pipes[x.pipe], x);
    forall e: End | IsOpen(s, e) && e != x
      ensures IsOpen(t, e)
    {
    }
    EndRemove(s, t, a.p, x);
  }

  /** Closing one end leaves the other as it is. */
  lemma CloseOpen(ps: PipeSpec.State, e: End)
    requires PipeSpec.StreamInv(ps)
    ensures var ps' := PipeNext(ps, CloseEvent(e));
            if e.writable then !ps'.writeopen && ps'.readopen == ps.readopen
            else !ps'.readopen && ps'.writeopen == ps.writeopen
  {
  }

  lemma EndNext(s: State, a: Action)
    requires EndInv(s) && PipeInv(s) && Enabled(s, a) && !Bad(s, a)
    ensures EndInv(Next(s, a))
  {
    hide EndInv, PipeInv, Enabled, Bad, Next, Keeps;
    if a.MakePipe? {
      EndMake(s, a);
    } else if a.ClosePipe? {
      EndClose(s, a);
    } else if (a.Drop? || a.ExitDrop?) && !Keeps(s, a) {
      EndLast(s, a);
    } else {
      EndQuiet(s, a);
    }
  }

  // ------------------------------------------------------- no end forgotten

  lemma LeakQuiet(s: State, a: Action, e: End)
    requires LeakInv(s) && Enabled(s, a) && !Bad(s, a) && IsOpen(Next(s, a), e)
    requires Keeps(s, a) || !(a.Drop? || a.ExitDrop? || a.MakePipe? || a.ClosePipe?)
    ensures Kept(Next(s, a), e)
  {
    hide Enabled, Bad, Next, Is, Closes, IsOpen, Keeps;
    OpenSame(s, a, e);
    if f: nat :| Is(s, f, e) {
      IsSame(s, a, f, e);
    } else {
      var p: nat :| Closes(s, p, e);
      ClosesSame(s, a, p, e);
    }
  }

  lemma LeakLast(s: State, a: Action, e: End)
    requires LeakInv(s) && Enabled(s, a) && !Bad(s, a) && (a.Drop? || a.ExitDrop?) && !Keeps(s, a)
    requires IsOpen(Next(s, a), e)
    ensures Kept(Next(s, a), e)
  {
    var t, f := Next(s, a), Counted(s, a).value;
    assert IsOpen(s, e);
    if g: nat :| Is(s, g, e) {
      if g == f { assert Closes(t, a.p, e); } else { assert Is(t, g, e); }
    } else {
      var p: nat :| Closes(s, p, e);
      assert Closes(t, p, e);
    }
  }

  lemma LeakMake(s: State, a: Action, e: End)
    requires LeakInv(s) && Enabled(s, a) && !Bad(s, a) && a.MakePipe? && IsOpen(Next(s, a), e)
    ensures Kept(Next(s, a), e)
  {
    var t := Next(s, a);
    if e.pipe == s.nextPipe {
      assert Is(t, if e.writable then At(s, a.p, a.g) else At(s, a.p, a.h), e);
    } else {
      assert IsOpen(s, e);
      if f: nat :| Is(s, f, e) {
        assert Is(t, f, e);
      } else {
        var p: nat :| Closes(s, p, e);
        assert Closes(t, p, e);
      }
    }
  }

  lemma LeakClose(s: State, a: Action, e: End)
    requires LeakInv(s) && PipeInv(s) && Enabled(s, a) && !Bad(s, a) && a.ClosePipe? && IsOpen(Next(s, a), e)
    ensures Kept(Next(s, a), e)
  {
    hide PipeNext;
    var t, x := Next(s, a), s.procs[a.p].closing.value;
    assert PipeOk(s, x.pipe);
    CloseOpen(s.pipes[x.pipe], x);
    assert IsOpen(s, e) && e != x;
    if f: nat :| Is(s, f, e) {
      assert Is(t, f, e);
    } else {
      var p: nat :| Closes(s, p, e);
      assert Closes(t, p, e);
    }
  }

  lemma LeakNext(s: State, a: Action)
    requires LeakInv(s) && PipeInv(s) && Enabled(s, a) && !Bad(s, a)
    ensures LeakInv(Next(s, a))
  {
    hide PipeInv, Enabled, Bad, Next, Keeps, Kept, IsOpen;
    forall e: End | IsOpen(Next(s, a), e)
      ensures Kept(Next(s, a), e)
    {
      if a.MakePipe? {
        LeakMake(s, a, e);
      } else if a.ClosePipe? {
        LeakClose(s, a, e);
      } else if (a.Drop? || a.ExitDrop?) && !Keeps(s, a) {
        LeakLast(s, a, e);
      } else {
        LeakQuiet(s, a, e);
      }
    }
  }

  // ------------------------------------------------------------ pipes: steps

  lemma ThroughStays(s: State, a: Action, p: nat, e: End)
    requires TaskInv(s) && RefInv(s) && Enabled(s, a) && !Bad(s, a) && Through(s, p, e) && !(a.Section? && a.p == p)
    ensures Through(Next(s, a), p, e)
  {
    hide TaskInv, RefInv, Enabled, Bad, Next;
    FilesSame(s, a);
    UsingStays(s, a, p);
    KindStays(s, a, p);
  }

  /** A process that runs a section is not asleep on any pipe. */
  lemma RunnerAwake(s: State, a: Action, k: nat)
    requires Enabled(s, a) && a.Section? && k in s.pipes && PipeOk(s, k)
    ensures a.p !in s.pipes[k].writers && a.p !in s.pipes[k].readers
  {
  }

  /** Who sleeps on a pipe after an event did before, or is the process that runs the section. */
  lemma Sleepers(ps: PipeSpec.State, ev: PipeSpec.Event, p: nat)
    requires p in PipeNext(ps, ev).writers || p in PipeNext(ps, ev).readers
    ensures p in PipeNext(ps, ev).writers ==> p in ps.writers || (ev.Write? && ev.pid == p)
    ensures p in PipeNext(ps, ev).readers ==> p in ps.readers || (ev.Read? && ev.pid == p)
  {
  }

  lemma StreamNext(ps: PipeSpec.State, ev: PipeSpec.Event)
    requires PipeSpec.StreamInv(ps)
    ensures PipeSpec.StreamInv(PipeNext(ps, ev))
  {
    PipeSpec.StreamStep(ps, ev);
  }

  /** What the action does to pipe k, if anything. */
  function EventOn(s: State, a: Action, k: nat): Option<PipeSpec.Event>
    requires Enabled(s, a)
  {
    match a
    case Section(p, fd, bytes, n, killed) =>
      var e := KindAt(s, p, fd).end;
      if e.pipe == k then Some(SectionEvent(p, e.writable, bytes, n, killed)) else None
    case ClosePipe(p) =>
      if s.procs[p].closing.value.pipe == k then Some(CloseEvent(s.procs[p].closing.value)) else None
    case Kill(p) =>
      if s.procs[p].task.Using? && Has(s, p, s.procs[p].task.fd)
         && KindAt(s, p, s.procs[p].task.fd).PipeEnd? && KindAt(s, p, s.procs[p].task.fd).end.pipe == k
      then Some(PipeSpec.Kill(p)) else None
    case _ => None
  }

  /** A pipe changes by events that it allows, and by nothing else; it is freed when both ends are closed. */
  lemma PipeChanges(s: State, a: Action, k: nat)
    requires Enabled(s, a) && !Bad(s, a) && k in s.pipes
    ensures var ev, t := EventOn(s, a, k), Next(s, a);
            && (ev.Some? ==> PipeSpec.Enabled(s.pipes[k], ev.value))
            && (k in t.pipes && k != s.nextPipe ==>
                  t.pipes[k] == if ev.Some? then PipeNext(s.pipes[k], ev.value) else s.pipes[k])
            && (k !in t.pipes ==>
                  && ev.Some? && !PipeNext(s.pipes[k], ev.value).readopen && !PipeNext(s.pipes[k], ev.value).writeopen)
  {
    hide PipeNext;
  }

  /** A process that falls asleep in a section has its descriptor for that end. */
  lemma NewSleeper(s: State, a: Action, e: End)
    requires TaskInv(s) && Enabled(s, a) && !Bad(s, a) && a.Section? && KindAt(s, a.p, a.fd) == PipeEnd(e)
    requires Asleep(Next(s, a), a.p, e)
    ensures Through(Next(s, a), a.p, e)
  {
    hide PipeNext;
    assert TaskOk(s, a.p);
  }

  lemma SleeperThrough(s: State, a: Action, k: nat, p: nat, writable: bool)
    requires TaskInv(s) && RefInv(s) && Enabled(s, a) && !Bad(s, a) && k in s.pipes && PipeOk(s, k)
    requires k in Next(s, a).pipes && k != s.nextPipe && Asleep(Next(s, a), p, End(k, writable))
    ensures Through(Next(s, a), p, End(k, writable))
  {
    hide TaskInv, RefInv, Enabled, Bad, Next, PipeNext, EventOn;
    PipeChanges(s, a, k);
    var ev := EventOn(s, a, k);
    if ev.Some? { Sleepers(s.pipes[k], ev.value, p); }
    EventIs(s, a, k);
    if a.Section? && a.p == p {
      RunnerAwake(s, a, k);
      NewSleeper(s, a, End(k, writable));
    } else {
      ThroughStays(s, a, p, End(k, writable));
    }
  }

  lemma EventIs(s: State, a: Action, k: nat)
    requires Enabled(s, a)
    ensures var ev := EventOn(s, a, k);
            && (ev.Some? && ev.value.Write? ==> a.Section? && a.p == ev.value.pid && Has(s, a.p, a.fd)
                                                && KindAt(s, a.p, a.fd) == PipeEnd(End(k, true)))
            && (ev.Some? && ev.value.Read? ==> a.Section? && a.p == ev.value.pid && Has(s, a.p, a.fd)
                                               && KindAt(s, a.p, a.fd) == PipeEnd(End(k, false)))
  {
  }

  /** Some end of every pipe is open. */
  lemma StaysOpen(s: State, a: Action, k: nat)
    requires Enabled(s, a) && !Bad(s, a) && k in s.pipes && PipeOk(s, k) && k in Next(s, a).pipes && k != s.nextPipe
    ensures Next(s, a).pipes[k].readopen || Next(s, a).pipes[k].writeopen
  {
    hide PipeNext;
    if a.Section? {
      var x := KindAt(s, a.p, a.fd).end;
      PipeNextOpen(s.pipes[k], SectionEvent(a.p, x.writable, a.bytes, a.n, a.killed));
    }
    if a.Kill? { PipeNextOpen(s.pipes[k], PipeSpec.Kill(a.p)); }
  }

  lemma PipeOkNext(s: State, a: Action, k: nat)
    requires TaskInv(s) && RefInv(s) && Enabled(s, a) && !Bad(s, a) && k in s.pipes && PipeOk(s, k)
    requires k in Next(s, a).pipes
    ensures PipeOk(Next(s, a), k)
  {
    hide TaskInv, RefInv, Enabled, Bad, Next, PipeNext, EventOn, Through, PipeSpec.StreamInv;
    PipeChanges(s, a, k);
    NextPipe(s, a);
    if EventOn(s, a, k).Some? { StreamNext(s.pipes[k], EventOn(s, a, k).value); }
    StaysOpen(s, a, k);
    forall p | p in Next(s, a).pipes[k].writers
      ensures Through(Next(s, a), p, End(k, true))
    {
      SleeperThrough(s, a, k, p, true);
    }
    forall p | p in Next(s, a).pipes[k].readers
      ensures Through(Next(s, a), p, End(k, false))
    {
      SleeperThrough(s, a, k, p, false);
    }
  }

  /** New pipes have new names. */
  lemma NextPipe(s: State, a: Action)
    requires Enabled(s, a) && !Bad(s, a)
    ensures Next(s, a).nextPipe >= s.nextPipe
    ensures forall k :: k in Next(s, a).pipes && k !in s.pipes ==>
              k == s.nextPipe < Next(s, a).nextPipe && a.MakePipe? && Next(s, a).pipes[k] == PipeSpec.Start(a.data)
  {
    hide PipeNext;
  }

  lemma PipeInvNext(s: State, a: Action)
    requires TaskInv(s) && RefInv(s) && PipeInv(s) && Enabled(s, a) && !Bad(s, a)
    ensures PipeInv(Next(s, a))
  {
    hide TaskInv, RefInv, Bad, Next, PipeOk, PipeSpec.StreamInv;
    NextPipe(s, a);
    forall k | k in Next(s, a).pipes
      ensures PipeOk(Next(s, a), k)
    {
      if k in s.pipes { PipeOkNext(s, a, k); } else { NewPipeOk(s, a, k); }
    }
  }

  lemma NewPipeOk(s: State, a: Action, k: nat)
    requires Enabled(s, a) && !Bad(s, a) && k in Next(s, a).pipes && k !in s.pipes
    ensures PipeOk(Next(s, a), k)
  {
    hide Next, Bad;
    NextPipe(s, a);
    PipeSpec.StartInv(a.data);
  }

  lemma StepInv(s: State, a: Action)
    requires Inv(s) && Enabled(s, a)
    ensures !Bad(s, a) && Inv(Next(s, a))
  {
    hide TaskInv, RefInv, EndInv, PipeInv, LeakInv, Enabled, Bad, Next;
    NeverBad(s, a);
    LeakNext(s, a);
    TaskNext(s, a);
    RefNext(s, a);
    EndNext(s, a);
    PipeInvNext(s, a);
  }

  // -------------------------------------------------------------------- runs

  ghost predicate Steps(s: State, a: Action, t: State) {
    Enabled(s, a) && (!Bad(s, a) ==> t == Next(s, a))
  }

  ghost predicate IsRun(ss: seq<State>, acts: seq<Action>) {
    |ss| == |acts| + 1 && forall i :: 0 <= i < |acts| ==> Steps(ss[i], acts[i], ss[i + 1])
  }

  /** No file is open, and only process 0 is there. */
  lemma StartInv(nfiles: nat, nprocs: nat)
    requires nprocs > 0
    ensures var none := seq(SLOTS, _ => None);
            Inv(State(seq(nfiles, _ => File(0, Unset)),
                      seq(nprocs, i => Proc(none, if i == 0 then Idle else Unborn, None)), map[], 0))
  {
    var none: seq<Option<nat>> := seq(SLOTS, _ => None);
    var s := State(seq(nfiles, _ => File(0, Unset)),
                   seq(nprocs, i => Proc(none, if i == 0 then Idle else Unborn, None)), map[], 0);
    forall f: nat | f < nfiles
      ensures Holders(s, f) == {}
    {
    }
  }

  lemma {:induction false} RunInv(ss: seq<State>, acts: seq<Action>, i: nat)
    requires IsRun(ss, acts) && Inv(ss[0]) && i < |ss|
    ensures Inv(ss[i])
  {
    hide Inv, Enabled, Bad, Next;
    if i > 0 {
      RunInv(ss, acts, i - 1);
      assert Steps(ss[i - 1], acts[i - 1], ss[i]);
      StepInv(ss[i - 1], acts[i - 1]);
    }
  }

  /** In every run filedup and fileclose never panic, no call touches a freed pipe or a closed end, and no end is closed
      over a sleeper. */
  lemma RunNeverBad(ss: seq<State>, acts: seq<Action>, i: nat)
    requires IsRun(ss, acts) && Inv(ss[0]) && i < |acts|
    ensures Enabled(ss[i], acts[i]) && !Bad(ss[i], acts[i])
  {
    hide Inv, Enabled, Bad, Next;
    RunInv(ss, acts, i);
    assert Steps(ss[i], acts[i], ss[i + 1]);
    NeverBad(ss[i], acts[i]);
  }

  /** In every run a file's count is the number of descriptors and pending pointers that account for it. */
  lemma CountsAreHolders(ss: seq<State>, acts: seq<Action>, i: nat, f: nat)
    requires IsRun(ss, acts) && Inv(ss[0]) && i < |ss| && f < |ss[i].files|
    ensures ss[i].files[f].ref == |Holders(ss[i], f)|
  {
    hide TaskInv, EndInv, PipeInv, Holders, Enabled, Bad, Next;
    RunInv(ss, acts, i);
  }

  /** A descriptor that a process may use leads to a file that is open and, if that is a pipe end, to a pipe that
      has not been freed and whose end is open. */
  lemma DescriptorsLead(ss: seq<State>, acts: seq<Action>, i: nat, p: nat, fd: nat, f: nat)
    requires IsRun(ss, acts) && Inv(ss[0]) && i < |ss| && Holds(ss[i], p, fd, f)
    ensures f < |ss[i].files| && ss[i].files[f].ref >= 1
    ensures ss[i].files[f].kind.PipeEnd? ==> IsOpen(ss[i], ss[i].files[f].kind.end)
  {
    hide Enabled, Bad, Next, PipeInv, RefInv;
    RunInv(ss, acts, i);
    assert TaskOk(ss[i], p);
    HolderRef(ss[i], p, fd, f);
    if ss[i].files[f].kind.PipeEnd? { assert Is(ss[i], f, ss[i].files[f].kind.end); }
  }

  // -------------------------------------------- what the pipes' own runs need

  /** What happens to a pipe in any run, from a state in which nobody is asleep on it without reason, is a run of
      the pipe itself: every event comes when the pipe allows it. */
  lemma {:induction false} PipeRun(ss: seq<State>, acts: seq<Action>, k: nat, i: nat, j: nat)
    returns (ps: seq<PipeSpec.State>, evs: seq<PipeSpec.Event>)
    requires IsRun(ss, acts) && Inv(ss[0]) && i <= j < |ss| && forall m :: i <= m <= j ==> k in ss[m].pipes
    requires PipeSpec.SleepInv(ss[i].pipes[k])
    ensures PipeSpec.IsRun(ps, evs) && ps[0] == ss[i].pipes[k] && ps[|ps| - 1] == ss[j].pipes[k]
    decreases j - i
  {
    hide TaskInv, RefInv, EndInv, Enabled, Bad, Next, PipeNext, PipeSpec.StreamInv, PipeSpec.SleepInv, Through;
    RunInv(ss, acts, j);
    if i == j {
      assert PipeOk(ss[j], k);
      ps, evs := [ss[i].pipes[k]], [];
    } else {
      ps, evs := PipeRun(ss, acts, k, i, j - 1);
      var s, a, t := ss[j - 1], acts[j - 1], ss[j];
      RunInv(ss, acts, j - 1);
      RunNeverBad(ss, acts, j - 1);
      assert Steps(s, a, t) && PipeOk(s, k);
      PipeChanges(s, a, k);
      var ev := EventOn(s, a, k);
      if ev.Some? {
        PipeStepIs(s.pipes[k], ev.value);
        RunSnoc(ps, evs, ev.value, t.pipes[k]);
        ps, evs := ps + [t.pipes[k]], evs + [ev.value];
      }
    }
  }

  lemma PipeStepIs(ps: PipeSpec.State, ev: PipeSpec.Event)
    requires PipeSpec.StreamInv(ps) && PipeSpec.Enabled(ps, ev)
    ensures PipeSpec.Steps(ps, ev, PipeNext(ps, ev))
  {
  }

  lemma RunSnoc(ps: seq<PipeSpec.State>, evs: seq<PipeSpec.Event>, ev: PipeSpec.Event, t: PipeSpec.State)
    requires PipeSpec.IsRun(ps, evs) && PipeSpec.Steps(ps[|ps| - 1], ev, t)
    ensures PipeSpec.IsRun(ps + [t], evs + [ev])
  {
    hide PipeSpec.StreamInv, PipeSpec.SleepInv, PipeSpec.Steps;
    var qs, es := ps + [t], evs + [ev];
    forall m | 0 <= m < |es|
      ensures PipeSpec.Steps(qs[m], es[m], qs[m + 1])
    {
      if m < |evs| { assert PipeSpec.Steps(ps[m], evs[m], ps[m + 1]); }
    }
  }

  /** When a pipe has been freed, no file is an end of it, no process is about to close one, and nobody is in its
      code. */
  lemma FreedUnused(ss: seq<State>, acts: seq<Action>, i: nat, e: End, x: nat)
    requires IsRun(ss, acts) && Inv(ss[0]) && i < |ss| && e.pipe !in ss[i].pipes
    ensures !Is(ss[i], x, e) && !Closes(ss[i], x, e) && !Through(ss[i], x, e)
  {
    hide TaskInv, RefInv, PipeInv, LeakInv, Enabled, Bad, Next;
    RunInv(ss, acts, i);
    assert !IsOpen(ss[i], e);
    if Through(ss[i], x, e) { ThroughIs(ss[i], x, e); }
  }

  lemma ThroughIs(s: State, p: nat, e: End)
    requires Through(s, p, e)
    ensures exists f: nat :: Is(s, f, e)
  {
    assert Is(s, At(s, p, s.procs[p].task.fd), e);
  }

  /** And a pipe is freed once nothing leads to it: of every pipe there is, some file is an end, or some process is
      about to close one. */
  lemma NoPipeLeaks(ss: seq<State>, acts: seq<Action>, i: nat, k: nat)
    requires IsRun(ss, acts) && Inv(ss[0]) && i < |ss| && k in ss[i].pipes
    ensures Kept(ss[i], End(k, false)) || Kept(ss[i], End(k, true))
  {
    hide TaskInv, RefInv, EndInv, Enabled, Bad, Next, Kept;
    RunInv(ss, acts, i);
    assert PipeOk(ss[i], k);
    assert IsOpen(ss[i], End(k, false)) || IsOpen(ss[i], End(k, true));
  }

  // ------------------------------------------------------------- the scans

  /** First file from n on that is not in use, or the length. */
  function FirstFree(files: seq<File>, n: nat): (r: nat)
    requires n <= |files|
    ensures n <= r <= |files| && (r < |files| ==> files[r].ref == 0)
    ensures forall g :: n <= g < r ==> files[g].ref != 0
    decreases |files| - n
  {
    if n == |files| || files[n].ref == 0 then n else FirstFree(files, n + 1)
  }

  /** The table that filealloc, filedup and fileclose change under ftable.lock. */
  class Table {
    var files: seq<File>

    /** Takes the first file that is not in use; fails exactly when there is none. */
    method FileAlloc() returns (r: Option<nat>)
      modifies `files
      ensures r.None? <==> old(FirstFree(files, 0)) == |old(files)|
      ensures r.None? ==> files == old(files)
      ensures r.Some? ==> r.value == old(FirstFree(files, 0))
      ensures r.Some? ==> files == old(files)[r.value := old(files)[r.value].(ref := 1)]
    {
      var f := 0;
      while f < |files|
        invariant f <= |files| && files == old(files) && FirstFree(files, f) == FirstFree(files, 0)
      {
        if files[f].ref == 0 {
          files := files[f := files[f].(ref := 1)];
          return Some(f);
        }
        f := f + 1;
      }
      return None;
    }
  }
}

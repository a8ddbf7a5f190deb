/** What dup, close, pipe, fork and exit come to for the descriptors of a process, each as a whole. */
module FileCalls {
  import opened Basics
  import opened FileTable
  import PipeSpec

  /** The actions, one after the other, lead from s to t. */
  ghost predicate Goes(s: State, acts: seq<Action>, t: State)
    decreases |acts|
  {
    if acts == [] then s == t
    else Enabled(s, acts[0]) && !Bad(s, acts[0]) && Goes(Next(s, acts[0]), acts[1..], t)
  }

  lemma {:induction false} GoesOn(s: State, acts: seq<Action>, t: State, more: seq<Action>, u: State)
    requires Goes(s, acts, t) && Goes(t, more, u)
    ensures Goes(s, acts + more, u)
    decreases |acts|
  {
    hide Enabled, Bad, Next;
    if acts == [] {
      assert acts + more == more;
    } else {
      assert (acts + more)[0] == acts[0] && (acts + more)[1..] == acts[1..] + more;
      GoesOn(Next(s, acts[0]), acts[1..], t, more, u);
    }
  }

  lemma GoesOne(s: State, a: Action)
    requires Enabled(s, a) && !Bad(s, a)
    ensures Goes(s, [a], Next(s, a))
  {
    hide Enabled, Bad, Next;
    assert [a][1..] == [];
  }

  lemma GoesTwo(s: State, a: Action, b: Action)
    requires Enabled(s, a) && !Bad(s, a) && Enabled(Next(s, a), b) && !Bad(Next(s, a), b)
    ensures Goes(s, [a, b], Next(Next(s, a), b))
  {
    hide Enabled, Bad, Next;
    assert [a, b][1..] == [b];
    GoesOne(Next(s, a), b);
  }

  lemma {:induction false} GoesInv(s: State, acts: seq<Action>, t: State)
    requires Inv(s) && Goes(s, acts, t)
    ensures Inv(t)
    decreases |acts|
  {
    hide Inv, Enabled, Bad, Next;
    if acts != [] {
      StepInv(s, acts[0]);
      GoesInv(Next(s, acts[0]), acts[1..], t);
    }
  }

  /** The state with other slots for process p. */
  function WithSlots(s: State, p: nat, slots: seq<Option<nat>>): State
    requires p < |s.procs|
  {
    s.(procs := s.procs[p := s.procs[p].(slots := slots)])
  }

  lemma SlotsTwice(s: State, p: nat, a: seq<Option<nat>>, b: seq<Option<nat>>)
    requires p < |s.procs|
    ensures WithSlots(WithSlots(s, p, a), p, b) == WithSlots(s, p, b)
  {
    assert WithSlots(WithSlots(s, p, a), p, b).procs == WithSlots(s, p, b).procs;
  }

  function WithRef(s: State, f: nat, ref: nat): State
    requires f < |s.files|
  {
    s.(files := s.files[f := File(ref, s.files[f].kind)])
  }

  /** A process that can make a call, and a descriptor of it. */
  ghost predicate Opened(s: State, p: nat, fd: nat, f: nat) {
    && Inv(s) && p < |s.procs| && s.procs[p].task == Idle && s.procs[p].closing == None
    && fd < NOFILE && fd < |s.procs[p].slots| && s.procs[p].slots[fd] == Some(f)
  }

  lemma OpenedRef(s: State, p: nat, fd: nat, f: nat)
    requires Opened(s, p, fd, f)
    ensures |s.procs[p].slots| == SLOTS && f < |s.files| && s.files[f].ref >= 1
  {
    hide EndInv, PipeInv, LeakInv;
    assert TaskOk(s, p);
    HolderRef(s, p, fd, f);
  }

  // ---------------------------------------------------------- single steps

  /** A process with nothing under way. */
  predicate Ready(s: State, p: nat) {
    p < |s.procs| && s.procs[p].task == Idle && s.procs[p].closing == None
  }

  lemma MoveStep(s: State, p: nat, x: nat, y: nat, f: nat)
    requires Ready(s, p) && x < |s.procs[p].slots| && y < |s.procs[p].slots| && f < |s.files|
    requires s.procs[p].slots[x] == Some(f) && s.procs[p].slots[y] == None
    ensures Enabled(s, Move(p, x, p, y)) && !Bad(s, Move(p, x, p, y))
    ensures Next(s, Move(p, x, p, y)) == WithSlots(s, p, s.procs[p].slots[x := None][y := Some(f)])
  {
  }

  lemma GiveStep(s: State, p: nat, x: nat, q: nat, y: nat, f: nat)
    requires Ready(s, p) && x < |s.procs[p].slots| && Hand(x) && f < |s.files| && s.procs[p].slots[x] == Some(f)
    requires q < |s.procs| && q != p && s.procs[q].task == Unborn && y < NOFILE && y < |s.procs[q].slots|
    requires s.procs[q].slots[y] == None
    ensures Enabled(s, Move(p, x, q, y)) && !Bad(s, Move(p, x, q, y))
    ensures Next(s, Move(p, x, q, y)) ==
            WithSlots(WithSlots(s, p, s.procs[p].slots[x := None]), q, s.procs[q].slots[y := Some(f)])
  {
  }

  lemma DropStep(s: State, p: nat, h: nat, f: nat)
    requires Ready(s, p) && h < |s.procs[p].slots| && Hand(h) && f < |s.files| && s.procs[p].slots[h] == Some(f)
    requires s.files[f].ref > 1
    ensures Enabled(s, Drop(p, h)) && !Bad(s, Drop(p, h))
    ensures Next(s, Drop(p, h)) == WithRef(WithSlots(s, p, s.procs[p].slots[h := None]), f, s.files[f].ref - 1)
  {
  }

  lemma ForkDupStep(s: State, p: nat, fd: nat, h: nat, f: nat)
    requires Ready(s, p) && fd < NOFILE && fd < |s.procs[p].slots| && h < |s.procs[p].slots| && Hand(h)
    requires f < |s.files| && s.procs[p].slots[fd] == Some(f) && s.procs[p].slots[h] == None && s.files[f].ref >= 1
    ensures Enabled(s, ForkDup(p, fd, h)) && !Bad(s, ForkDup(p, fd, h))
    ensures Next(s, ForkDup(p, fd, h)) ==
            WithRef(WithSlots(s, p, s.procs[p].slots[h := Some(f)]), f, s.files[f].ref + 1)
  {
  }

  lemma DupStep(s: State, p: nat, fd: nat, f: nat, to: nat)
    requires Ready(s, p) && fd < NOFILE && fd < |s.procs[p].slots| && to < NOFILE && to < |s.procs[p].slots|
    requires f < |s.files| && s.procs[p].slots[fd] == Some(f) && s.procs[p].slots[to] == None
    ensures Enabled(s, Dup(p, fd, to)) && !Bad(s, Dup(p, fd, to))
    ensures Next(s, Dup(p, fd, to)) ==
            s.(procs := s.procs[p := Proc(s.procs[p].slots[to := Some(f)], Duping(fd, to), None)])
  {
  }

  lemma DupRefStep(s: State, p: nat, fd: nat, f: nat, to: nat)
    requires p < |s.procs| && s.procs[p].task == Duping(fd, to) && to < |s.procs[p].slots|
    requires f < |s.files| && s.procs[p].slots[to] == Some(f) && s.files[f].ref >= 1
    ensures Enabled(s, DupRef(p)) && !Bad(s, DupRef(p))
    ensures Next(s, DupRef(p)) ==
            WithRef(s.(procs := s.procs[p := s.procs[p].(task := Idle)]), f, s.files[f].ref + 1)
  {
  }

  lemma AllocStep(s: State, p: nat, h: nat, f: nat)
    requires Ready(s, p) && h < |s.procs[p].slots| && Hand(h) && s.procs[p].slots[h] == None
    requires f < |s.files| && s.files[f].ref == 0
    ensures Enabled(s, Alloc(p, h, f)) && !Bad(s, Alloc(p, h, f))
    ensures Next(s, Alloc(p, h, f)) == WithRef(WithSlots(s, p, s.procs[p].slots[h := Some(f)]), f, 1)
  {
  }

  lemma MakeStep(s: State, p: nat, f: nat, g: nat, data: seq<char>)
    requires Ready(s, p) && |s.procs[p].slots| == SLOTS && f < |s.files| && g < |s.files| && f != g
    requires s.procs[p].slots[NOFILE] == Some(f) && s.procs[p].slots[NOFILE + 1] == Some(g)
    requires s.files[f].kind == Unset && s.files[g].kind == Unset && |data| == PipeSpec.SIZE
    ensures var a, k := MakePipe(p, NOFILE, NOFILE + 1, data), s.nextPipe;
            && Enabled(s, a) && !Bad(s, a)
            && Next(s, a) == s.(files := s.files[f := s.files[f].(kind := PipeEnd(End(k, false)))]
                                                [g := s.files[g].(kind := PipeEnd(End(k, true)))],
                                pipes := s.pipes[k := PipeSpec.State(data, 0, 0, true, true, "", "", {}, {})],
                                nextPipe := k + 1)
  {
  }

  // ----------------------------------------------------------- dup and close

  /** dup makes another descriptor for the same file, which has one reference more; nothing else changes. */
  lemma DupDoes(s: State, p: nat, fd: nat, f: nat, to: nat)
    requires Opened(s, p, fd, f) && to < NOFILE && to < |s.procs[p].slots| && s.procs[p].slots[to] == None
    ensures f < |s.files| && to < |s.procs[p].slots|
    ensures Goes(s, [Dup(p, fd, to), DupRef(p)],
                 WithRef(WithSlots(s, p, s.procs[p].slots[to := Some(f)]), f, s.files[f].ref + 1))
  {
    hide Inv, Enabled, Bad, Next;
    OpenedRef(s, p, fd, f);
    DupStep(s, p, fd, f, to);
    var s1 := Next(s, Dup(p, fd, to));
    DupRefStep(s1, p, fd, f, to);
    GoesTwo(s, Dup(p, fd, to), DupRef(p));
    assert Next(s1, DupRef(p)).procs == WithSlots(s, p, s.procs[p].slots[to := Some(f)]).procs;
  }

  /** close of a file with other references takes one away and empties the slot; nothing else changes. */
  lemma CloseDoes(s: State, p: nat, fd: nat, f: nat, h: nat)
    requires Opened(s, p, fd, f) && Hand(h) && h < |s.procs[p].slots| && s.procs[p].slots[h] == None
    requires f < |s.files| && s.files[f].ref > 1
    ensures Goes(s, [Move(p, fd, p, h), Drop(p, h)],
                 WithRef(WithSlots(s, p, s.procs[p].slots[fd := None]), f, s.files[f].ref - 1))
  {
    hide Inv, Enabled, Bad, Next;
    OpenedRef(s, p, fd, f);
    MoveStep(s, p, fd, h, f);
    var s1 := Next(s, Move(p, fd, p, h));
    DropStep(s1, p, h, f);
    GoesTwo(s, Move(p, fd, p, h), Drop(p, h));
    assert s1.procs[p].slots[h := None] == s.procs[p].slots[fd := None];
    assert Next(s1, Drop(p, h)).procs == WithSlots(s, p, s.procs[p].slots[fd := None]).procs;
  }

  /** Closing what dup has made leaves everything as it was. */
  lemma DupThenClose(s: State, p: nat, fd: nat, f: nat, to: nat, h: nat)
    requires Opened(s, p, fd, f) && to < NOFILE && to < |s.procs[p].slots| && s.procs[p].slots[to] == None
    requires Hand(h) && h < |s.procs[p].slots| && s.procs[p].slots[h] == None
    ensures Goes(s, [Dup(p, fd, to), DupRef(p), Move(p, to, p, h), Drop(p, h)], s)
  {
    hide Inv, Goes;
    OpenedRef(s, p, fd, f);
    DupDoes(s, p, fd, f, to);
    var t := WithRef(WithSlots(s, p, s.procs[p].slots[to := Some(f)]), f, s.files[f].ref + 1);
    GoesInv(s, [Dup(p, fd, to), DupRef(p)], t);
    CloseDoes(t, p, to, f, h);
    var u := WithRef(WithSlots(t, p, t.procs[p].slots[to := None]), f, t.files[f].ref - 1);
    assert t.procs[p].slots[to := None] == s.procs[p].slots;
    assert u.procs == s.procs && u.files == s.files;
    GoesOn(s, [Dup(p, fd, to), DupRef(p)], t, [Move(p, to, p, h), Drop(p, h)], u);
    assert [Dup(p, fd, to), DupRef(p)] + [Move(p, to, p, h), Drop(p, h)] ==
           [Dup(p, fd, to), DupRef(p), Move(p, to, p, h), Drop(p, h)];
  }

  /** The last close of a file that is no pipe end frees the file. */
  lemma LastCloseDoes(s: State, p: nat, fd: nat, f: nat, h: nat)
    requires Opened(s, p, fd, f) && Hand(h) && h < |s.procs[p].slots| && s.procs[p].slots[h] == None
    requires f < |s.files| && s.files[f].ref == 1 && !s.files[f].kind.PipeEnd?
    ensures Goes(s, [Move(p, fd, p, h), Drop(p, h)],
                 WithSlots(s, p, s.procs[p].slots[fd := None]).(files := s.files[f := File(0, Unset)]))
  {
    hide Inv;
    OpenedRef(s, p, fd, f);
    var a := Move(p, fd, p, h);
    var s1 := Next(s, a);
    assert s1.procs[p].slots == s.procs[p].slots[fd := None][h := Some(f)] && s1.files == s.files;
    GoesTwo(s, a, Drop(p, h));
    var t := WithSlots(s, p, s.procs[p].slots[fd := None]).(files := s.files[f := File(0, Unset)]);
    assert s.procs[p].slots[fd := None][h := Some(f)][h := None] == s.procs[p].slots[fd := None];
    assert Next(s1, Drop(p, h)).procs == t.procs;
  }

  /** The last close of a pipe end also closes that end: readers are told that no more will come, writers that nobody
      reads; and with the other end closed already the pipe is gone. */
  lemma LastClosePipeDoes(s: State, p: nat, fd: nat, f: nat, h: nat, e: End)
    requires Opened(s, p, fd, f) && Hand(h) && h < |s.procs[p].slots| && s.procs[p].slots[h] == None
    requires f < |s.files| && s.files[f] == File(1, PipeEnd(e))
    ensures e.pipe in s.pipes
    ensures var k, ps := e.pipe, s.pipes[e.pipe];
            var t := WithSlots(s, p, s.procs[p].slots[fd := None]).(files := s.files[f := File(0, Unset)]);
            var other := if e.writable then ps.readopen else ps.writeopen;
            var ps' := if e.writable then ps.(writeopen := false, readers := {})
                       else ps.(readopen := false, writers := {});
            Goes(s, [Move(p, fd, p, h), Drop(p, h), ClosePipe(p)],
                 t.(pipes := if other then s.pipes[k := ps'] else s.pipes - {k}))
  {
    hide Inv, PipeSpec.StreamInv;
    OpenedRef(s, p, fd, f);
    EndOpen(s, f, e);
    var a, b := Move(p, fd, p, h), Drop(p, h);
    var s1 := Next(s, a);
    assert s1.procs[p].slots == s.procs[p].slots[fd := None][h := Some(f)] && s1.files == s.files;
    GoesTwo(s, a, b);
    var s2 := Next(s1, b);
    assert s.procs[p].slots[fd := None][h := Some(f)][h := None] == s.procs[p].slots[fd := None];
    assert s2.procs[p] == s.procs[p].(slots := s.procs[p].slots[fd := None], closing := Some(e));
    GoesInv(s, [a, b], s2);
    StepInv(s2, ClosePipe(p));
    GoesOne(s2, ClosePipe(p));
    GoesOn(s, [a, b], s2, [ClosePipe(p)], Next(s2, ClosePipe(p)));
    assert [a, b] + [ClosePipe(p)] == [a, b, ClosePipe(p)];
    assert Next(s2, ClosePipe(p)).procs == WithSlots(s, p, s.procs[p].slots[fd := None]).procs;
  }

  lemma EndOpen(s: State, f: nat, e: End)
    requires Inv(s) && f < |s.files| && s.files[f].kind == PipeEnd(e)
    ensures IsOpen(s, e) && e.pipe in s.pipes && e.pipe < s.nextPipe
    ensures |s.pipes[e.pipe].data| == PipeSpec.SIZE
            && 0 <= PipeSpec.Pending(s.pipes[e.pipe]) <= PipeSpec.SIZE
  {
    hide TaskInv, RefInv, LeakInv;
    assert Is(s, f, e);
    assert PipeOk(s, e.pipe);
    PipeSpec.StreamShape(s.pipes[e.pipe]);
  }

  // -------------------------------------------------------------------- pipe

  /** The state in which process p has these slots, and files f and g are the ends of a new pipe. */
  function WithPipe(s: State, p: nat, slots: seq<Option<nat>>, f: nat, g: nat, data: seq<char>): State
    requires p < |s.procs| && f < |s.files| && g < |s.files|
  {
    var k := s.nextPipe;
    WithSlots(s, p, slots)
      .(files := s.files[f := File(1, PipeEnd(End(k, false)))][g := File(1, PipeEnd(End(k, true)))],
        pipes := s.pipes[k := PipeSpec.State(data, 0, 0, true, true, "", "", {}, {})],
        nextPipe := k + 1)
  }

  /** pipealloc. */
  lemma PipeAllocDoes(s: State, p: nat, f: nat, g: nat, data: seq<char>)
    requires Ready(s, p) && |s.procs[p].slots| == SLOTS && |data| == PipeSpec.SIZE
    requires f < |s.files| && g < |s.files| && f != g && s.files[f] == s.files[g] == File(0, Unset)
    requires s.procs[p].slots[NOFILE] == s.procs[p].slots[NOFILE + 1] == None
    ensures Goes(s, [Alloc(p, NOFILE, f), Alloc(p, NOFILE + 1, g)] + [MakePipe(p, NOFILE, NOFILE + 1, data)],
                 WithPipe(s, p, s.procs[p].slots[NOFILE := Some(f)][NOFILE + 1 := Some(g)], f, g, data))
  {
    hide Enabled, Bad, Next, Goes;
    AllocStep(s, p, NOFILE, f);
    var s1 := Next(s, Alloc(p, NOFILE, f));
    AllocStep(s1, p, NOFILE + 1, g);
    GoesTwo(s, Alloc(p, NOFILE, f), Alloc(p, NOFILE + 1, g));
    var s2 := Next(s1, Alloc(p, NOFILE + 1, g));
    var make := MakePipe(p, NOFILE, NOFILE + 1, data);
    MakeStep(s2, p, f, g, data);
    GoesOne(s2, make);
    GoesOn(s, [Alloc(p, NOFILE, f), Alloc(p, NOFILE + 1, g)], s2, [make], Next(s2, make));
    var t := WithPipe(s, p, s.procs[p].slots[NOFILE := Some(f)][NOFILE + 1 := Some(g)], f, g, data);
    assert s2.procs == t.procs;
    assert Next(s2, make).files == t.files;
  }

  /** The two calls of fdalloc. */
  lemma PipeSlotsDo(s: State, p: nat, f: nat, g: nat, rd: nat, wr: nat)
    requires Ready(s, p) && |s.procs[p].slots| == SLOTS && f < |s.files| && g < |s.files|
    requires rd < NOFILE && wr < NOFILE && rd != wr && s.procs[p].slots[rd] == s.procs[p].slots[wr] == None
    requires s.procs[p].slots[NOFILE] == Some(f) && s.procs[p].slots[NOFILE + 1] == Some(g)
    ensures Goes(s, [Move(p, NOFILE, p, rd), Move(p, NOFILE + 1, p, wr)],
                 WithSlots(s, p, s.procs[p].slots[NOFILE := None][rd := Some(f)][NOFILE + 1 := None][wr := Some(g)]))
  {
    hide Enabled, Bad, Next, Goes;
    MoveStep(s, p, NOFILE, rd, f);
    var s1 := Next(s, Move(p, NOFILE, p, rd));
    MoveStep(s1, p, NOFILE + 1, wr, g);
    GoesTwo(s, Move(p, NOFILE, p, rd), Move(p, NOFILE + 1, p, wr));
    SlotsTwice(s, p, s1.procs[p].slots, s1.procs[p].slots[NOFILE + 1 := None][wr := Some(g)]);
  }

  lemma SlotsMoved(slots: seq<Option<nat>>, f: nat, g: nat, rd: nat, wr: nat)
    requires |slots| == SLOTS && rd < NOFILE && wr < NOFILE && slots[NOFILE] == slots[NOFILE + 1] == None
    ensures slots[NOFILE := Some(f)][NOFILE + 1 := Some(g)]
                 [NOFILE := None][rd := Some(f)][NOFILE + 1 := None][wr := Some(g)]
            == slots[rd := Some(f)][wr := Some(g)]
  {
  }

  lemma NewPipe(s: State)
    requires PipeInv(s)
    ensures s.nextPipe !in s.pipes
  {
    forall k | k in s.pipes
      ensures k != s.nextPipe
    {
      assert PipeOk(s, k);
    }
  }

  lemma FreeFile(s: State, f: nat)
    requires RefInv(s) && f < |s.files| && s.files[f].ref == 0
    ensures s.files[f] == File(0, Unset)
  {
  }

  /** pipe makes a pipe that did not exist, empty and open at both ends, and a descriptor for each end. */
  lemma PipeDoes(s: State, p: nat, f: nat, g: nat, rd: nat, wr: nat, data: seq<char>)
    requires Inv(s) && Ready(s, p) && |data| == PipeSpec.SIZE && |s.procs[p].slots| == SLOTS
    requires f < |s.files| && g < |s.files| && f != g && s.files[f].ref == 0 && s.files[g].ref == 0
    requires rd < NOFILE && wr < NOFILE && rd != wr && s.procs[p].slots[rd] == s.procs[p].slots[wr] == None
    requires s.procs[p].slots[NOFILE] == s.procs[p].slots[NOFILE + 1] == None
    ensures s.nextPipe !in s.pipes
    ensures Goes(s, [Alloc(p, NOFILE, f), Alloc(p, NOFILE + 1, g)] + [MakePipe(p, NOFILE, NOFILE + 1, data)] +
                    [Move(p, NOFILE, p, rd), Move(p, NOFILE + 1, p, wr)],
                 WithPipe(s, p, s.procs[p].slots[rd := Some(f)][wr := Some(g)], f, g, data))
  {
    hide Goes, PipeInv, EndInv, LeakInv, TaskInv, RefInv;
    NewPipe(s);
    FreeFile(s, f);
    FreeFile(s, g);
    PipeAllocDoes(s, p, f, g, data);
    var slots := s.procs[p].slots;
    var t := WithPipe(s, p, slots[NOFILE := Some(f)][NOFILE + 1 := Some(g)], f, g, data);
    PipeSlotsDo(t, p, f, g, rd, wr);
    SlotsMoved(slots, f, g, rd, wr);
    SlotsTwice(s, p, t.procs[p].slots, slots[rd := Some(f)][wr := Some(g)]);
    GoesOn(s, [Alloc(p, NOFILE, f), Alloc(p, NOFILE + 1, g)] + [MakePipe(p, NOFILE, NOFILE + 1, data)], t,
           [Move(p, NOFILE, p, rd), Move(p, NOFILE + 1, p, wr)],
           WithSlots(t, p, slots[rd := Some(f)][wr := Some(g)]));
  }

  /** A write through a descriptor for a pipe's write end goes into that pipe, as far as there is room, and into no
      other; nobody's descriptors change. */
  lemma WriteGoesIn(s: State, p: nat, fd: nat, f: nat, k: nat, bytes: string, n: nat, killed: bool)
    requires Opened(s, p, fd, f) && f < |s.files| && s.files[f].kind == PipeEnd(End(k, true))
    ensures var a := Section(p, fd, bytes, n, killed);
            && Enabled(s, a) && !Bad(s, a) && k in s.pipes && 0 <= PipeSpec.Pending(s.pipes[k]) <= PipeSpec.SIZE
            && var t := Next(s, a);
               && k in t.pipes && t.pipes[k].accepted == s.pipes[k].accepted + PipeSpec.Offered(s.pipes[k], bytes)
               && t.pipes[k].delivered == s.pipes[k].delivered && t.files == s.files && |t.procs| == |s.procs|
               && (forall j :: j in s.pipes && j != k ==> j in t.pipes && t.pipes[j] == s.pipes[j])
               && forall q :: 0 <= q < |s.procs| ==> t.procs[q].slots == s.procs[q].slots
  {
    hide PipeSpec.WriteSection, PipeSpec.StreamInv;
    var a := Section(p, fd, bytes, n, killed);
    PipeAwake(s, p, f, End(k, true));
    StepInv(s, a);
    hide Inv;
    PipeSpec.WriteDoes(s.pipes[k], p, bytes, killed);
  }

  /** A read through a descriptor for its read end takes the next bytes of that pipe. */
  lemma ReadTakesOut(s: State, p: nat, fd: nat, f: nat, k: nat, bytes: string, n: nat, killed: bool)
    requires Opened(s, p, fd, f) && f < |s.files| && s.files[f].kind == PipeEnd(End(k, false))
    ensures var a := Section(p, fd, bytes, n, killed);
            && Enabled(s, a) && !Bad(s, a) && k in s.pipes && 0 <= PipeSpec.Pending(s.pipes[k]) <= PipeSpec.SIZE
            && var t, m := Next(s, a), PipeSpec.Pending(s.pipes[k]);
               && k in t.pipes && t.pipes[k].accepted == s.pipes[k].accepted && t.files == s.files
               && |t.pipes[k].delivered| == |s.pipes[k].delivered| + (if n <= m then n else m)
               && s.pipes[k].delivered <= t.pipes[k].delivered <= t.pipes[k].accepted
               && |t.procs| == |s.procs|
               && (forall j :: j in s.pipes && j != k ==> j in t.pipes && t.pipes[j] == s.pipes[j])
               && forall q :: 0 <= q < |s.procs| ==> t.procs[q].slots == s.procs[q].slots
  {
    hide PipeSpec.ReadSection, PipeSpec.StreamInv;
    var a := Section(p, fd, bytes, n, killed);
    PipeAwake(s, p, f, End(k, false));
    StepInv(s, a);
    hide Inv;
    PipeSpec.ReadDoes(s.pipes[k], p, n, killed);
    PipeSpec.StreamShape(s.pipes[k]);
  }

  /** A process that is free to make a call sleeps on no pipe. */
  lemma PipeAwake(s: State, p: nat, f: nat, e: End)
    requires Inv(s) && Ready(s, p) && f < |s.files| && s.files[f].kind == PipeEnd(e)
    ensures e.pipe in s.pipes && PipeSpec.StreamInv(s.pipes[e.pipe]) && !Asleep(s, p, e)
  {
    hide TaskInv, RefInv, LeakInv;
    EndOpen(s, f, e);
    assert PipeOk(s, e.pipe);
    assert Asleep(s, p, e) ==> Through(s, p, e);
  }

  /** A kill wakes the process from any pipe it sleeps on, and nobody else; the bytes in the pipes stay. */
  lemma KillWakes(s: State, p: nat, e: End)
    requires Inv(s) && p < |s.procs|
    ensures Enabled(s, FileTable.Kill(p)) && !Bad(s, FileTable.Kill(p))
    ensures var t := Next(s, FileTable.Kill(p));
            && !Asleep(t, p, e) && t.procs == s.procs && t.files == s.files
            && (forall q: nat :: q != p ==> (Asleep(t, q, e) <==> Asleep(s, q, e)))
            && (e.pipe in s.pipes ==>
                  e.pipe in t.pipes && t.pipes[e.pipe].accepted == s.pipes[e.pipe].accepted
                      && t.pipes[e.pipe].delivered == s.pipes[e.pipe].delivered)
  {
    hide RefInv, LeakInv, TaskInv, EndInv, PipeSpec.StreamInv;
    if e.pipe in s.pipes {
      assert PipeOk(s, e.pipe);
      PipeSpec.StreamShape(s.pipes[e.pipe]);
      assert Asleep(s, p, e) ==> Through(s, p, e);
    }
  }

  // -------------------------------------------------------------------- fork

  /** fork copies one descriptor: the child's slot leads to the same file, which has one reference more. */
  lemma ForkSlotDoes(s: State, p: nat, q: nat, fd: nat, f: nat)
    requires Opened(s, p, fd, f) && |s.procs[p].slots| == SLOTS && s.procs[p].slots[NOFILE] == None
    requires q < |s.procs| && q != p && s.procs[q].task == Unborn && fd < |s.procs[q].slots|
    requires s.procs[q].slots[fd] == None
    ensures f < |s.files|
    ensures Goes(s, [ForkDup(p, fd, NOFILE), Move(p, NOFILE, q, fd)],
                 WithRef(WithSlots(s, q, s.procs[q].slots[fd := Some(f)]), f, s.files[f].ref + 1))
  {
    hide Inv, Enabled, Bad, Next, Goes;
    OpenedRef(s, p, fd, f);
    ForkDupStep(s, p, fd, NOFILE, f);
    var s1 := Next(s, ForkDup(p, fd, NOFILE));
    GiveStep(s1, p, NOFILE, q, fd, f);
    GoesTwo(s, ForkDup(p, fd, NOFILE), Move(p, NOFILE, q, fd));
    HandedOver(s, p, q, f, s.procs[q].slots[fd := Some(f)]);
  }

  /** What p took in hand and gave to q, p has no more. */
  lemma HandedOver(s: State, p: nat, q: nat, f: nat, slots: seq<Option<nat>>)
    requires p < |s.procs| && q < |s.procs| && p != q && f < |s.files|
    requires |s.procs[p].slots| == SLOTS && s.procs[p].slots[NOFILE] == None
    ensures var held := s.procs[p].slots[NOFILE := Some(f)];
            var s1 := WithRef(WithSlots(s, p, held), f, s.files[f].ref + 1);
            WithSlots(WithSlots(s1, p, held[NOFILE := None]), q, slots)
            == WithRef(WithSlots(s, q, slots), f, s.files[f].ref + 1)
  {
    var held := s.procs[p].slots[NOFILE := Some(f)];
    assert held[NOFILE := None] == s.procs[p].slots;
    var s1 := WithRef(WithSlots(s, p, held), f, s.files[f].ref + 1);
    assert WithSlots(s1, p, s.procs[p].slots).procs == s.procs;
  }

  /** The child's first n slots are the parent's, and its others are empty; the parent and all other processes are as
      they were. */
  ghost predicate Copied(s: State, t: State, p: nat, q: nat, n: nat) {
    && p < |s.procs| && q < |s.procs| && p != q && n <= NOFILE && |s.procs[p].slots| == SLOTS
    && t.procs == s.procs[q := s.procs[q].(slots := s.procs[p].slots[..n] + seq(SLOTS - n, _ => None))]
    && t.pipes == s.pipes && t.nextPipe == s.nextPipe && |t.files| == |s.files|
  }

  /** fork's loop over the descriptors runs to its end, and then the child has exactly the parent's. */
  lemma {:induction false} ForkCopies(s: State, p: nat, q: nat, n: nat) returns (acts: seq<Action>, t: State)
    requires Inv(s) && p < |s.procs| && s.procs[p].task == Idle && s.procs[p].closing == None
    requires |s.procs[p].slots| == SLOTS && s.procs[p].slots[NOFILE] == None
    requires q < |s.procs| && q != p && s.procs[q].task == Unborn && s.procs[q].slots == seq(SLOTS, _ => None)
    requires n <= NOFILE
    ensures Goes(s, acts, t) && Inv(t) && Copied(s, t, p, q, n)
  {
    hide Inv, Goes;
    if n == 0 {
      acts, t := [], s;
      assert Goes(s, acts, t) by { GoesNone(s); }
      assert s.procs[p].slots[..0] + seq(SLOTS, _ => None) == s.procs[q].slots;
    } else {
      acts, t := ForkCopies(s, p, q, n - 1);
      var fd := n - 1;
      var was := t.procs[q].slots;
      assert was[fd] == None;
      if s.procs[p].slots[fd].Some? {
        var f := s.procs[p].slots[fd].value;
        ForkSlotDoes(t, p, q, fd, f);
        var more := [ForkDup(p, fd, NOFILE), Move(p, NOFILE, q, fd)];
        var u := WithRef(WithSlots(t, q, was[fd := Some(f)]), f, t.files[f].ref + 1);
        GoesOn(s, acts, t, more, u);
        GoesInv(t, more, u);
        assert was[fd := Some(f)] == s.procs[p].slots[..n] + seq(SLOTS - n, _ => None);
        acts, t := acts + more, u;
      } else {
        assert was == s.procs[p].slots[..n] + seq(SLOTS - n, _ => None);
      }
      assert t.procs == s.procs[q := s.procs[q].(slots := s.procs[p].slots[..n] + seq(SLOTS - n, _ => None))];
    }
  }

  lemma GoesNone(s: State)
    ensures Goes(s, [], s)
  {
  }

  // -------------------------------------------------------------------- exit

  /** The slots that lead to a file. */
  function Filled(slots: seq<Option<nat>>): nat {
    if slots == [] then 0 else Filled(slots[..|slots| - 1]) + if slots[|slots| - 1].Some? then 1 else 0
  }

  lemma {:induction false} FilledLess(slots: seq<Option<nat>>, a: nat)
    requires a < |slots| && slots[a].Some?
    ensures Filled(slots[a := None]) == Filled(slots) - 1
  {
    var n := |slots| - 1;
    if a == n {
      assert slots[a := None][..n] == slots[..n];
    } else {
      FilledLess(slots[..n], a);
      assert slots[a := None][..n] == slots[..n][a := None];
    }
  }

  /** One turn of exit's loop: the file of slot a is closed, with its pipe end if it was the last, and the slot
      cleared. */
  lemma ExitTurn(s: State, p: nat, a: nat) returns (acts: seq<Action>, t: State)
    requires Inv(s) && p < |s.procs| && s.procs[p].task == Leaving && s.procs[p].closing == None
    requires a < |s.procs[p].slots| && s.procs[p].slots[a].Some?
    ensures Goes(s, acts, t) && Inv(t) && |t.procs| == |s.procs|
    ensures t.procs[p] == s.procs[p].(slots := s.procs[p].slots[a := None])
    ensures forall q :: 0 <= q < |s.procs| && q != p ==> t.procs[q] == s.procs[q]
  {
    hide EndInv, PipeInv, LeakInv, RefInv;
    assert TaskOk(s, p);
    hide Inv;
    StepInv(s, ExitDrop(p, a));
    var s1 := Next(s, ExitDrop(p, a));
    GoesOne(s, ExitDrop(p, a));
    acts, t := [ExitDrop(p, a)], s1;
    assert s1.procs[p].slots == s.procs[p].slots && s1.procs[p].task == Clearing(a);
    if s1.procs[p].closing.Some? {
      StepInv(s1, ClosePipe(p));
      GoesOne(s1, ClosePipe(p));
      t := Next(s1, ClosePipe(p));
      GoesOn(s, acts, s1, [ClosePipe(p)], t);
      acts := acts + [ClosePipe(p)];
    }
    StepInv(t, ExitClear(p));
    GoesOne(t, ExitClear(p));
    GoesOn(s, acts, t, [ExitClear(p)], Next(t, ExitClear(p)));
    acts, t := acts + [ExitClear(p)], Next(t, ExitClear(p));
  }

  /** exit runs to its end, and then the process has no descriptors; all others keep theirs. */
  lemma {:induction false} ExitEmpties(s: State, p: nat) returns (acts: seq<Action>, t: State)
    requires Inv(s) && p < |s.procs| && s.procs[p].task == Leaving && s.procs[p].closing == None
    ensures Goes(s, acts, t) && Inv(t) && |t.procs| == |s.procs| && t.procs[p].task == Unborn
    ensures forall a :: 0 <= a < |t.procs[p].slots| ==> t.procs[p].slots[a] == None
    ensures forall q :: 0 <= q < |s.procs| && q != p ==> t.procs[q] == s.procs[q]
    decreases Filled(s.procs[p].slots)
  {
    hide Inv, Goes;
    if a: nat :| a < |s.procs[p].slots| && s.procs[p].slots[a].Some? {
      var m;
      acts, m := ExitTurn(s, p, a);
      FilledLess(s.procs[p].slots, a);
      var more;
      more, t := ExitEmpties(m, p);
      GoesOn(s, acts, m, more, t);
      acts := acts + more;
    } else {
      StepInv(s, Gone(p));
      GoesOne(s, Gone(p));
      acts, t := [Gone(p)], Next(s, Gone(p));
    }
  }
}

/** A pipe as its critical sections see it: a byte stream through a ring, and who is asleep on it. */
module PipeSpec {
  import opened Basics

  const SIZE: nat := 512

  /** accepted and delivered are all the bytes ever written to and read from the pipe; readers and writers are the
      processes asleep on it. */
  datatype State = State(data: seq<char>, nread: nat, nwrite: nat, readopen: bool, writeopen: bool,
                         accepted: string, delivered: string, readers: set<nat>, writers: set<nat>)

  // ------------------------------------------------------------------- bytes

  function Slot(i: nat): (r: nat)
    ensures r < SIZE
  {
    i % SIZE
  }

  function Succ(i: nat): nat { (i + 1) % WORD }

  function Pending(s: State): int { |s.accepted| - |s.delivered| }

  predicate Full(s: State) { s.nwrite == (s.nread + SIZE) % WORD }

  predicate Empty(s: State) { s.nread == s.nwrite }

  /** The counters are the stream lengths modulo 2^32, and the ring holds what is in between. */
  ghost predicate StreamInv(s: State) {
    && |s.data| == SIZE
    && s.nread == |s.delivered| % WORD && s.nwrite == |s.accepted| % WORD
    && 0 <= Pending(s) <= SIZE
    && s.delivered <= s.accepted
    && forall k :: |s.delivered| <= k < |s.accepted| ==> s.data[Slot(k)] == s.accepted[k]
  }

  lemma SlotWraps(i: nat)
    ensures Slot(i % WORD) == Slot(i) && Succ(i % WORD) == (i + 1) % WORD
  {
    var q := i / WORD;
    assert i == q * WORD + i % WORD;
    SlotAdd(i % WORD, q * (WORD / SIZE));
    assert i == i % WORD + SIZE * (q * (WORD / SIZE));
  }

  lemma SlotAdd(i: nat, m: nat)
    ensures Slot(i + SIZE * m) == Slot(i)
  {
  }

  lemma SlotsDiffer(i: nat, j: nat)
    requires i < j < i + SIZE
    ensures Slot(i) != Slot(j)
  {
  }

  lemma CountersTell(d: nat, a: nat)
    requires 0 <= a - d <= SIZE
    ensures a % WORD == (d % WORD + SIZE) % WORD <==> a - d == SIZE
    ensures d % WORD == a % WORD <==> a == d
    ensures (a % WORD - d % WORD) % WORD == a - d
  {
  }

  /** The code's tests on the wrapping counters mean what they should. */
  lemma TestsMean(s: State)
    requires StreamInv(s)
    ensures Full(s) <==> Pending(s) == SIZE
    ensures Empty(s) <==> Pending(s) == 0
    ensures (s.nwrite - s.nread) % WORD == Pending(s)
  {
    CountersTell(|s.delivered|, |s.accepted|);
  }

  function Put(s: State, b: char): State
    requires |s.data| == SIZE
  {
    s.(data := s.data[Slot(s.nwrite) := b], nwrite := Succ(s.nwrite), accepted := s.accepted + [b])
  }

  lemma PutInv(s: State, b: char)
    requires StreamInv(s) && Pending(s) < SIZE
    ensures StreamInv(Put(s, b))
  {
    hide Slot, Succ;
    var s' := Put(s, b);
    SlotWraps(|s.accepted|);
    forall k | |s'.delivered| <= k < |s'.accepted|
      ensures s'.data[Slot(k)] == s'.accepted[k]
    {
      if k < |s.accepted| { SlotsDiffer(k, |s.accepted|); }
    }
  }

  function Get(s: State): State
    requires |s.data| == SIZE
  {
    s.(nread := Succ(s.nread), delivered := s.delivered + [s.data[Slot(s.nread)]])
  }

  lemma GetInv(s: State)
    requires StreamInv(s) && Pending(s) > 0
    ensures StreamInv(Get(s))
  {
    hide Slot, Succ;
    SlotWraps(|s.delivered|);
  }

  function PutAll(s: State, bs: string): (r: State)
    requires |s.data| == SIZE
    ensures |r.data| == SIZE && r == s.(data := r.data, nwrite := r.nwrite, accepted := s.accepted + bs)
    decreases |bs|
  {
    if bs == "" then assert s.accepted + bs == s.accepted; s
    else
      assert s.accepted + [bs[0]] + bs[1..] == s.accepted + bs;
      PutAll(Put(s, bs[0]), bs[1..])
  }

  lemma {:induction false} PutAllInv(s: State, bs: string)
    requires StreamInv(s) && Pending(s) + |bs| <= SIZE
    ensures StreamInv(PutAll(s, bs))
    decreases |bs|
  {
    hide StreamInv, Put;
    StreamShape(s);
    if bs != "" {
      PutInv(s, bs[0]);
      PutPending(s, bs[0]);
      PutAllInv(Put(s, bs[0]), bs[1..]);
    }
  }

  lemma StreamShape(s: State)
    requires StreamInv(s)
    ensures |s.data| == SIZE && 0 <= Pending(s) <= SIZE && s.delivered <= s.accepted
  {
  }

  lemma PutPending(s: State, b: char)
    requires |s.data| == SIZE
    ensures Pending(Put(s, b)) == Pending(s) + 1
  {
  }

  function GetMany(s: State, n: nat): (r: State)
    requires |s.data| == SIZE
    ensures r == s.(nread := r.nread, delivered := r.delivered) && |r.delivered| == |s.delivered| + n
    ensures s.delivered <= r.delivered
    decreases n
  {
    if n == 0 then s else GetMany(Get(s), n - 1)
  }

  lemma {:induction false} GetManyInv(s: State, n: nat)
    requires StreamInv(s) && n <= Pending(s)
    ensures StreamInv(GetMany(s, n))
    decreases n
  {
    hide StreamInv, Get;
    StreamShape(s);
    if n > 0 {
      GetInv(s);
      GetPending(s);
      GetManyInv(Get(s), n - 1);
    }
  }

  lemma GetPending(s: State)
    requires |s.data| == SIZE
    ensures Pending(Get(s)) == Pending(s) - 1
  {
  }

  // ---------------------------------------------------------------- sections

  /** How a section of pipewrite or piperead ends: the call returns, returns -1, or sleeps with this much left. */
  datatype Result = Done | Failed | Slept

  datatype Event =
    | Write(pid: nat, bytes: string, killed: bool)
    | Read(pid: nat, n: nat, killed: bool)
    | CloseWrite
    | CloseRead
    | Kill(pid: nat)

  function Room(s: State): int { SIZE - Pending(s) }

  /** pipewrite from taking the lock, first or after a sleep, until it sleeps or returns. */
  function WriteSection(s: State, pid: nat, bs: string, killed: bool): State
    requires |s.data| == SIZE && 0 <= Room(s)
  {
    if |bs| <= Room(s) then PutAll(s, bs).(readers := {})
    else
      var f := PutAll(s, bs[..Room(s)]);
      if !s.readopen || killed then f else f.(readers := {}, writers := s.writers + {pid})
  }

  function WriteResult(s: State, bs: string, killed: bool): Result {
    if |bs| <= Room(s) then Done else if !s.readopen || killed then Failed else Slept
  }

  function ReadCount(s: State, n: nat): int {
    if n <= Pending(s) then n else Pending(s)
  }

  /** piperead likewise. */
  function ReadSection(s: State, pid: nat, n: nat, killed: bool): State
    requires |s.data| == SIZE && 0 <= Pending(s)
  {
    if Empty(s) && s.writeopen then if killed then s else s.(readers := s.readers + {pid})
    else GetMany(s, ReadCount(s, n)).(writers := {})
  }

  function ReadResult(s: State, killed: bool): Result {
    if Empty(s) && s.writeopen then if killed then Failed else Slept else Done
  }

  /** A section may run when its end is open, and a sleeper only after it is woken; an end is closed when nobody
      uses it. Killing a process wakes it. */
  predicate Enabled(s: State, e: Event) {
    match e
    case Write(pid, _, _) => s.writeopen && pid !in s.writers
    case Read(pid, _, _) => s.readopen && pid !in s.readers
    case CloseWrite => s.writeopen && s.writers == {}
    case CloseRead => s.readopen && s.readers == {}
    case Kill(_) => true
  }

  function Next(s: State, e: Event): State
    requires |s.data| == SIZE && 0 <= Pending(s) <= SIZE
  {
    match e
    case Write(pid, bs, killed) => WriteSection(s, pid, bs, killed)
    case Read(pid, n, killed) => ReadSection(s, pid, n, killed)
    case CloseWrite => s.(writeopen := false, readers := {})
    case CloseRead => s.(readopen := false, writers := {})
    case Kill(pid) => s.(readers := s.readers - {pid}, writers := s.writers - {pid})
  }

  /** What one event leads to. */
  ghost predicate Steps(s: State, e: Event, s': State) {
    Enabled(s, e) && (|s.data| == SIZE && 0 <= Pending(s) <= SIZE ==> s' == Next(s, e))
  }

  /** No reader is asleep on a pipe that holds bytes or cannot get any; no writer on one with room or without a
      reader. */
  ghost predicate SleepInv(s: State) {
    && (s.readers != {} ==> Pending(s) == 0 && s.writeopen && s.readopen)
    && (s.writers != {} ==> Pending(s) == SIZE && s.readopen && s.writeopen)
  }

  lemma StreamStep(s: State, e: Event)
    requires StreamInv(s)
    ensures |s.data| == SIZE && 0 <= Pending(s) <= SIZE && StreamInv(Next(s, e))
  {
    hide PutAll, GetMany;
    match e {
      case Write(pid, bs, killed) => PutAllInv(s, if |bs| <= Room(s) then bs else bs[..Room(s)]);
      case Read(pid, n, killed) => GetManyInv(s, ReadCount(s, n));
      case _ =>
    }
  }

  /** Every section keeps it, except a killed writer that fills the pipe over sleeping readers. */
  lemma SleepStepIff(s: State, e: Event)
    requires StreamInv(s) && SleepInv(s) && Enabled(s, e)
    ensures SleepInv(Next(s, e)) <==> !(e.Write? && e.killed && s.readers != {} && |e.bytes| > SIZE)
  {
    hide PutAll, GetMany, StreamInv, Full, Empty;
    StreamShape(s);
    TestsMean(s);
  }

  /** The bytes of a write that the pipe has room for. */
  function Offered(s: State, bs: string): string
    requires 0 <= Pending(s) <= SIZE
  {
    if |bs| <= SIZE - Pending(s) then bs else bs[..SIZE - Pending(s)]
  }

  /** What a write does: the pipe accepts as many bytes as it has room for, in order. The call is done exactly if these
      are all; else it fails if there is no reader any more or the process is killed, and sleeps otherwise. Unless it
      fails, no reader stays asleep. */
  lemma WriteDoes(s: State, pid: nat, bs: string, killed: bool)
    requires StreamInv(s)
    ensures |s.data| == SIZE && 0 <= Pending(s) <= SIZE
    ensures var t, sent, r := Next(s, Write(pid, bs, killed)), Offered(s, bs), WriteResult(s, bs, killed);
            && t.accepted == s.accepted + sent && t.delivered == s.delivered
            && t.readopen == s.readopen && t.writeopen == s.writeopen
            && (r == Done <==> sent == bs)
            && (r == Failed <==> sent != bs && (!s.readopen || killed))
            && (r == Slept <==> sent != bs && s.readopen && !killed)
            && t.readers == (if r == Failed then s.readers else {})
            && t.writers == (if r == Slept then s.writers + {pid} else s.writers)
  {
    hide PutAll;
  }

  /** What a read does: on an empty pipe with a writer it sleeps, or fails if killed. Otherwise it gets the next bytes
      of the stream, as many as there are but at most n, and no writer stays asleep. */
  lemma ReadDoes(s: State, pid: nat, n: nat, killed: bool)
    requires StreamInv(s)
    ensures |s.data| == SIZE && 0 <= Pending(s) <= SIZE
    ensures var t, r := Next(s, Read(pid, n, killed)), ReadResult(s, killed);
            var d, m := |s.delivered|, if n <= Pending(s) then n else Pending(s);
            && t.accepted == s.accepted && t.readopen == s.readopen && t.writeopen == s.writeopen
            && (r == Done <==> Pending(s) > 0 || !s.writeopen)
            && (r == Failed <==> Pending(s) == 0 && s.writeopen && killed)
            && (r == Slept <==> Pending(s) == 0 && s.writeopen && !killed)
            && t.delivered == s.delivered + (if r == Done then s.accepted[d..d + m] else "")
            && t.readers == (if r == Slept then s.readers + {pid} else s.readers)
            && t.writers == (if r == Done then {} else s.writers)
  {
    hide GetMany, StreamInv;
    StreamShape(s);
    TestsMean(s);
    StreamStep(s, Read(pid, n, killed));
    var t := Next(s, Read(pid, n, killed));
    StreamShape(t);
    assert t.delivered == t.accepted[..|t.delivered|] && s.delivered == s.accepted[..|s.delivered|];
  }

  // --------------------------------------------------------------------- runs

  function Start(data: seq<char>): State {
    State(data, 0, 0, true, true, "", "", {}, {})
  }

  ghost predicate IsRun(states: seq<State>, events: seq<Event>) {
    && |states| == |events| + 1 && StreamInv(states[0]) && SleepInv(states[0])
    && forall i :: 0 <= i < |events| ==> Steps(states[i], events[i], states[i + 1])
  }

  predicate Unkilled(e: Event) {
    (e.Write? || e.Read?) ==> !e.killed
  }

  lemma StartInv(data: seq<char>)
    requires |data| == SIZE
    ensures StreamInv(Start(data)) && SleepInv(Start(data))
  {
  }

  /** In every interleaving the bytes delivered are a prefix of the bytes accepted, at most SIZE behind, and the
      difference of the counters modulo 2^32 says by how many, whether or not they have wrapped. */
  lemma {:induction false} Stream(states: seq<State>, events: seq<Event>, i: nat)
    requires IsRun(states, events) && i < |states|
    ensures StreamInv(states[i])
    ensures states[i].delivered <= states[i].accepted
    ensures (states[i].nwrite - states[i].nread) % WORD == |states[i].accepted| - |states[i].delivered| <= SIZE
  {
    hide StreamInv, Next, SleepInv;
    if i > 0 {
      Stream(states, events, i - 1);
      StreamStep(states[i - 1], events[i - 1]);
    }
    StreamShape(states[i]);
    TestsMean(states[i]);
  }

  /** In runs without kill nobody is left asleep without reason. */
  lemma {:induction false} NobodyForgotten(states: seq<State>, events: seq<Event>, i: nat)
    requires IsRun(states, events) && i < |states| && forall j :: 0 <= j < |events| ==> Unkilled(events[j])
    ensures SleepInv(states[i])
  {
    hide StreamInv, Next, SleepInv;
    if i > 0 {
      NobodyForgotten(states, events, i - 1);
      Stream(states, events, i - 1);
      StreamShape(states[i - 1]);
      assert Steps(states[i - 1], events[i - 1], states[i]);
      SleepStepIff(states[i - 1], events[i - 1]);
    }
  }

  /** A killed writer can leave a reader asleep on a full pipe. */
  lemma KillForgets(data: seq<char>, bytes: string)
    requires |data| == SIZE && |bytes| > SIZE
    ensures var s := Next(Start(data), Read(1, 1, false));
            && Enabled(Start(data), Read(1, 1, false)) && Enabled(s, Write(2, bytes, true))
            && Next(s, Write(2, bytes, true)).readers == {1} && Pending(Next(s, Write(2, bytes, true))) == SIZE
  {
    hide PutAll;
  }

  // ------------------------------------------------ what was written and read

  /** What the pipe has accepted in the first i events. */
  function Sent(states: seq<State>, events: seq<Event>, i: nat): string
    requires i <= |events| <= |states| && forall j :: 0 <= j < i ==> 0 <= Pending(states[j]) <= SIZE
  {
    if i == 0 then ""
    else
      var e := events[i - 1];
      Sent(states, events, i - 1) + if e.Write? then Offered(states[i - 1], e.bytes) else ""
  }

  lemma AcceptedNext(s: State, e: Event)
    requires StreamInv(s)
    ensures |s.data| == SIZE && 0 <= Pending(s) <= SIZE
    ensures Next(s, e).accepted == s.accepted + if e.Write? then Offered(s, e.bytes) else ""
  {
    hide PutAll, GetMany;
    if e.Write? { WriteDoes(s, e.pid, e.bytes, e.killed); }
  }

  /** The stream is what the writes of the run wrote, in order, each as far as there was room. */
  lemma {:induction false} AcceptedIsWritten(states: seq<State>, events: seq<Event>, i: nat)
    requires IsRun(states, events) && i < |states|
    ensures forall j :: 0 <= j < i ==> 0 <= Pending(states[j]) <= SIZE
    ensures states[i].accepted == states[0].accepted + Sent(states, events, i)
  {
    hide StreamInv, Next, SleepInv;
    if i > 0 {
      AcceptedIsWritten(states, events, i - 1);
      Stream(states, events, i - 1);
      StreamShape(states[i - 1]);
      assert Steps(states[i - 1], events[i - 1], states[i]);
      AcceptedNext(states[i - 1], events[i - 1]);
    }
  }

  /** The events at the given places are the sections of one call of pipewrite: each but the last sleeps, and the next
      one offers what is left. */
  ghost predicate IsCall(states: seq<State>, events: seq<Event>, at: seq<nat>, bs: string)
    decreases |at|
  {
    && at != [] && at[0] < |events| < |states| && events[at[0]].Write? && events[at[0]].bytes == bs
    && StreamInv(states[at[0]])
    && (|at| > 1 ==>
          && WriteResult(states[at[0]], bs, events[at[0]].killed) == Slept
          && IsCall(states, events, at[1..], bs[|Offered(states[at[0]], bs)|..]))
  }

  /** What the sections of a call have put into the pipe. */
  ghost function CallSent(states: seq<State>, events: seq<Event>, at: seq<nat>, bs: string): string
    requires IsCall(states, events, at, bs)
    decreases |at|
  {
    var o := Offered(states[at[0]], bs);
    if |at| == 1 then o else o + CallSent(states, events, at[1..], bs[|o|..])
  }

  /** A call puts the front of its bytes into the pipe, in order and none twice, and all of them exactly when it ends
      well. */
  lemma {:induction false} WholeCall(states: seq<State>, events: seq<Event>, at: seq<nat>, bs: string)
    requires IsCall(states, events, at, bs)
    ensures CallSent(states, events, at, bs) <= bs
    ensures var last := at[|at| - 1];
            && last < |events| < |states| && events[last].Write?
            && (WriteResult(states[last], events[last].bytes, events[last].killed) == Done <==>
                CallSent(states, events, at, bs) == bs)
    decreases |at|
  {
    hide StreamInv;
    var s, e := states[at[0]], events[at[0]];
    StreamShape(s);
    var o := Offered(s, bs);
    if |at| > 1 {
      var rest := bs[|o|..];
      WholeCall(states, events, at[1..], rest);
      assert at[1..][|at[1..]| - 1] == at[|at| - 1];
      assert bs == o + rest;
      var more := CallSent(states, events, at[1..], rest);
      assert o + more == bs <==> more == rest by { if o + more == bs { assert (o + more)[|o|..] == more; } }
    }
  }
}

/** The pipe's buffer and counters, changed in place by one critical section at a time. */
module Pipe {
  import opened Basics
  import opened PipeSpec

  lemma {:induction false} PutAllSnoc(s: State, bs: string, b: char)
    requires |s.data| == SIZE
    ensures PutAll(s, bs + [b]) == Put(PutAll(s, bs), b)
    decreases |bs|
  {
    hide Put;
    if bs == "" {
      assert bs + [b] == [b] && [b][1..] == "";
      OnePut(s, b);
    } else {
      assert (bs + [b])[1..] == bs[1..] + [b];
      PutShape(s, bs[0]);
      PutAllSnoc(Put(s, bs[0]), bs[1..], b);
    }
  }

  lemma PutShape(s: State, b: char)
    requires |s.data| == SIZE
    ensures |Put(s, b).data| == SIZE
  {
  }

  lemma OnePut(s: State, b: char)
    requires |s.data| == SIZE
    ensures PutAll(s, [b]) == Put(s, b)
  {
    assert [b][1..] == "";
    assert PutAll(Put(s, b), "") == Put(s, b);
  }

  lemma {:induction false} GetManySnoc(s: State, n: nat)
    requires |s.data| == SIZE
    ensures GetMany(s, n + 1) == Get(GetMany(s, n))
    decreases n
  {
    if n > 0 { GetManySnoc(Get(s), n - 1); }
  }

  class Pipe {
    const data: array<char>
    var nread: nat
    var nwrite: nat
    var readopen: bool
    var writeopen: bool
    ghost var accepted: string
    ghost var delivered: string
    ghost var readers: set<nat>
    ghost var writers: set<nat>

    ghost function Abs(): State
      reads this, data
    {
      State(data[..], nread, nwrite, readopen, writeopen, accepted, delivered, readers, writers)
    }

    ghost predicate Valid()
      reads this, data
    {
      StreamInv(Abs())
    }

    constructor ()
      ensures Valid() && fresh(data) && SleepInv(Abs()) && accepted == delivered == "" && readers == writers == {}
    {
      data := new char[SIZE];
      nread, nwrite, readopen, writeopen := 0, 0, true, true;
      accepted, delivered, readers, writers := "", "", {}, {};
    }

    /** Stores one byte. */
    method Store(b: char)
      requires Valid() && Pending(Abs()) < SIZE
      modifies this`nwrite, this`accepted, data
      ensures Valid() && Abs() == Put(old(Abs()), b)
    {
      PutInv(Abs(), b);
      data[nwrite % SIZE] := b;
      nwrite, accepted := (nwrite + 1) % WORD, accepted + [b];
      assert data[..] == old(data[..])[Slot(old(nwrite)) := b];
    }

    /** Sent says how many of the bytes went in; after a sleep the rest are offered again. */
    method Write(pid: nat, addr: string, killed: bool) returns (r: Result, sent: nat)
      requires Valid()
      modifies this, data
      ensures Valid() && Abs() == WriteSection(old(Abs()), pid, addr, killed)
      ensures r == WriteResult(old(Abs()), addr, killed)
      ensures sent <= |addr| && accepted == old(accepted) + addr[..sent] && delivered == old(delivered)
      ensures sent == (var room := SIZE - (|old(accepted)| - |old(delivered)|); if |addr| <= room then |addr| else room)
      ensures (r == Done <==> sent == |addr|) && (r == Failed <==> sent < |addr| && (!readopen || killed))
    {
      hide StreamInv, PutAll, Put;
      ghost var s := Abs();
      StreamShape(s);
      NoPut(s);
      sent := 0;
      assert addr[..0] == "";
      while sent < |addr|
        invariant sent <= |addr| && sent <= Room(s) && Valid() && Abs() == PutAll(s, addr[..sent])
      {
        PutAllPending(s, addr[..sent]);
        TestsMean(Abs());
        if nwrite == (nread + SIZE) % WORD {
          StreamStep(s, PipeSpec.Write(pid, addr, killed));
          if !readopen || killed { return Failed, sent; }
          readers, writers := {}, writers + {pid};
          return Slept, sent;
        }
        PutAllSnoc(s, addr[..sent], addr[sent]);
        assert addr[..sent + 1] == addr[..sent] + [addr[sent]];
        Store(addr[sent]);
        sent := sent + 1;
      }
      assert addr[..sent] == addr;
      StreamStep(s, PipeSpec.Write(pid, addr, killed));
      readers := {};
      return Done, sent;
    }

    /** Fetches one byte. */
    method Fetch() returns (b: char)
      requires Valid() && Pending(Abs()) > 0
      modifies this`nread, this`delivered
      ensures Valid() && Abs() == Get(old(Abs())) && delivered == old(delivered) + [b]
    {
      GetInv(Abs());
      StreamShape(Abs());
      b := data[nread % SIZE];
      nread, delivered := (nread + 1) % WORD, delivered + [b];
    }

    /** Returns the next bytes of the stream. */
    method Read(pid: nat, n: nat, killed: bool) returns (r: Result, bytes: string)
      requires Valid()
      modifies this
      ensures Valid() && Abs() == ReadSection(old(Abs()), pid, n, killed) && r == ReadResult(old(Abs()), killed)
      ensures accepted == old(accepted) && delivered == old(delivered) + bytes <= accepted
      ensures r == Done ==> |bytes| == (var m := |accepted| - |old(delivered)|; if n <= m then n else m)
      ensures r == Done <==> |accepted| > |old(delivered)| || !writeopen
      ensures r == Failed <==> |accepted| == |old(delivered)| && writeopen && killed
      ensures r != Done ==> bytes == ""
    {
      hide StreamInv, GetMany, Get;
      ghost var s := Abs();
      StreamShape(s);
      TestsMean(s);
      StreamStep(s, PipeSpec.Read(pid, n, killed));
      bytes := "";
      if nread == nwrite && writeopen {
        if killed { return Failed, bytes; }
        readers := readers + {pid};
        return Slept, bytes;
      }
      NoGet(s);
      var i := 0;
      while i < n
        invariant i <= n && i <= Pending(s) && |bytes| == i && Valid() && Abs() == GetMany(s, i)
        invariant delivered == s.delivered + bytes
      {
        TestsMean(Abs());
        if nread == nwrite { break; }
        GetManySnoc(s, i);
        var b := Fetch();
        bytes := bytes + [b];
        i := i + 1;
      }
      TestsMean(Abs());
      StreamShape(Abs());
      writers := {};
      return Done, bytes;
    }

    /** Closes one end; the pipe is freed once both are closed. */
    method CloseEnd(writable: bool) returns (freed: bool)
      requires Valid()
      modifies this
      ensures Valid() && Abs() == Next(old(Abs()), if writable then CloseWrite else CloseRead)
      ensures freed <==> !readopen && !writeopen
    {
      if writable {
        writeopen := false;
        readers := {};
      } else {
        readopen := false;
        writers := {};
      }
      return !readopen && !writeopen;
    }
  }

  lemma NoPut(s: State)
    requires |s.data| == SIZE
    ensures PutAll(s, "") == s
  {
  }

  lemma NoGet(s: State)
    requires |s.data| == SIZE
    ensures GetMany(s, 0) == s
  {
  }

  lemma PutAllPending(s: State, bs: string)
    requires |s.data| == SIZE
    ensures Pending(PutAll(s, bs)) == Pending(s) + |bs|
  {
    hide PutAll;
  }
}

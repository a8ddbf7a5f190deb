/** The kernel log: per-CPU rings under one sequence counter, and the snapshot that merges them. */
module Klog {
  import opened Basics
  import opened KlogRace
  import opened KlogSpec

  // ----------------------------------------------------- collecting a prefix

  lemma PrefixStep(es: seq<Entry>, e: Entry, lo: nat, max: nat)
    requires |Prefix(Keep(es, lo), max)| < max
    ensures Prefix(Keep(es + [e], lo), max) ==
            if e.seqno >= lo then Prefix(Keep(es, lo), max) + [e] else Prefix(Keep(es, lo), max)
  {
    assert (es + [e])[..|es|] == es;
  }

  lemma PrefixFull(es: seq<Entry>, fs: seq<Entry>, lo: nat, max: nat)
    requires |Prefix(Keep(es, lo), max)| == max
    ensures Prefix(Keep(es + fs, lo), max) == Prefix(Keep(es, lo), max)
  {
    hide Keep;
    KeepConcat(es, fs, lo);
  }

  // ---------------------------------------------------------------- sorting

  /** The bound of the outer loop, and of the inner one in round i, as the unsigned comparison sees them. */
  function OuterBound(count: nat): nat { (count - 1) % WORD }

  function InnerBound(count: nat, i: nat): nat { (count - i - 1) % WORD }

  /** In round i the sort compares positions j and j + 1. */
  predicate Compares(count: nat, i: nat, j: nat) {
    i < OuterBound(count) && j < InnerBound(count, i)
  }

  /** The sort never looks beyond the collected entries. */
  ghost predicate SortInRange(count: nat) {
    forall i: nat, j: nat :: Compares(count, i, j) ==> j + 1 < count
  }

  lemma SortNeedsOne(count: nat)
    requires count < WORD
    ensures SortInRange(count) <==> count >= 1
  {
    if count >= 1 {
      forall i: nat, j: nat | Compares(count, i, j)
        ensures j + 1 < count
      {
        assert OuterBound(count) == count - 1;
        assert InnerBound(count, i) == count - i - 1;
      }
    } else {
      assert Compares(count, 0, 0);
    }
  }

  function Swap(es: seq<Entry>, j: nat): seq<Entry>
    requires j + 1 < |es|
  {
    es[j := es[j + 1]][j + 1 := es[j]]
  }

  lemma SwapRearranged(es: seq<Entry>, fs: seq<Entry>, j: nat)
    requires Rearranged(es, fs) && j + 1 < |fs|
    ensures Rearranged(es, Swap(fs, j))
  {
    var gs := Swap(fs, j);
    forall i | 0 <= i < |es|
      ensures es[i] in gs
    {
      var k :| 0 <= k < |fs| && fs[k] == es[i];
      assert gs[if k == j then j + 1 else if k == j + 1 then j else k] == es[i];
    }
    forall i | 0 <= i < |gs|
      ensures gs[i] in es
    {
      assert gs[i] == fs[if i == j then j + 1 else if i == j + 1 then j else i];
    }
  }

  lemma SelfRearranged(es: seq<Entry>)
    requires DistinctNumbers(es)
    ensures Rearranged(es, es)
  {
  }

  /** From position n on, every entry is no older than all before it. */
  ghost predicate Settled(es: seq<Entry>, n: int) {
    forall p, q :: 0 <= p < q < |es| && n <= q ==> es[p].seqno <= es[q].seqno
  }

  ghost predicate Bubbled(es: seq<Entry>, j: nat) {
    forall p :: 0 <= p < j && j < |es| ==> es[p].seqno <= es[j].seqno
  }

  lemma BubbleStep(es: seq<Entry>, n: nat, j: nat)
    requires Settled(es, n) && Bubbled(es, j) && j + 1 < n <= |es|
    ensures var fs := if es[j].seqno > es[j + 1].seqno then Swap(es, j) else es; Settled(fs, n) && Bubbled(fs, j + 1)
  {
  }

  lemma SettledAscending(es: seq<Entry>)
    requires Settled(es, 1) && DistinctNumbers(es)
    ensures Ascending(es)
  {
  }

  method Exchange(buf: array<Entry>, count: nat, j: nat)
    requires j + 1 < count <= buf.Length
    modifies buf
    ensures buf[..count] == old(if buf[j].seqno > buf[j + 1].seqno then Swap(buf[..count], j) else buf[..count])
    ensures buf[count..] == old(buf[count..])
  {
    if buf[j].seqno > buf[j + 1].seqno {
      var t := buf[j];
      buf[j] := buf[j + 1];
      buf[j + 1] := t;
    }
  }

  /** One round over the first n positions. */
  method Round(buf: array<Entry>, count: nat, n: nat, ghost was: seq<Entry>)
    requires 1 <= n <= count <= buf.Length && Rearranged(was, buf[..count]) && Settled(buf[..count], n)
    modifies buf
    ensures Rearranged(was, buf[..count]) && Settled(buf[..count], n - 1) && buf[count..] == old(buf[count..])
  {
    hide Settled, Bubbled, Rearranged, Swap;
    var j := 0;
    NoneBubbled(buf[..count]);
    while j < n - 1
      invariant 0 <= j <= n - 1 && Rearranged(was, buf[..count])
      invariant Settled(buf[..count], n) && Bubbled(buf[..count], j) && buf[count..] == old(buf[count..])
    {
      BubbleStep(buf[..count], n, j);
      SwapRearranged(was, buf[..count], j);
      Exchange(buf, count, j);
      j := j + 1;
    }
    RoundSettled(buf[..count], n);
  }

  method BubbleSort(buf: array<Entry>, count: nat)
    requires 1 <= count <= buf.Length && DistinctNumbers(buf[..count])
    modifies buf
    ensures Ascending(buf[..count]) && Rearranged(old(buf[..count]), buf[..count])
    ensures buf[count..] == old(buf[count..])
  {
    hide Settled, Bubbled, Rearranged, Ascending, DistinctNumbers, Swap;
    ghost var was := buf[..count];
    SelfRearranged(was);
    NoneSettled(was);
    var i := 0;
    while i < count - 1
      invariant 0 <= i <= count - 1 && Rearranged(was, buf[..count]) && Settled(buf[..count], count - i)
      invariant buf[count..] == old(buf[count..])
    {
      Round(buf, count, count - i, was);
      i := i + 1;
    }
    RearrangedShape(was, buf[..count]);
    SettledAscending(buf[..count]);
  }

  lemma NoneSettled(es: seq<Entry>)
    ensures Settled(es, |es|)
  {
  }

  lemma NoneBubbled(es: seq<Entry>)
    ensures Bubbled(es, 0)
  {
  }

  lemma RoundSettled(es: seq<Entry>, n: nat)
    requires 0 < n <= |es| && Settled(es, n) && Bubbled(es, n - 1)
    ensures Settled(es, n - 1)
  {
  }

  // ------------------------------------------------------------- first pass

  /** The slots a ring has filled hold the same entries as its window. */
  lemma SlotsAreWindow(r: Ring)
    requires |r.entries| == RING
    ensures MinSeq(r.entries[..Count(r)]) == MinSeq(Window(r))
  {
    hide MinSeq, Slot;
    var es, w := r.entries[..Count(r)], Window(r);
    forall i | 0 <= i < |es|
      ensures es[i] in w
    {
      var k := SlotInWindow(r, i);
      assert w[k] in w;
    }
    forall j | 0 <= j < |w|
      ensures w[j] in es
    {
      if r.head <= RING { SlotSmall(j); }
      assert w[j] == es[Slot(First(r) + j)];
    }
    MinSeqSame(es, w);
  }

  lemma MinSeqSnoc(es: seq<Entry>, i: nat)
    requires i < |es|
    ensures MinSeq(es[..i + 1]) == Min(es[i].seqno, MinSeq(es[..i]))
  {
    assert es[..i + 1][..i] == es[..i];
  }

  /** The first pass over one ring: its entries are counted, and the least number is lowered to theirs. */
  method SurveyRing(r: Ring, total: nat, minSeq: nat) returns (total': nat, minSeq': nat)
    requires |r.entries| == RING && minSeq <= TOP
    ensures total' == total + |Window(r)| && minSeq' == Min(minSeq, MinSeq(Window(r))) && minSeq' <= TOP
  {
    hide MinSeq, Window;
    var n := if r.head > RING then RING else r.head;
    total', minSeq' := total + n, minSeq;
    NoneIsTop(r.entries[..0]);
    for i := 0 to n
      invariant minSeq' == Min(minSeq, MinSeq(r.entries[..i]))
    {
      MinSeqSnoc(r.entries, i);
      if r.entries[i].seqno < minSeq' { minSeq' := r.entries[i].seqno; }
    }
    SlotsAreWindow(r);
  }

  /** The second pass over one ring, after the entries in seen. */
  method CollectRing(r: Ring, buf: array<Entry>, count: nat, max: int, lo: nat, ghost seen: seq<Entry>)
      returns (count': nat)
    requires |r.entries| == RING && max <= buf.Length
    requires count <= Limit(max) && buf[..count] == Prefix(Keep(seen, lo), Limit(max))
    modifies buf
    ensures count' <= Limit(max) && buf[..count'] == Prefix(Keep(seen + Window(r), lo), Limit(max))
    ensures count <= count' && buf[count'..] == old(buf[count'..])
  {
    hide Keep, Prefix, Window, Slot;
    count' := count;
    var start := if r.head > RING then r.head - RING else 0;
    var i := start;
    assert seen + Window(r)[..0] == seen;
    while i < r.head && count' < max
      invariant start <= i <= r.head && count <= count' <= Limit(max)
      invariant buf[..count'] == Prefix(Keep(seen + Window(r)[..i - start], lo), Limit(max))
      invariant forall k :: count' <= k < buf.Length ==> buf[k] == old(buf[k])
    {
      var idx := Slot(i);
      ghost var before := seen + Window(r)[..i - start];
      WindowAt(r, i);
      PrefixStep(before, r.entries[idx], lo, Limit(max));
      assert seen + Window(r)[..i + 1 - start] == before + [r.entries[idx]];
      if r.entries[idx].seqno >= lo {
        buf[count'] := r.entries[idx];
        count' := count' + 1;
      }
      i := i + 1;
    }
    ghost var rest := Window(r)[i - start..];
    assert seen + Window(r) == (seen + Window(r)[..i - start]) + rest;
    if count' == Limit(max) {
      PrefixFull(seen + Window(r)[..i - start], rest, lo, Limit(max));
    } else {
      assert seen + Window(r) == seen + Window(r)[..i - start];
    }
  }

  class Klog {
    var rings: seq<Ring>
    var nextSeq: nat
    ghost var since: nat   // the next number when the rings were last cleared

    ghost predicate Valid() reads this {
      KlogInv(rings, nextSeq) && Logged(rings, since, nextSeq)
    }

    /** klog_init, but for the message it logs at the end; `unset` is whatever the buffers hold. */
    constructor (unset: Entry)
      ensures Valid() && nextSeq == since == 0 && forall c :: 0 <= c < NCPU ==> rings[c].head == 0
      ensures Retained() == []
    {
      rings, nextSeq, since := seq(NCPU, _ => Ring(seq(RING, _ => unset), 0)), 0, 0;
      new;
      NoHeads(rings, NCPU);
      EmptyScan(rings, NCPU);
    }

    ghost function Contents(): (l: Logs)
      reads `rings, `nextSeq
    {
      Logs(rings, nextSeq)
    }

    /** What is retained, in the order the snapshot visits it. */
    ghost function Retained(): seq<Entry>
      requires Valid()
      reads this
    {
      Scan(rings, NCPU)
    }

    method NextSeq() returns (s: nat)
      requires nextSeq + 1 < WORD
      modifies `nextSeq
      ensures s == old(nextSeq) && nextSeq == s + 1
    {
      s := nextSeq;
      nextSeq := nextSeq + 1;
    }

    /** Adds an entry to a CPU's ring, where it may replace that CPU's oldest; other CPUs keep theirs. */
    method Log(cpu: int, pid: nat, level: nat, msg: string)
      requires Valid() && nextSeq + 1 < WORD
      modifies `rings, `nextSeq
      ensures Valid() && Shaped(old(rings)) && Contents() == LogOne(old(Contents()), Call(cpu, pid, level, msg))
      ensures !(0 <= cpu < NCPU) ==> rings == old(rings) && nextSeq == old(nextSeq)
      ensures 0 <= cpu < NCPU ==>
                var e := Entry(old(nextSeq), cpu, pid, level, msg);
                && Window(rings[cpu]) == Last(Window(old(rings)[cpu]) + [e])
                && rings[cpu].head == old(rings)[cpu].head + 1
                && nextSeq == old(nextSeq) + 1
                && forall c :: 0 <= c < NCPU && c != cpu ==> rings[c] == old(rings)[c]
    {
      hide KlogInv, Window, Slot, Logged;
      InvShape(rings, nextSeq);
      if cpu < 0 || cpu >= NCPU { return; }
      var r := rings[cpu];
      var idx := Slot(r.head);
      var s := NextSeq();
      var e := Entry(s, cpu, pid, level, msg);
      AppendWindow(r, e);
      AppendInv(rings, s, cpu, e);
      LoggedAppend(rings, since, s, cpu, e);
      rings := rings[cpu := Ring(r.entries[idx := e], r.head + 1)];
    }

    /** First pass: how many entries there are and the least number. */
    method Survey() returns (total: nat, minSeq: nat)
      requires Valid()
      ensures total == |Retained()| && minSeq == MinSeq(Retained())
    {
      hide KlogInv, MinSeq, Window, Logged;
      InvShape(rings, nextSeq);
      total, minSeq := 0, TOP;
      NoneIsTop(Scan(rings, 0));
      for c := 0 to NCPU
        invariant total == |Scan(rings, c)| && minSeq == MinSeq(Scan(rings, c)) <= TOP
      {
        MinSeqConcat(Scan(rings, c), Window(rings[c]));
        total, minSeq := SurveyRing(rings[c], total, minSeq);
      }
    }

    /** Second pass: the first max entries numbered at least lo. */
    method Collect(buf: array<Entry>, max: int, lo: nat) returns (count: nat)
      requires Valid() && max <= buf.Length
      modifies buf
      ensures count <= Limit(max) && buf[..count] == Prefix(Keep(Retained(), lo), Limit(max))
      ensures buf[count..] == old(buf[count..])
    {
      hide KlogInv, Keep, Prefix, Window, Slot, Shaped, Logged;
      InvShape(rings, nextSeq);
      count := 0;
      KeepNothing(lo, Limit(max));
      for c := 0 to NCPU
        invariant count <= Limit(max) && buf[..count] == Prefix(Keep(Scan(rings, c), lo), Limit(max))
        invariant buf[count..] == old(buf[count..])
      {
        ShapedAt(rings, c);
        count := CollectRing(rings[c], buf, count, max, lo, Scan(rings, c));
      }
    }

    /** Exactly min(total, max) retained entries, in strictly increasing order; RecentIff says when they are the most
        recent. The sort runs beyond them (not ok) exactly when nothing is retained or nothing is wanted. */
    method Snapshot(buf: array<Entry>, max: int) returns (ok: bool, count: nat)
      requires Valid() && nextSeq <= WORD && max <= buf.Length
      modifies buf
      ensures count == Min(|Retained()|, Limit(max)) && buf[count..] == old(buf[count..])
      ensures ok <==> SortInRange(count)
      ensures ok <==> Retained() != [] && max >= 1
      ensures ok ==> Rearranged(Pick(Retained(), max), buf[..count]) && Ascending(buf[..count])
    {
      hide KlogInv, Keep, MinSeq, Rearranged, Ascending, DistinctNumbers, Scan, Pick, Logged, SortInRange;
      ghost var es := Retained();
      var total, minSeq := Survey();
      var skip := if total > max then total - max else 0;
      ScanDistinct(rings, nextSeq, NCPU);
      if es == [] || max < 1 {
        KeepShort(es, (minSeq + skip) % WORD, max);
      } else {
        PickCount(es, max);
        PickDistinct(es, max);
        BoundFits(es, max, nextSeq);
        PickIs(es, max);
      }
      count := Collect(buf, max, (minSeq + skip) % WORD);
      InvShape(rings, nextSeq);
      ScanSize(rings, NCPU);
      SortNeedsOne(count);
      ok := count >= 1;
      if ok { BubbleSort(buf, count); }
    }

    // ------------------------------------ a snapshot while others are logging

    /** What other CPUs log between two visits. */
    method Others(calls: seq<Call>)
      requires Valid() && nextSeq + |calls| < WORD
      modifies `rings, `nextSeq
      ensures Valid() && Contents() == LogAll(old(Contents()), calls)
    {
      hide KlogInv, Logged, LogOne;
      InvShape(rings, nextSeq);
      for i := 0 to |calls|
        invariant Valid() && Contents() == LogAll(old(Contents()), calls[..i])
      {
        var a := calls[i];
        assert calls[..i + 1][..i] == calls[..i];
        Log(a.cpu, a.pid, a.level, a.msg);
      }
      assert calls[..|calls|] == calls;
    }

    /** The first pass, with race[c] logged before ring c is visited. */
    method SurveyRacing(race: seq<seq<Call>>) returns (total: nat, minSeq: nat)
      requires Valid() && |race| == 2 * NCPU && nextSeq + |Calls(race, 2 * NCPU)| < WORD
      modifies `rings, `nextSeq
      ensures Valid() && Contents() == LogAll(old(Contents()), Calls(race, NCPU))
      ensures var es := Scan(Views(old(Contents()), race, 0), NCPU); total == |es| && minSeq == MinSeq(es)
    {
      hide KlogInv, MinSeq, Window, Logged, LogAll;
      InvShape(rings, nextSeq);
      ghost var l := Contents();
      ghost var views := Views(l, race, 0);
      total, minSeq := 0, TOP;
      NoneIsTop(Scan(views, 0));
      NoCalls(l, race);
      for c := 0 to NCPU
        invariant Valid() && Contents() == LogAll(l, Calls(race, c))
        invariant total == |Scan(views, c)| && minSeq == MinSeq(Scan(views, c)) <= TOP
      {
        Visit(l, race, c);
        Others(race[c]);
        InvShape(rings, nextSeq);
        MinSeqConcat(Scan(views, c), Window(rings[c]));
        total, minSeq := SurveyRing(rings[c], total, minSeq);
      }
    }

    /** The second pass, with race[NCPU + c] logged before ring c is visited; l is what the snapshot began with. */
    method CollectRacing(buf: array<Entry>, max: int, lo: nat, race: seq<seq<Call>>, ghost l: Logs)
        returns (count: nat)
      requires Valid() && |race| == 2 * NCPU && Shaped(l.rings) && l.next + |Calls(race, 2 * NCPU)| < WORD
      requires Contents() == LogAll(l, Calls(race, NCPU)) && max <= buf.Length
      modifies `rings, `nextSeq, buf
      ensures Valid() && Contents() == LogAll(l, Calls(race, 2 * NCPU))
      ensures count <= Limit(max)
      ensures buf[..count] == Prefix(Keep(Scan(Views(l, race, NCPU), NCPU), lo), Limit(max))
      ensures buf[count..] == old(buf[count..])
    {
      hide KlogInv, Keep, Prefix, Window, Slot, Shaped, Logged, LogAll;
      ghost var views := Views(l, race, NCPU);
      count := 0;
      KeepNothing(lo, Limit(max));
      for c := 0 to NCPU
        invariant Valid() && Contents() == LogAll(l, Calls(race, NCPU + c))
        invariant count <= Limit(max) && buf[..count] == Prefix(Keep(Scan(views, c), lo), Limit(max))
        invariant buf[count..] == old(buf[count..])
      {
        Visit(l, race, NCPU + c);
        Others(race[NCPU + c]);
        InvShape(rings, nextSeq);
        ShapedAt(rings, c);
        ShapedAt(views, c);
        count := CollectRing(rings[c], buf, count, max, lo, Scan(views, c));
      }
    }

    /** The snapshot as it runs with other CPUs logging: at least min(total, max) entries for the total that its first
        pass found, in strictly increasing order, and the sort is in range exactly when that pass found any. */
    method SnapshotRacing(buf: array<Entry>, max: int, race: seq<seq<Call>>) returns (ok: bool, count: nat)
      requires Valid() && |race| == 2 * NCPU && nextSeq + |Calls(race, 2 * NCPU)| < WORD && max <= buf.Length
      modifies `rings, `nextSeq, buf
      ensures Valid() && Contents() == LogAll(old(Contents()), Calls(race, 2 * NCPU))
      ensures var es, fs := Scan(Views(old(Contents()), race, 0), NCPU), Scan(Views(old(Contents()), race, NCPU), NCPU);
              && Min(|es|, Limit(max)) <= count <= Limit(max) && (ok <==> SortInRange(count))
              && (ok <==> es != [] && max >= 1)
              && (ok ==> Rearranged(Caught(es, fs, max), buf[..count]) && Ascending(buf[..count]))
      ensures buf[count..] == old(buf[count..])
    {
      hide KlogInv, Keep, MinSeq, Rearranged, Ascending, DistinctNumbers, Scan, Logged, SortInRange, LogAll, Views;
      InvShape(rings, nextSeq);
      ghost var l := Contents();
      ghost var es, fs := Scan(Views(l, race, 0), NCPU), Scan(Views(l, race, NCPU), NCPU);
      var total, minSeq := SurveyRacing(race);
      var skip := if total > max then total - max else 0;
      RacingBound(l, race, max);
      count := CollectRacing(buf, max, (minSeq + skip) % WORD, race, l);
      ScanSize(Views(l, race, NCPU), NCPU);
      SortNeedsOne(count);
      ok := count >= 1;
      if ok { BubbleSort(buf, count); }
    }

    method Clear()
      requires Valid()
      modifies `rings, `since
      ensures Valid() && Retained() == [] && since == nextSeq && forall c :: 0 <= c < NCPU ==> rings[c].head == 0
    {
      var c := 0;
      while c < NCPU
        invariant 0 <= c <= NCPU && KlogInv(rings, nextSeq) && forall d :: 0 <= d < c ==> rings[d].head == 0
      {
        ClearedInv(rings, nextSeq, c);
        rings := rings[c := rings[c].(head := 0)];
        c := c + 1;
      }
      since := nextSeq;
      NoHeads(rings, NCPU);
      EmptyScan(rings, NCPU);
    }
  }

  /** For instance, the sort runs out of range right after a clear, whatever limit it is given. */
  method ClearedOutOfRange(k: Klog, buf: array<Entry>, max: int) returns (ok: bool)
    requires k.Valid() && k.nextSeq <= WORD && max <= buf.Length
    modifies k, buf
    ensures !ok
  {
    k.Clear();
    var count;
    ok, count := k.Snapshot(buf, max);
  }

  // ------------------------------------------------------- a snapshot misled

  /** Entries numbered first, first + 1 and so on. */
  ghost predicate Consecutive(es: seq<Entry>, first: nat) {
    forall i :: 0 <= i < |es| ==> es[i].seqno == first + i
  }

  /** Ring 0 holds number 0, ring 1 the last of the numbers from 1 to next - 1, and the others hold nothing. */
  ghost predicate TwoRings(rings: seq<Ring>, next: nat)
    requires Shaped(rings)
  {
    && next > 0 && rings[0].head == 1 && Consecutive(Window(rings[0]), 0)
    && rings[1].head == next - 1 && Consecutive(Window(rings[1]), next - Count(rings[1]))
    && forall c :: 2 <= c < NCPU ==> rings[c].head == 0
  }

  lemma ConsecutiveLast(w: seq<Entry>, e: Entry)
    requires |w| <= RING && e.seqno >= |w| && Consecutive(w, e.seqno - |w|)
    ensures Consecutive(Last(w + [e]), e.seqno + 1 - |Last(w + [e])|)
  {
  }

  lemma TwoRingsNext(rings: seq<Ring>, rings': seq<Ring>, next: nat, e: Entry)
    requires Shaped(rings) && Shaped(rings') && TwoRings(rings, next) && e.seqno == next
    requires Window(rings'[1]) == Last(Window(rings[1]) + [e]) && rings'[1].head == rings[1].head + 1
    requires forall c :: 0 <= c < NCPU && c != 1 ==> rings'[c] == rings[c]
    ensures TwoRings(rings', next + 1)
  {
    hide Window;
    ConsecutiveLast(Window(rings[1]), e);
  }

  lemma TwoRingsStart(rings: seq<Ring>, rings': seq<Ring>, e: Entry)
    requires Shaped(rings) && Shaped(rings') && (forall c :: 0 <= c < NCPU ==> rings[c].head == 0) && e.seqno == 0
    requires Window(rings'[0]) == Last(Window(rings[0]) + [e]) && rings'[0].head == 1
    requires forall c :: 0 <= c < NCPU && c != 0 ==> rings'[c] == rings[c]
    ensures TwoRings(rings', 1)
  {
  }

  lemma TwoRingsScan(rings: seq<Ring>, next: nat)
    requires Shaped(rings) && TwoRings(rings, next)
    ensures Scan(rings, NCPU) == Window(rings[0]) + Window(rings[1])
  {
    assert Scan(rings, 0) == [];
    assert Scan(rings, 1) == Window(rings[0]);
    assert Scan(rings, 2) == Window(rings[0]) + Window(rings[1]);
    assert Scan(rings, 3) == Scan(rings, 2) && Scan(rings, 4) == Scan(rings, 3) && Scan(rings, 5) == Scan(rings, 4);
    assert Scan(rings, 6) == Scan(rings, 5) && Scan(rings, 7) == Scan(rings, 6) && Scan(rings, 8) == Scan(rings, 7);
  }

  /** Of the numbers 0 and 5 to 260, a snapshot of 64 loses the newest. */
  lemma NewestLost(es: seq<Entry>)
    requires |es| == 257 && es[0].seqno == 0 && Consecutive(es[1..], 5)
    ensures Bound(es, 64) == 193 && es[256] !in Pick(es, 64) && !Recent(es, Pick(es, 64))
  {
    hide Keep, MinSeq, NoGap;
    assert forall i :: 1 <= i < 257 ==> es[i] == es[1..][i - 1];
    MinSeqLeast(es);
    var front := es[..256];
    assert es == front + [es[256]];
    KeepConcat(front, [es[256]], 193);
    KeepSingle(es[256], 193);
    MinSeqLeast(front);
    assert front[0].seqno == 0;
    Pigeonhole(front, 193);
    OneMissing(front);
    PickDistinct(es, 64);
    KeepDistinct(es, 193);
    var all := Keep(es, 193);
    assert all[|all| - 1] == es[256] && |all| > 64;
    assert Pick(es, 64) == all[..64];
    var p := all[0];
    assert p in Pick(es, 64);
    KeepMember(es, 193, p);
    assert p.seqno < es[256].seqno by { var i :| 0 <= i < |es| && es[i] == p; }
  }

  lemma OneMissing(front: seq<Entry>)
    requires |front| == 256 && front[0].seqno == 0 && forall i :: 1 <= i < 256 ==> front[i].seqno == 4 + i
    ensures !NoGap(front, 0, 193)
  {
    assert !Has(front, 1);
  }

  /** Where a gap misleads it: after one entry on CPU 0 and 260 on CPU 1, a snapshot of 64 skips the newest. */
  method GapLosesNewest(unset: Entry) returns (k: Klog, ghost newest: Entry)
    ensures fresh(k) && k.Valid() && newest in k.Retained() && newest.seqno == 260 && k.nextSeq == 261
    ensures newest !in Pick(k.Retained(), 64) && !Recent(k.Retained(), Pick(k.Retained(), 64))
  {
    hide KlogInv, Logged, Window, Pick, Recent, TwoRings, Consecutive;
    k := new Klog(unset);
    InvShape(k.rings, 0);
    ghost var was := k.rings;
    k.Log(0, 0, 0, "");
    InvShape(k.rings, 1);
    TwoRingsStart(was, k.rings, Entry(0, 0, 0, 0, ""));
    while k.nextSeq < 261
      invariant k.Valid() && fresh(k) && k.nextSeq <= 261 && Shaped(k.rings) && TwoRings(k.rings, k.nextSeq)
    {
      was := k.rings;
      ghost var n := k.nextSeq;
      k.Log(1, 0, 0, "");
      InvShape(k.rings, n + 1);
      TwoRingsNext(was, k.rings, n, Entry(n, 1, 0, 0, ""));
    }
    ghost var es := k.Retained();
    TwoRingsScan(k.rings, 261);
    TwoRingsNumbers(k.rings);
    NewestLost(es);
    newest := es[256];
  }

  lemma TwoRingsNumbers(rings: seq<Ring>)
    requires Shaped(rings) && TwoRings(rings, 261)
    ensures var es := Window(rings[0]) + Window(rings[1]);
            |es| == 257 && es[0].seqno == 0 && Consecutive(es[1..], 5) && es[256].seqno == 260
  {
    hide Window;
    var es := Window(rings[0]) + Window(rings[1]);
    assert es[1..] == Window(rings[1]);
    assert es[256] == Window(rings[1])[255];
  }

  lemma ShapedAt(rings: seq<Ring>, c: nat)
    requires Shaped(rings) && c < NCPU
    ensures |rings| == NCPU && |rings[c].entries| == RING
  {
  }

  lemma ClearedInv(rings: seq<Ring>, next: nat, c: nat)
    requires KlogInv(rings, next) && c < NCPU
    ensures KlogInv(rings[c := rings[c].(head := 0)], next)
  {
    var rings' := rings[c := rings[c].(head := 0)];
    assert Window(rings'[c]) == [];
  }

  lemma {:induction false} EmptyScan(rings: seq<Ring>, n: nat)
    requires Shaped(rings) && n <= NCPU && forall d :: 0 <= d < n ==> rings[d].head == 0
    ensures Scan(rings, n) == []
  {
    if n > 0 { EmptyScan(rings, n - 1); }
  }

  lemma NoCalls(l: Logs, race: seq<seq<Call>>)
    requires Shaped(l.rings)
    ensures LogAll(l, Calls(race, 0)) == l
  {
  }

  /** From one visit to the next. */
  lemma Visit(l: Logs, race: seq<seq<Call>>, v: nat)
    requires Shaped(l.rings) && v < |race| == 2 * NCPU
    ensures LogAll(LogAll(l, Calls(race, v)), race[v]) == LogAll(l, Calls(race, v + 1))
    ensures |Calls(race, v)| + |race[v]| <= |Calls(race, 2 * NCPU)|
  {
    LogMore(l, Calls(race, v), race[v]);
    var more := CallsFrom(race, v + 1, 2 * NCPU);
  }

  /** The bound that the first pass sets, and what the second can find by it. */
  lemma RacingBound(l: Logs, race: seq<seq<Call>>, max: int)
    requires KlogInv(l.rings, l.next) && |race| == 2 * NCPU && l.next + |Calls(race, 2 * NCPU)| < WORD
    ensures Shaped(l.rings)
    ensures var es, fs := Scan(Views(l, race, 0), NCPU), Scan(Views(l, race, NCPU), NCPU);
            var lo := (MinSeq(es) + if |es| > max then |es| - max else 0) % WORD;
            var got := Prefix(Keep(fs, lo), Limit(max));
            && Min(|es|, Limit(max)) <= |got| <= Limit(max) && DistinctNumbers(got)
            && (|got| >= 1 <==> es != [] && max >= 1)
            && (max >= 1 ==> got == Caught(es, fs, max))
  {
    hide KlogInv, Keep, MinSeq, DistinctNumbers, Scan, LogAll, Views;
    InvShape(l.rings, l.next);
    var es, fs := Scan(Views(l, race, 0), NCPU), Scan(Views(l, race, NCPU), NCPU);
    if max < 1 {
      NoneDistinct();
    } else {
      CaughtEnough(l, race, max);
      ViewsInv(l, race, 0);
      ViewsInv(l, race, NCPU);
      ScanDistinct(Views(l, race, 0), LogAll(l, Calls(race, NCPU)).next, NCPU);
      ScanDistinct(Views(l, race, NCPU), LogAll(l, Calls(race, 2 * NCPU)).next, NCPU);
      var more := CallsFrom(race, NCPU, 2 * NCPU);
      if es == [] {
        NoneIsTop(es);
        NothingCaught(es, fs, max);
      } else {
        BoundFits(es, max, WORD);
      }
    }
  }

  lemma NoneDistinct()
    ensures DistinctNumbers([])
  {
  }

  lemma KeepNothing(lo: nat, max: nat)
    ensures Prefix(Keep([], lo), max) == []
  {
  }

  lemma WindowAt(r: Ring, i: nat)
    requires |r.entries| == RING && First(r) <= i < r.head
    ensures Window(r)[i - First(r)] == r.entries[Slot(i)]
  {
  }

  lemma {:induction false} PickIs(es: seq<Entry>, max: nat)
    ensures Pick(es, max) == Prefix(Keep(es, MinSeq(es) + Skip(|es|, max)), max)
  {
    hide Keep, MinSeq, Prefix, Skip;
  }

  /** The bound does not wrap, because some entry reaches it. */
  lemma BoundFits(es: seq<Entry>, max: nat, next: nat)
    requires DistinctNumbers(es) && Below(es, next) && next <= WORD && es != [] && max > 0
    ensures Bound(es, max) < WORD && Bound(es, max) % WORD == Bound(es, max)
  {
    hide Keep, MinSeq, DistinctNumbers;
    PickCount(es, max);
    PickMember(es, max, Pick(es, max)[0]);
  }

  /** The limit as the loop sees it: a negative one admits nothing. */
  function Limit(max: int): nat {
    if max < 0 then 0 else max
  }

  lemma KeepShort(es: seq<Entry>, lo: nat, max: int)
    requires es == [] || max < 1
    ensures Prefix(Keep(es, lo), Limit(max)) == []
  {
  }

  lemma {:induction false} ScanSize(rings: seq<Ring>, n: nat)
    requires Shaped(rings) && n <= NCPU
    ensures |Scan(rings, n)| <= n * RING
  {
    if n > 0 { ScanSize(rings, n - 1); }
  }

  lemma {:induction false} NoHeads(rings: seq<Ring>, n: nat)
    requires n <= |rings| && forall d :: 0 <= d < n ==> rings[d].head == 0
    ensures Heads(rings, n) == 0
  {
    if n > 0 { NoHeads(rings, n - 1); }
  }
}

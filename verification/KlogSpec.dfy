/** Log entries, the windows that rings retain, and which entries a snapshot picks. */
module KlogSpec {
  import opened Basics

  const RING: nat := 256
  const NCPU: nat := 8
  const TOP: nat := 0xFFFF_FFFF

  datatype Entry = Entry(seqno: nat, cpu: nat, pid: nat, level: nat, msg: string)

  /** One CPU's buffer; head counts the entries ever written to it. */
  datatype Ring = Ring(entries: seq<Entry>, head: nat)

  // ----------------------------------------------------------------- windows

  function Count(r: Ring): nat {
    if r.head > RING then RING else r.head
  }

  function First(r: Ring): nat {
    if r.head > RING then r.head - RING else 0
  }

  /** Where the i-th entry written to a ring goes. */
  function Slot(i: nat): (r: nat)
    ensures r < RING
  {
    i % RING
  }

  /** The retained entries, oldest first. */
  function Window(r: Ring): (w: seq<Entry>)
    requires |r.entries| == RING
    ensures |w| == Count(r)
  {
    seq(Count(r), k requires 0 <= k < Count(r) => r.entries[Slot(First(r) + k)])
  }

  function Append(r: Ring, e: Entry): Ring
    requires |r.entries| == RING
  {
    Ring(r.entries[Slot(r.head) := e], r.head + 1)
  }

  /** The last RING of a list. */
  function Last(w: seq<Entry>): seq<Entry> {
    if |w| > RING then w[|w| - RING..] else w
  }

  lemma SlotsDiffer(i: nat, j: nat)
    requires i < j < i + RING
    ensures Slot(i) != Slot(j)
  {
  }

  /** A ring keeps the most recent entries in order: it refines a queue cut to RING. */
  lemma AppendWindow(r: Ring, e: Entry)
    requires |r.entries| == RING
    ensures Window(Append(r, e)) == Last(Window(r) + [e])
  {
    hide Slot;
    var a, l := Window(Append(r, e)), Last(Window(r) + [e]);
    forall k | 0 <= k < |a|
      ensures a[k] == l[k]
    {
      var i := First(Append(r, e)) + k;
      assert l[k] == (Window(r) + [e])[i - First(r)];
      if i < r.head {
        SlotsDiffer(i, r.head);
        assert Window(r)[i - First(r)] == r.entries[Slot(i)];
      }
    }
  }

  /** Every slot of a full ring is in the window. */
  lemma SlotInWindow(r: Ring, s: nat) returns (k: nat)
    requires |r.entries| == RING && s < Count(r)
    ensures k < Count(r) && Window(r)[k] == r.entries[s]
  {
    hide Slot;
    k := SlotFrom(First(r), s);
    if r.head <= RING { SlotSmall(s); }
  }

  lemma SlotSmall(s: nat)
    requires s < RING
    ensures Slot(s) == s
  {
  }

  /** Any RING numbers in a row cover every slot. */
  lemma SlotFrom(first: nat, s: nat) returns (k: nat)
    requires s < RING
    ensures k < RING && Slot(first + k) == s && (first == 0 ==> k == s)
  {
    var f, q := first % RING, first / RING;
    k := if f <= s then s - f else s + RING - f;
    assert first + k == s + RING * (if f <= s then q else q + 1);
  }

  // -------------------------------------------------------------------- scan

  predicate Shaped(rings: seq<Ring>) {
    |rings| == NCPU && forall c :: 0 <= c < NCPU ==> |rings[c].entries| == RING
  }

  /** The entries of the first n CPUs in the order a snapshot visits them. */
  function Scan(rings: seq<Ring>, n: nat): seq<Entry>
    requires Shaped(rings) && n <= NCPU
  {
    if n == 0 then [] else Scan(rings, n - 1) + Window(rings[n - 1])
  }

  ghost predicate DistinctNumbers(es: seq<Entry>) {
    forall i, j :: 0 <= i < j < |es| ==> es[i].seqno != es[j].seqno
  }

  ghost predicate Ascending(es: seq<Entry>) {
    forall i, j :: 0 <= i < j < |es| ==> es[i].seqno < es[j].seqno
  }

  /** No two CPUs retain the same number. */
  ghost predicate Apart(es: seq<Entry>, fs: seq<Entry>) {
    forall i, j :: 0 <= i < |es| && 0 <= j < |fs| ==> es[i].seqno != fs[j].seqno
  }

  ghost predicate Below(es: seq<Entry>, bound: nat) {
    forall i :: 0 <= i < |es| ==> es[i].seqno < bound
  }

  /** Each CPU's entries are in order, numbers are unique, and the next one is larger than all. */
  ghost predicate KlogInv(rings: seq<Ring>, next: nat) {
    && Shaped(rings)
    && (forall c :: 0 <= c < NCPU ==> Ascending(Window(rings[c])) && Below(Window(rings[c]), next))
    && (forall c, d :: 0 <= c < d < NCPU ==> Apart(Window(rings[c]), Window(rings[d])))
  }

  lemma AppendInv(rings: seq<Ring>, next: nat, c: nat, e: Entry)
    requires KlogInv(rings, next) && c < NCPU && e.seqno == next
    ensures KlogInv(rings[c := Append(rings[c], e)], next + 1)
  {
    hide Window, Append;
    AppendWindow(rings[c], e);
    var rings' := rings[c := Append(rings[c], e)];
    assert |rings'[c].entries| == RING by { AppendShape(rings[c], e); }
    forall d | 0 <= d < NCPU
      ensures Ascending(Window(rings'[d])) && Below(Window(rings'[d]), next + 1)
    {
      assert Ascending(Window(rings[d])) && Below(Window(rings[d]), next);
      if d == c { LastAscending(Window(rings[c]), e); }
    }
    forall d, f | 0 <= d < f < NCPU
      ensures Apart(Window(rings'[d]), Window(rings'[f]))
    {
      assert Apart(Window(rings[d]), Window(rings[f]));
      assert Below(Window(rings[d]), next) && Below(Window(rings[f]), next);
      if d == c || f == c { LastApart(Window(rings[c]), e, Window(rings[if d == c then f else d])); }
    }
  }

  lemma AppendShape(r: Ring, e: Entry)
    requires |r.entries| == RING
    ensures |Append(r, e).entries| == RING
  {
  }

  lemma LastAscending(w: seq<Entry>, e: Entry)
    requires Ascending(w) && Below(w, e.seqno)
    ensures Ascending(Last(w + [e])) && Below(Last(w + [e]), e.seqno + 1)
  {
  }

  lemma LastApart(w: seq<Entry>, e: Entry, v: seq<Entry>)
    requires (Apart(w, v) || Apart(v, w)) && Below(v, e.seqno)
    ensures Apart(Last(w + [e]), v) && Apart(v, Last(w + [e]))
  {
  }

  /** So all the retained numbers are distinct. */
  lemma {:induction false} ScanDistinct(rings: seq<Ring>, next: nat, n: nat)
    requires KlogInv(rings, next) && n <= NCPU
    ensures DistinctNumbers(Scan(rings, n)) && Below(Scan(rings, n), next)
    ensures forall d :: n <= d < NCPU ==> Apart(Scan(rings, n), Window(rings[d]))
  {
    hide Window;
    if n > 0 {
      ScanDistinct(rings, next, n - 1);
      assert Ascending(Window(rings[n - 1])) && Below(Window(rings[n - 1]), next);
      assert Apart(Scan(rings, n - 1), Window(rings[n - 1]));
      forall d | n <= d < NCPU
        ensures Apart(Scan(rings, n), Window(rings[d]))
      {
        assert Apart(Scan(rings, n - 1), Window(rings[d])) && Apart(Window(rings[n - 1]), Window(rings[d]));
      }
    }
  }

  // ----------------------------------------------------------- what is picked

  function Min(a: nat, b: nat): nat { if a < b then a else b }

  /** The least number, or the largest word if there is none. */
  function MinSeq(es: seq<Entry>): nat {
    if es == [] then TOP else Min(es[|es| - 1].seqno, MinSeq(es[..|es| - 1]))
  }

  /** The entries numbered at least lo, in order. */
  function Keep(es: seq<Entry>, lo: nat): (r: seq<Entry>)
    ensures |r| <= |es|
  {
    if es == [] then []
    else
      var rest, e := Keep(es[..|es| - 1], lo), es[|es| - 1];
      if e.seqno >= lo then rest + [e] else rest
  }

  function Prefix(es: seq<Entry>, max: nat): seq<Entry> {
    if |es| <= max then es else es[..max]
  }

  /** How many of the oldest are to be skipped. */
  function Skip(total: nat, max: nat): nat {
    if total > max then total - max else 0
  }

  function Bound(es: seq<Entry>, max: nat): nat {
    MinSeq(es) + Skip(|es|, max)
  }

  /** What a snapshot collects from a scan: the first max entries at or above the bound. */
  function Pick(es: seq<Entry>, max: nat): seq<Entry> {
    Prefix(Keep(es, Bound(es, max)), max)
  }

  lemma {:induction false} MinSeqLeast(es: seq<Entry>)
    ensures forall i :: 0 <= i < |es| ==> MinSeq(es) <= es[i].seqno
    ensures MinSeq(es) <= TOP
    ensures es != [] ==> MinSeq(es) == TOP || exists i :: 0 <= i < |es| && es[i].seqno == MinSeq(es)
  {
    if es != [] {
      MinSeqLeast(es[..|es| - 1]);
      if es[|es| - 1].seqno < MinSeq(es[..|es| - 1]) { assert es[|es| - 1].seqno == MinSeq(es); }
    }
  }

  lemma {:induction false} KeepConcat(es: seq<Entry>, fs: seq<Entry>, lo: nat)
    ensures Keep(es + fs, lo) == Keep(es, lo) + Keep(fs, lo)
  {
    if fs == [] {
      assert es + fs == es;
    } else {
      assert (es + fs)[..|es + fs| - 1] == es + fs[..|fs| - 1];
      KeepConcat(es, fs[..|fs| - 1], lo);
    }
  }

  lemma {:induction false} MinSeqConcat(es: seq<Entry>, fs: seq<Entry>)
    ensures MinSeq(es + fs) == Min(MinSeq(es), MinSeq(fs))
  {
    if fs == [] {
      assert es + fs == es;
      MinSeqLeast(es);
    } else {
      assert (es + fs)[..|es + fs| - 1] == es + fs[..|fs| - 1];
      MinSeqConcat(es, fs[..|fs| - 1]);
    }
  }

  lemma MinSeqSame(es: seq<Entry>, fs: seq<Entry>)
    requires forall i :: 0 <= i < |es| ==> es[i] in fs
    requires forall j :: 0 <= j < |fs| ==> fs[j] in es
    ensures MinSeq(es) == MinSeq(fs)
  {
    hide MinSeq;
    MinSeqLeast(es);
    MinSeqLeast(fs);
    NoneIsTop(es);
    NoneIsTop(fs);
  }

  lemma NoneIsTop(es: seq<Entry>)
    ensures es == [] ==> MinSeq(es) == TOP
  {
  }

  // -------------------------------------------------------------- pigeonhole

  /** The numbers below lo, as a set. */
  ghost function Dropped(es: seq<Entry>, lo: nat): (s: set<nat>)
    ensures forall x: nat :: x in s <==> x < lo && Has(es, x)
  {
    if es == [] then {}
    else
      var rest, e := es[..|es| - 1], es[|es| - 1];
      HasSnoc(es);
      Dropped(rest, lo) + if e.seqno < lo then {e.seqno} else {}
  }

  ghost predicate Has(es: seq<Entry>, x: nat) {
    exists i :: 0 <= i < |es| && es[i].seqno == x
  }

  lemma HasSnoc(es: seq<Entry>)
    requires es != []
    ensures forall x: nat :: Has(es, x) <==> Has(es[..|es| - 1], x) || x == es[|es| - 1].seqno
  {
    var rest := es[..|es| - 1];
    forall x: nat
      ensures Has(es, x) <==> Has(rest, x) || x == es[|es| - 1].seqno
    {
      if Has(rest, x) {
        var i :| 0 <= i < |rest| && rest[i].seqno == x;
        assert es[i].seqno == x;
      }
      if Has(es, x) {
        var i :| 0 <= i < |es| && es[i].seqno == x;
        assert i < |rest| ==> rest[i].seqno == x;
      }
    }
  }

  /** With distinct numbers, the dropped entries are as many as the dropped numbers. */
  lemma {:induction false} DroppedCount(es: seq<Entry>, lo: nat)
    requires DistinctNumbers(es)
    ensures |es| == |Keep(es, lo)| + |Dropped(es, lo)|
  {
    if es != [] {
      var rest, e := es[..|es| - 1], es[|es| - 1];
      DroppedCount(rest, lo);
      forall i | 0 <= i < |rest|
        ensures rest[i].seqno != e.seqno
      {
        assert rest[i] == es[i];
      }
      assert e.seqno !in Dropped(rest, lo);
    }
  }

  ghost function Span(lo: nat, n: nat): (s: set<nat>)
    ensures |s| == n && forall x :: x in s <==> lo <= x < lo + n
  {
    if n == 0 then {} else Span(lo, n - 1) + {lo + n - 1}
  }

  lemma SubsetSize(a: set<nat>, b: set<nat>)
    requires a <= b
    ensures |a| <= |b| && (|a| == |b| <==> a == b)
  {
    assert b == a + (b - a);
  }

  /** At most n distinct numbers lie in a span of n, and all n of them do exactly when there is no gap. */
  lemma Pigeonhole(es: seq<Entry>, n: nat)
    requires DistinctNumbers(es)
    ensures |Keep(es, MinSeq(es) + n)| >= |es| - n
    ensures |Keep(es, MinSeq(es) + n)| == |es| - n <==> NoGap(es, MinSeq(es), n)
  {
    hide Keep, MinSeq, Dropped, Span;
    var lo := MinSeq(es);
    DroppedCount(es, lo + n);
    MinSeqLeast(es);
    var d, s := Dropped(es, lo + n), Span(lo, n);
    assert d <= s;
    SubsetSize(d, s);
    if NoGap(es, lo, n) {
      forall x | x in s
        ensures x in d
      {
        assert Has(es, x);
      }
      assert d == s;
    }
    if d == s {
      forall x | lo <= x < lo + n
        ensures Has(es, x)
      {
        assert x in d;
      }
    }
  }

  /** The n numbers from lo on are all there. */
  ghost predicate NoGap(es: seq<Entry>, lo: nat, n: nat) {
    forall x :: lo <= x < lo + n ==> Has(es, x)
  }

  /** The count is exact: as many as there are, up to max. */
  lemma PickCount(es: seq<Entry>, max: nat)
    requires DistinctNumbers(es)
    ensures |Pick(es, max)| == Min(|es|, max)
  {
    hide Keep, MinSeq;
    Pigeonhole(es, Skip(|es|, max));
  }

  // ------------------------------------------------------------- most recent

  /** Every entry that was not picked is older than every one that was. */
  ghost predicate Recent(es: seq<Entry>, picked: seq<Entry>) {
    forall e, p :: e in es && e !in picked && p in picked ==> e.seqno < p.seqno
  }

  lemma {:induction false} KeepMember(es: seq<Entry>, lo: nat, e: Entry)
    ensures e in Keep(es, lo) <==> e in es && e.seqno >= lo
  {
    if es != [] {
      var rest := es[..|es| - 1];
      KeepMember(rest, lo, e);
      assert es == rest + [es[|es| - 1]];
    }
  }

  /** What is picked was retained. */
  lemma PickMember(es: seq<Entry>, max: nat, e: Entry)
    requires e in Pick(es, max)
    ensures e in es && e.seqno >= Bound(es, max)
  {
    hide Keep, MinSeq;
    KeepMember(es, Bound(es, max), e);
  }

  /** When the numbers to be skipped have no gap, the picked entries are the most recent. */
  lemma NoGapRecent(es: seq<Entry>, max: nat)
    requires DistinctNumbers(es) && NoGap(es, MinSeq(es), Skip(|es|, max))
    ensures Recent(es, Pick(es, max))
  {
    hide Keep, MinSeq, NoGap;
    Pigeonhole(es, Skip(|es|, max));
    forall e, p | e in es && e !in Pick(es, max) && p in Pick(es, max)
      ensures e.seqno < p.seqno
    {
      PickMember(es, max, p);
      KeepMember(es, Bound(es, max), e);
    }
  }

  /** In particular they are when all the retained numbers are consecutive. */
  lemma ConsecutiveRecent(es: seq<Entry>, max: nat)
    requires DistinctNumbers(es) && NoGap(es, MinSeq(es), |es|)
    ensures Recent(es, Pick(es, max))
  {
    hide Keep, MinSeq, Recent, Pick, DistinctNumbers;
    NoGapRecent(es, max);
  }

  /** The same entries visited in another order. */
  ghost predicate Rearranged(es: seq<Entry>, fs: seq<Entry>) {
    && DistinctNumbers(fs) && |fs| == |es|
    && (forall i :: 0 <= i < |fs| ==> fs[i] in es)
    && (forall i :: 0 <= i < |es| ==> es[i] in fs)
  }

  lemma RearrangedShape(es: seq<Entry>, fs: seq<Entry>)
    requires Rearranged(es, fs)
    ensures DistinctNumbers(fs) && |fs| == |es|
  {
  }

  lemma {:induction false} KeepDistinct(es: seq<Entry>, lo: nat)
    requires DistinctNumbers(es)
    ensures DistinctNumbers(Keep(es, lo))
  {
    if es != [] {
      var rest, e := es[..|es| - 1], es[|es| - 1];
      KeepDistinct(rest, lo);
      forall i | 0 <= i < |Keep(rest, lo)|
        ensures Keep(rest, lo)[i].seqno != e.seqno
      {
        KeepMember(rest, lo, Keep(rest, lo)[i]);
      }
    }
  }

  lemma PickDistinct(es: seq<Entry>, max: nat)
    requires DistinctNumbers(es)
    ensures DistinctNumbers(Pick(es, max))
  {
    hide Keep, MinSeq;
    KeepDistinct(es, Bound(es, max));
  }

  // -------------------------------------------------- exactly when they are

  lemma {:induction false} ScanPrefix(rings: seq<Ring>, c: nat, n: nat) returns (rest: seq<Entry>)
    requires Shaped(rings) && c <= n <= NCPU
    ensures Scan(rings, n) == Scan(rings, c) + rest
  {
    hide Window;
    if c == n {
      rest := [];
    } else {
      rest := ScanPrefix(rings, c, n - 1);
      rest := rest + Window(rings[n - 1]);
    }
  }

  lemma {:induction false} ScanMember(rings: seq<Ring>, n: nat, e: Entry)
    requires Shaped(rings) && n <= NCPU
    ensures e in Scan(rings, n) <==> exists d :: 0 <= d < n && e in Window(rings[d])
  {
    hide Window;
    if n > 0 { ScanMember(rings, n - 1, e); }
  }

  lemma {:induction false} KeepAscending(es: seq<Entry>, lo: nat)
    requires Ascending(es)
    ensures Ascending(Keep(es, lo))
  {
    if es != [] {
      var rest, e := es[..|es| - 1], es[|es| - 1];
      KeepAscending(rest, lo);
      forall i | 0 <= i < |Keep(rest, lo)|
        ensures Keep(rest, lo)[i].seqno < e.seqno
      {
        KeepMember(rest, lo, Keep(rest, lo)[i]);
      }
    }
  }

  /** Of the entries at or above lo, those in es are older than those in fs. */
  ghost predicate OlderAbove(es: seq<Entry>, fs: seq<Entry>, lo: nat) {
    forall i, j :: 0 <= i < |es| && 0 <= j < |fs| && es[i].seqno >= lo && fs[j].seqno >= lo ==>
        es[i].seqno < fs[j].seqno
  }

  /** The CPUs below c hold exactly max entries at or above the bound, all of them newer than those of the other
      CPUs. */
  ghost predicate CutAt(rings: seq<Ring>, max: nat, c: nat)
    requires Shaped(rings) && c <= NCPU
  {
    var lo := Bound(Scan(rings, NCPU), max);
    && |Keep(Scan(rings, c), lo)| == max
    && forall d, f :: 0 <= d < c <= f < NCPU ==> OlderAbove(Window(rings[f]), Window(rings[d]), lo)
  }

  /** Such a cut is what a snapshot takes. */
  lemma CutPicked(rings: seq<Ring>, max: nat, c: nat)
    requires Shaped(rings) && c <= NCPU && |Keep(Scan(rings, c), Bound(Scan(rings, NCPU), max))| == max
    ensures Pick(Scan(rings, NCPU), max) == Keep(Scan(rings, c), Bound(Scan(rings, NCPU), max))
  {
    hide Keep, MinSeq, Scan, Window;
    var rest := ScanPrefix(rings, c, NCPU);
    KeepConcat(Scan(rings, c), rest, Bound(Scan(rings, NCPU), max));
  }

  lemma CutRecent(rings: seq<Ring>, next: nat, max: nat, c: nat)
    requires KlogInv(rings, next) && c <= NCPU && CutAt(rings, max, c)
    ensures Recent(Scan(rings, NCPU), Pick(Scan(rings, NCPU), max))
  {
    hide Keep, MinSeq, Scan, Window, Bound, Pick, KlogInv;
    assert Shaped(rings) by { InvShape(rings, next); }
    var es := Scan(rings, NCPU);
    var lo := Bound(es, max);
    CutPicked(rings, max, c);
    forall e, p | e in es && e !in Pick(es, max) && p in Pick(es, max)
      ensures e.seqno < p.seqno
    {
      KeepMember(Scan(rings, c), lo, p);
      KeepMember(Scan(rings, c), lo, e);
      ScanMember(rings, c, p);
      ScanMember(rings, c, e);
      ScanMember(rings, NCPU, e);
      var d, f :| 0 <= d < c && p in Window(rings[d]) && 0 <= f < NCPU && e in Window(rings[f]);
      if e.seqno >= lo { assert OlderAbove(Window(rings[f]), Window(rings[d]), lo); }
    }
  }

  /** The first CPU with which there are max entries at or above lo. */
  lemma {:induction false} FindCut(rings: seq<Ring>, lo: nat, max: nat, n: nat) returns (c: nat)
    requires Shaped(rings) && n <= NCPU && |Keep(Scan(rings, n), lo)| >= max > 0
    ensures c < n && |Keep(Scan(rings, c), lo)| < max <= |Keep(Scan(rings, c + 1), lo)|
  {
    hide Window;
    if |Keep(Scan(rings, n - 1), lo)| < max {
      c := n - 1;
    } else {
      c := FindCut(rings, lo, max, n - 1);
    }
  }

  /** If that CPU has more than are wanted, its newest are lost. */
  lemma StraddleNotRecent(rings: seq<Ring>, next: nat, max: nat, c: nat)
    requires KlogInv(rings, next) && c < NCPU
    requires var lo := Bound(Scan(rings, NCPU), max);
             |Keep(Scan(rings, c), lo)| < max < |Keep(Scan(rings, c + 1), lo)|
    ensures !Recent(Scan(rings, NCPU), Pick(Scan(rings, NCPU), max))
  {
    hide Keep, MinSeq, Window, Bound, KlogInv;
    assert Shaped(rings) by { InvShape(rings, next); }
    var es := Scan(rings, NCPU);
    var lo := Bound(es, max);
    var rest := ScanPrefix(rings, c + 1, NCPU);
    var a, w := Keep(Scan(rings, c), lo), Keep(Window(rings[c]), lo);
    KeepConcat(Scan(rings, c + 1), rest, lo);
    KeepConcat(Scan(rings, c), Window(rings[c]), lo);
    assert Keep(es, lo) == a + w + Keep(rest, lo);
    var m := max - |a|;
    var all := Keep(es, lo);
    assert all[max - 1] == w[m - 1] && all[max] == w[m];
    InvWindow(rings, next, c);
    KeepAscending(Window(rings[c]), lo);
    ScanDistinct(rings, next, NCPU);
    KeepDistinct(es, lo);
    assert Pick(es, max) == all[..max];
    assert all[max - 1] in all[..max] && all[max] !in all[..max];
    KeepMember(es, lo, all[max]);
  }

  lemma CleanCut(rings: seq<Ring>, next: nat, max: nat, c: nat)
    requires KlogInv(rings, next) && c <= NCPU && |Keep(Scan(rings, c), Bound(Scan(rings, NCPU), max))| == max
    requires Recent(Scan(rings, NCPU), Pick(Scan(rings, NCPU), max))
    ensures CutAt(rings, max, c)
  {
    hide Keep, MinSeq, Scan, Window, Bound, Pick, KlogInv;
    assert Shaped(rings) by { InvShape(rings, next); }
    var es := Scan(rings, NCPU);
    var lo := Bound(es, max);
    CutPicked(rings, max, c);
    ScanDistinct(rings, next, c);
    forall d, f, i, j | 0 <= d < c <= f < NCPU && 0 <= i < |Window(rings[f])| && 0 <= j < |Window(rings[d])|
        && Window(rings[f])[i].seqno >= lo && Window(rings[d])[j].seqno >= lo
      ensures Window(rings[f])[i].seqno < Window(rings[d])[j].seqno
    {
      var e, p := Window(rings[f])[i], Window(rings[d])[j];
      ScanMember(rings, NCPU, e);
      ScanMember(rings, c, p);
      KeepMember(Scan(rings, c), lo, p);
      KeepMember(Scan(rings, c), lo, e);
      assert Apart(Scan(rings, c), Window(rings[f]));
      assert e !in Scan(rings, c);
    }
  }

  /** A snapshot of more entries than it may return gives the most recent exactly when its limit is reached at the
      end of a CPU's ring, and the later CPUs hold nothing newer than what it has by then. */
  lemma RecentIff(rings: seq<Ring>, next: nat, max: nat)
    requires KlogInv(rings, next) && 0 < max < |Scan(rings, NCPU)|
    ensures Recent(Scan(rings, NCPU), Pick(Scan(rings, NCPU), max)) <==>
            exists c: nat :: c <= NCPU && CutAt(rings, max, c)
  {
    hide Keep, MinSeq, Scan, Window, Pick, KlogInv, Recent, CutAt, NoGap;
    assert Shaped(rings) by { InvShape(rings, next); }
    var es := Scan(rings, NCPU);
    if c: nat :| c <= NCPU && CutAt(rings, max, c) {
      CutRecent(rings, next, max, c);
    } else if Recent(es, Pick(es, max)) {
      ScanDistinct(rings, next, NCPU);
      Pigeonhole(es, Skip(|es|, max));
      var c := FindCut(rings, Bound(es, max), max, NCPU);
      if |Keep(Scan(rings, c + 1), Bound(es, max))| > max {
        StraddleNotRecent(rings, next, max, c);
      } else {
        CleanCut(rings, next, max, c + 1);
      }
    }
  }

  /** And of no more than that, it gives all. */
  lemma AllRecent(es: seq<Entry>, max: nat)
    requires DistinctNumbers(es) && |es| <= max
    ensures Pick(es, max) == es
  {
    hide Keep, MinSeq;
    MinSeqLeast(es);
    KeepAll(es, MinSeq(es));
  }

  lemma {:induction false} KeepAll(es: seq<Entry>, lo: nat)
    requires forall i :: 0 <= i < |es| ==> lo <= es[i].seqno
    ensures Keep(es, lo) == es
  {
    if es != [] { KeepAll(es[..|es| - 1], lo); }
  }

  lemma InvShape(rings: seq<Ring>, next: nat)
    requires KlogInv(rings, next)
    ensures Shaped(rings)
  {
  }

  lemma InvWindow(rings: seq<Ring>, next: nat, c: nat)
    requires KlogInv(rings, next) && c < NCPU
    ensures Ascending(Window(rings[c]))
  {
  }

  // ------------------------------------------------------- before any ring wraps

  /** The entries written to the first n rings since they were cleared. */
  function Heads(rings: seq<Ring>, n: nat): nat
    requires n <= |rings|
  {
    if n == 0 then 0 else Heads(rings, n - 1) + rings[n - 1].head
  }

  ghost predicate From(es: seq<Entry>, since: nat) {
    forall i :: 0 <= i < |es| ==> since <= es[i].seqno
  }

  /** Every number from `since` to `next` has been given to an entry of some ring. */
  ghost predicate Logged(rings: seq<Ring>, since: nat, next: nat)
    requires Shaped(rings)
  {
    && since <= next && Heads(rings, NCPU) == next - since
    && forall c :: 0 <= c < NCPU ==> From(Window(rings[c]), since)
  }

  lemma {:induction false} HeadsUpdate(rings: seq<Ring>, n: nat, c: nat, r: Ring)
    requires n <= |rings| && c < |rings|
    ensures Heads(rings[c := r], n) == Heads(rings, n) + if c < n then r.head - rings[c].head else 0
  {
    if n > 0 { HeadsUpdate(rings, n - 1, c, r); }
  }

  lemma LoggedAppend(rings: seq<Ring>, since: nat, next: nat, c: nat, e: Entry)
    requires Shaped(rings) && Logged(rings, since, next) && c < NCPU && e.seqno == next
    ensures Shaped(rings[c := Append(rings[c], e)]) && Logged(rings[c := Append(rings[c], e)], since, next + 1)
  {
    hide Window, Slot;
    AppendWindow(rings[c], e);
    HeadsUpdate(rings, NCPU, c, Append(rings[c], e));
    assert From(Window(rings[c]), since);
    assert From(Last(Window(rings[c]) + [e]), since);
  }

  lemma {:induction false} UnwrappedCount(rings: seq<Ring>, n: nat)
    requires Shaped(rings) && n <= NCPU && forall c :: 0 <= c < n ==> rings[c].head <= RING
    ensures |Scan(rings, n)| == Heads(rings, n)
  {
    if n > 0 { UnwrappedCount(rings, n - 1); }
  }

  lemma {:induction false} ScanFrom(rings: seq<Ring>, since: nat, next: nat, n: nat)
    requires Shaped(rings) && Logged(rings, since, next) && n <= NCPU
    ensures From(Scan(rings, n), since)
  {
    hide Window;
    if n > 0 {
      ScanFrom(rings, since, next, n - 1);
      assert From(Window(rings[n - 1]), since);
    }
  }

  /** As many distinct numbers as there are from `since` to `next` are all of them. */
  lemma AllThere(es: seq<Entry>, since: nat, next: nat)
    requires DistinctNumbers(es) && From(es, since) && Below(es, next) && |es| == next - since && next <= WORD
             && es != []
    ensures MinSeq(es) == since && NoGap(es, since, |es|)
  {
    hide Keep, MinSeq, Dropped, Span;
    DroppedCount(es, next);
    if |Keep(es, next)| > 0 { KeepMember(es, next, Keep(es, next)[0]); }
    var d, s := Dropped(es, next), Span(since, |es|);
    assert d <= s;
    SubsetSize(d, s);
    forall x | since <= x < since + |es|
      ensures Has(es, x)
    {
      assert x in d;
    }
    MinSeqLeast(es);
    assert Has(es, since);
  }

  /** Until some ring has wrapped, a snapshot gives the most recent entries. */
  lemma UnwrappedRecent(rings: seq<Ring>, since: nat, next: nat, max: nat)
    requires KlogInv(rings, next) && Logged(rings, since, next) && next <= WORD
    requires forall c :: 0 <= c < NCPU ==> rings[c].head <= RING
    ensures Recent(Scan(rings, NCPU), Pick(Scan(rings, NCPU), max))
  {
    hide Keep, MinSeq, Scan, Window, Pick, KlogInv, NoGap, DistinctNumbers, Below, From;
    assert Shaped(rings) by { InvShape(rings, next); }
    var es := Scan(rings, NCPU);
    ScanDistinct(rings, next, NCPU);
    ScanFrom(rings, since, next, NCPU);
    UnwrappedCount(rings, NCPU);
    if es != [] {
      AllThere(es, since, next);
      ConsecutiveRecent(es, max);
    }
  }
}

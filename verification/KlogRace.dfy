/** A kernel log that is written to while a snapshot is taken of it: what each visit of a ring sees. */
module KlogRace {
  import opened Basics
  import opened KlogSpec

  /** A call of klog_printf on some CPU. */
  datatype Call = Call(cpu: int, pid: nat, level: nat, msg: string)

  datatype Logs = Logs(rings: seq<Ring>, next: nat)

  function LogOne(l: Logs, a: Call): (r: Logs)
    requires Shaped(l.rings)
    ensures Shaped(r.rings) && l.next <= r.next <= l.next + 1
  {
    if 0 <= a.cpu < NCPU then
      Logs(l.rings[a.cpu := Append(l.rings[a.cpu], Entry(l.next, a.cpu, a.pid, a.level, a.msg))], l.next + 1)
    else l
  }

  function LogAll(l: Logs, calls: seq<Call>): (r: Logs)
    requires Shaped(l.rings)
    ensures Shaped(r.rings) && l.next <= r.next <= l.next + |calls|
  {
    if calls == [] then l else LogOne(LogAll(l, calls[..|calls| - 1]), calls[|calls| - 1])
  }

  lemma {:induction false} LogMore(l: Logs, a: seq<Call>, b: seq<Call>)
    requires Shaped(l.rings)
    ensures LogAll(l, a + b) == LogAll(LogAll(l, a), b)
  {
    if b == [] {
      assert a + b == a;
    } else {
      assert (a + b)[..|a + b| - 1] == a + b[..|b| - 1];
      LogMore(l, a, b[..|b| - 1]);
    }
  }

  // ------------------------------------------------------------------ visits

  /** The calls made before the n-th visit; race[v] are those between visits v - 1 and v. */
  function Calls(race: seq<seq<Call>>, n: nat): seq<Call>
    requires n <= |race|
  {
    if n == 0 then [] else Calls(race, n - 1) + race[n - 1]
  }

  lemma {:induction false} CallsFrom(race: seq<seq<Call>>, a: nat, b: nat) returns (more: seq<Call>)
    requires a <= b <= |race|
    ensures Calls(race, b) == Calls(race, a) + more
  {
    if a == b {
      more := [];
    } else {
      more := CallsFrom(race, a, b - 1);
      more := more + race[b - 1];
    }
  }

  /** Ring c as visit v finds it. */
  function At(l: Logs, race: seq<seq<Call>>, v: nat, c: nat): (r: Ring)
    requires Shaped(l.rings) && v < |race| && c < NCPU
    ensures |r.entries| == RING
  {
    LogAll(l, Calls(race, v + 1)).rings[c]
  }

  /** What a pass sees that visits the rings in turn, ring 0 at visit `first`. */
  function Views(l: Logs, race: seq<seq<Call>>, first: nat): (r: seq<Ring>)
    requires Shaped(l.rings) && first + NCPU <= |race|
    ensures |r| == NCPU && forall c :: 0 <= c < NCPU ==> r[c] == At(l, race, first + c, c)
    ensures Shaped(r)
  {
    var r := seq(NCPU, c requires 0 <= c < NCPU => At(l, race, first + c, c));
    assert forall c :: 0 <= c < NCPU ==> r[c] == At(l, race, first + c, c);
    r
  }

  /** The rings already seen, as they were then, and the others as they are now. */
  function Mixed(seen: seq<Ring>, l: Logs): seq<Ring>
    requires |seen| <= |l.rings|
  {
    seen + l.rings[|seen|..]
  }

  lemma LogOneInv(seen: seq<Ring>, l: Logs, a: Call)
    requires Shaped(l.rings) && |seen| <= NCPU && KlogInv(Mixed(seen, l), l.next)
    ensures KlogInv(Mixed(seen, LogOne(l, a)), LogOne(l, a).next)
  {
    hide Append, KlogInv;
    var l' := LogOne(l, a);
    if |seen| <= a.cpu < NCPU {
      var e := Entry(l.next, a.cpu, a.pid, a.level, a.msg);
      AppendInv(Mixed(seen, l), l.next, a.cpu, e);
      assert Mixed(seen, l') == Mixed(seen, l)[a.cpu := Append(Mixed(seen, l)[a.cpu], e)];
    } else {
      assert Mixed(seen, l') == Mixed(seen, l);
      LaterInv(Mixed(seen, l), l.next, l'.next);
    }
  }

  lemma LaterInv(rings: seq<Ring>, next: nat, next': nat)
    requires KlogInv(rings, next) && next <= next'
    ensures KlogInv(rings, next')
  {
    hide Window;
    forall c | 0 <= c < NCPU
      ensures Below(Window(rings[c]), next')
    {
      assert Below(Window(rings[c]), next);
    }
  }

  lemma {:induction false} MixedAll(seen: seq<Ring>, l: Logs, calls: seq<Call>)
    requires Shaped(l.rings) && |seen| <= NCPU && KlogInv(Mixed(seen, l), l.next)
    ensures KlogInv(Mixed(seen, LogAll(l, calls)), LogAll(l, calls).next)
  {
    hide KlogInv, LogOne, Mixed;
    if calls != [] {
      MixedAll(seen, l, calls[..|calls| - 1]);
      LogOneInv(seen, LogAll(l, calls[..|calls| - 1]), calls[|calls| - 1]);
    }
  }

  lemma LogAllInv(l: Logs, calls: seq<Call>)
    requires KlogInv(l.rings, l.next)
    ensures KlogInv(LogAll(l, calls).rings, LogAll(l, calls).next)
  {
    hide KlogInv, LogAll;
    InvShape(l.rings, l.next);
    assert Mixed([], l) == l.rings && Mixed([], LogAll(l, calls)) == LogAll(l, calls).rings;
    MixedAll([], l, calls);
  }

  lemma {:induction false} VisitedInv(l: Logs, race: seq<seq<Call>>, first: nat, n: nat)
    requires KlogInv(l.rings, l.next) && first + NCPU <= |race| && n <= NCPU
    ensures Shaped(l.rings)
    ensures var now := LogAll(l, Calls(race, first + n));
            KlogInv(Mixed(Views(l, race, first)[..n], now), now.next)
  {
    hide KlogInv, LogAll;
    InvShape(l.rings, l.next);
    var views := Views(l, race, first);
    if n == 0 {
      LogAllInv(l, Calls(race, first));
      var now := LogAll(l, Calls(race, first));
      assert Mixed(views[..0], now) == now.rings;
    } else {
      VisitedInv(l, race, first, n - 1);
      var past := LogAll(l, Calls(race, first + n - 1));
      MixedAll(views[..n - 1], past, race[first + n - 1]);
      LogMore(l, Calls(race, first + n - 1), race[first + n - 1]);
      var now := LogAll(l, Calls(race, first + n));
      assert first + (n - 1) + 1 == first + n;
      assert views[n - 1] == At(l, race, first + (n - 1), n - 1) == now.rings[n - 1];
      assert Mixed(views[..n], now) == Mixed(views[..n - 1], now);
    }
  }

  /** What a pass sees is never the state of the log at one time, but it could have been: every ring in order, and
      all numbers distinct. */
  lemma ViewsInv(l: Logs, race: seq<seq<Call>>, first: nat)
    requires KlogInv(l.rings, l.next) && first + NCPU <= |race|
    ensures Shaped(l.rings)
    ensures KlogInv(Views(l, race, first), LogAll(l, Calls(race, first + NCPU)).next)
  {
    hide KlogInv, LogAll;
    VisitedInv(l, race, first, NCPU);
    var now := LogAll(l, Calls(race, first + NCPU));
    assert Mixed(Views(l, race, first)[..NCPU], now) == Views(l, race, first);
  }

  // --------------------------------------------------- nothing gets fewer

  /** At or above any number, r' has no fewer entries. */
  ghost predicate AsMany(r: Ring, r': Ring, lo: nat)
    requires |r.entries| == RING && |r'.entries| == RING
  {
    |Keep(Window(r), lo)| <= |Keep(Window(r'), lo)|
  }

  lemma LastKeep(w: seq<Entry>, e: Entry, lo: nat)
    requires |w| <= RING && Below(w, e.seqno)
    ensures |Keep(w, lo)| <= |Keep(Last(w + [e]), lo)|
  {
    hide Keep;
    KeepConcat(w, [e], lo);
    if |w| == RING {
      assert w + [e] == [w[0]] + (w[1..] + [e]) && w == [w[0]] + w[1..];
      KeepConcat([w[0]], w[1..], lo);
      KeepConcat(w[1..], [e], lo);
      assert Last(w + [e]) == w[1..] + [e];
      KeepSingle(e, lo);
      KeepSingle(w[0], lo);
    }
  }

  lemma KeepSingle(e: Entry, lo: nat)
    ensures Keep([e], lo) == if e.seqno >= lo then [e] else []
  {
    assert [e][..0] == [];
  }

  lemma AppendAsMany(rings: seq<Ring>, next: nat, c: nat, e: Entry, lo: nat)
    requires KlogInv(rings, next) && c < NCPU && e.seqno == next
    ensures |Append(rings[c], e).entries| == RING && AsMany(rings[c], Append(rings[c], e), lo)
  {
    hide Window, Append, Keep;
    AppendShape(rings[c], e);
    AppendWindow(rings[c], e);
    assert Below(Window(rings[c]), next);
    LastKeep(Window(rings[c]), e, lo);
  }

  lemma {:induction false} LogAsMany(l: Logs, calls: seq<Call>, c: nat, lo: nat)
    requires KlogInv(l.rings, l.next) && c < NCPU
    ensures AsMany(l.rings[c], LogAll(l, calls).rings[c], lo)
  {
    hide KlogInv, Keep, Window, Append;
    InvShape(l.rings, l.next);
    if calls != [] {
      var m, a := LogAll(l, calls[..|calls| - 1]), calls[|calls| - 1];
      LogAsMany(l, calls[..|calls| - 1], c, lo);
      LogAllInv(l, calls[..|calls| - 1]);
      if a.cpu == c { AppendAsMany(m.rings, m.next, c, Entry(m.next, c, a.pid, a.level, a.msg), lo); }
    }
  }

  lemma ViewsAsMany(l: Logs, race: seq<seq<Call>>, c: nat, lo: nat)
    requires KlogInv(l.rings, l.next) && 2 * NCPU <= |race| && c < NCPU
    ensures Shaped(l.rings) && AsMany(Views(l, race, 0)[c], Views(l, race, NCPU)[c], lo)
  {
    hide KlogInv, AsMany, LogAll;
    InvShape(l.rings, l.next);
    var more := CallsFrom(race, c + 1, NCPU + c + 1);
    LogMore(l, Calls(race, c + 1), more);
    LogAllInv(l, Calls(race, c + 1));
    LogAsMany(LogAll(l, Calls(race, c + 1)), more, c, lo);
  }

  lemma {:induction false} ScanAsMany(rings: seq<Ring>, rings': seq<Ring>, lo: nat, n: nat)
    requires Shaped(rings) && Shaped(rings') && n <= NCPU
    requires forall c: nat :: c < NCPU ==> AsMany(rings[c], rings'[c], lo)
    ensures |Keep(Scan(rings, n), lo)| <= |Keep(Scan(rings', n), lo)|
  {
    hide Keep, Window;
    if n > 0 {
      ScanAsMany(rings, rings', lo, n - 1);
      KeepConcat(Scan(rings, n - 1), Window(rings[n - 1]), lo);
      KeepConcat(Scan(rings', n - 1), Window(rings'[n - 1]), lo);
      assert AsMany(rings[n - 1], rings'[n - 1], lo);
    }
  }

  // ------------------------------------------------------- what is collected

  /** What the second pass collects, by the bound that the first has set. */
  function Caught(es: seq<Entry>, fs: seq<Entry>, max: nat): seq<Entry> {
    Prefix(Keep(fs, Bound(es, max)), max)
  }

  /** Entries logged meanwhile can replace others, but a snapshot gives no fewer than the first pass promised, and all
      with different numbers. */
  lemma CaughtEnough(l: Logs, race: seq<seq<Call>>, max: nat)
    requires KlogInv(l.rings, l.next) && |race| == 2 * NCPU
    ensures Shaped(l.rings)
    ensures var es, fs := Scan(Views(l, race, 0), NCPU), Scan(Views(l, race, NCPU), NCPU);
            DistinctNumbers(Caught(es, fs, max)) && Min(|es|, max) <= |Caught(es, fs, max)| <= max
  {
    hide KlogInv, Keep, MinSeq, LogAll, Scan, AsMany, DistinctNumbers, Views;
    InvShape(l.rings, l.next);
    var firsts, seconds := Views(l, race, 0), Views(l, race, NCPU);
    ViewsInv(l, race, 0);
    ViewsInv(l, race, NCPU);
    var es, fs := Scan(firsts, NCPU), Scan(seconds, NCPU);
    var lo := Bound(es, max);
    forall c: nat | c < NCPU
      ensures AsMany(firsts[c], seconds[c], lo)
    {
      ViewsAsMany(l, race, c, lo);
    }
    ScanAsMany(firsts, seconds, lo, NCPU);
    ScanDistinct(firsts, LogAll(l, Calls(race, NCPU)).next, NCPU);
    ScanDistinct(seconds, LogAll(l, Calls(race, 2 * NCPU)).next, NCPU);
    Pigeonhole(es, Skip(|es|, max));
    KeepDistinct(fs, lo);
    PrefixDistinct(Keep(fs, lo), max);
  }

  lemma PrefixDistinct(es: seq<Entry>, max: nat)
    requires DistinctNumbers(es)
    ensures DistinctNumbers(Prefix(es, max))
  {
  }

  /** After a first pass that found nothing, nothing is collected, whatever has been logged meanwhile. */
  lemma NothingCaught(es: seq<Entry>, fs: seq<Entry>, max: nat)
    requires es == [] && Below(fs, TOP)
    ensures Caught(es, fs, max) == []
  {
    hide Keep;
    var k := Keep(fs, Bound(es, max));
    if k != [] { KeepMember(fs, Bound(es, max), k[0]); }
  }
}

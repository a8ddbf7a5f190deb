/** The pattern matcher of grep, and what its patterns mean. */
module Grep {

  datatype Atom = Any | Lit(c: char)

  datatype Item = One(atom: Atom) | Star(atom: Atom)

  /** A pattern after its "^", if any: items, and whether the match must reach the end of the text. */
  datatype Pattern = Pattern(items: seq<Item>, atEnd: bool)

  // ----------------------------------------------------------------- meaning

  function AtomOf(c: char): Atom {
    if c == '.' then Any else Lit(c)
  }

  /** A star binds to the character before it, whatever that is; "$" is special only as the last character. */
  function Read(re: string): Pattern {
    if re == "" then Pattern([], false)
    else if |re| > 1 && re[1] == '*' then
      var rest := Read(re[2..]);
      Pattern([Star(AtomOf(re[0]))] + rest.items, rest.atEnd)
    else if re == "$" then Pattern([], true)
    else
      var rest := Read(re[1..]);
      Pattern([One(AtomOf(re[0]))] + rest.items, rest.atEnd)
  }

  predicate Admits(a: Atom, c: char) {
    a == Any || a == Lit(c)
  }

  ghost predicate AllAdmitted(a: Atom, s: string) {
    forall i :: 0 <= i < |s| ==> Admits(a, s[i])
  }

  /** The strings an item stands for. */
  ghost predicate Stands(item: Item, s: string) {
    match item
    case One(a) => |s| == 1 && Admits(a, s[0])
    case Star(a) => AllAdmitted(a, s)
  }

  function Flat(pieces: seq<string>): string {
    if pieces == [] then "" else pieces[0] + Flat(pieces[1..])
  }

  /** Each item in turn stands for a piece. */
  ghost predicate Splits(items: seq<Item>, pieces: seq<string>) {
    |pieces| == |items| && forall i :: 0 <= i < |items| ==> Stands(items[i], pieces[i])
  }

  ghost predicate Fits(p: Pattern, t: string, pieces: seq<string>) {
    Splits(p.items, pieces) && Flat(pieces) <= t && (p.atEnd ==> Flat(pieces) == t)
  }

  /** The pattern matches at the front of the text: some cut into pieces fits. */
  ghost predicate MatchesHere(p: Pattern, t: string) {
    exists pieces :: Fits(p, t, pieces)
  }

  /** A leading "^" ties the match to the front of the text; otherwise it may start anywhere, even at the end. */
  ghost predicate Matches(re: string, t: string) {
    if re != "" && re[0] == '^' then MatchesHere(Read(re[1..]), t)
    else exists k :: 0 <= k <= |t| && MatchesHere(Read(re), t[k..])
  }

  // ------------------------------------------------------------- first pieces

  lemma NothingLeft(atEnd: bool, t: string)
    ensures MatchesHere(Pattern([], atEnd), t) <==> (atEnd ==> t == "")
  {
    var p := Pattern([], atEnd);
    if atEnd ==> t == "" { assert Fits(p, t, []); }
  }

  lemma Prepend(item: Item, p: Pattern, s: string, t: string, pieces: seq<string>)
    requires Stands(item, s) && Fits(p, t, pieces)
    ensures Fits(Pattern([item] + p.items, p.atEnd), s + t, [s] + pieces)
  {
    assert ([s] + pieces)[1..] == pieces;
  }

  lemma Peel(item: Item, p: Pattern, t: string, pieces: seq<string>)
    requires Fits(Pattern([item] + p.items, p.atEnd), t, pieces)
    ensures pieces != [] && Stands(item, pieces[0]) && pieces[0] <= t
    ensures Fits(p, t[|pieces[0]|..], pieces[1..])
  {
    var items := [item] + p.items;
    assert items[0] == item && Stands(items[0], pieces[0]);
    forall i | 0 <= i < |p.items|
      ensures Stands(p.items[i], pieces[1..][i])
    {
      assert items[i + 1] == p.items[i] && Stands(items[i + 1], pieces[i + 1]);
    }
    var s, rest := pieces[0], Flat(pieces[1..]);
    assert s + rest <= t;
    assert t[..|s + rest|] == s + rest;
    assert t[|s|..][..|rest|] == rest;
  }

  /** The first item takes some front part of the text, and the rest matches after it. */
  lemma FirstItem(item: Item, p: Pattern, t: string)
    ensures MatchesHere(Pattern([item] + p.items, p.atEnd), t) <==>
            exists k :: 0 <= k <= |t| && Stands(item, t[..k]) && MatchesHere(p, t[k..])
  {
    hide Stands, Fits;
    var q := Pattern([item] + p.items, p.atEnd);
    if MatchesHere(q, t) {
      var pieces :| Fits(q, t, pieces);
      Peel(item, p, t, pieces);
      var k := |pieces[0]|;
      assert t[..k] == pieces[0] && MatchesHere(p, t[k..]);
    }
    if k :| 0 <= k <= |t| && Stands(item, t[..k]) && MatchesHere(p, t[k..]) {
      var pieces :| Fits(p, t[k..], pieces);
      Prepend(item, p, t[..k], t[k..], pieces);
      assert t[..k] + t[k..] == t;
    }
  }

  lemma FirstOne(a: Atom, p: Pattern, t: string)
    ensures MatchesHere(Pattern([One(a)] + p.items, p.atEnd), t) <==>
            t != "" && Admits(a, t[0]) && MatchesHere(p, t[1..])
  {
    hide MatchesHere, Admits;
    FirstItem(One(a), p, t);
    if t != "" && Admits(a, t[0]) && MatchesHere(p, t[1..]) { assert Stands(One(a), t[..1]); }
  }

  // ---------------------------------------------------------------- matching

  /** Position k is one where "c*" followed by the rest matches. */
  ghost predicate StarStop(c: char, rest: Pattern, t: string, k: nat) {
    k <= |t| && AllAdmitted(AtomOf(c), t[..k]) && MatchesHere(rest, t[k..])
  }

  method Match(re: string, text: string) returns (r: bool)
    ensures r <==> Matches(re, text)
  {
    hide MatchesHere;
    if re != "" && re[0] == '^' {
      r := MatchHere(re[1..], text);
      return;
    }
    var k := 0;
    while true
      invariant 0 <= k <= |text| && forall j :: 0 <= j < k ==> !MatchesHere(Read(re), text[j..])
      decreases |text| - k
    {
      var here := MatchHere(re, text[k..]);
      if here { return true; }
      if k == |text| { return false; }
      k := k + 1;
    }
    assert false;
  }

  method MatchHere(re: string, text: string) returns (r: bool)
    ensures r <==> MatchesHere(Read(re), text)
    decreases |re|
  {
    hide MatchesHere, StarStop;
    if re == "" {
      NothingLeft(false, text);
      return true;
    }
    if |re| > 1 && re[1] == '*' {
      StarReads(re, text);
      r := MatchStar(re[0], re[2..], text);
      return;
    }
    if re == "$" {
      NothingLeft(true, text);
      return text == "";
    }
    FirstOne(AtomOf(re[0]), Read(re[1..]), text);
    if text != "" && (re[0] == '.' || re[0] == text[0]) {
      r := MatchHere(re[1..], text[1..]);
      return;
    }
    return false;
  }

  lemma StarFirst(c: char, p: Pattern, t: string)
    ensures MatchesHere(Pattern([Star(AtomOf(c))] + p.items, p.atEnd), t) <==> exists k: nat :: StarStop(c, p, t, k)
  {
    hide MatchesHere, AllAdmitted, Read;
    var item := Star(AtomOf(c));
    FirstItem(item, p, t);
    if k: nat :| k <= |t| && Stands(item, t[..k]) && MatchesHere(p, t[k..]) { assert StarStop(c, p, t, k); }
    if k: nat :| StarStop(c, p, t, k) { assert Stands(item, t[..k]); }
  }

  lemma {:induction false} StarReads(re: string, t: string)
    requires |re| > 1 && re[1] == '*'
    ensures MatchesHere(Read(re), t) <==> exists k: nat :: StarStop(re[0], Read(re[2..]), t, k)
  {
    hide MatchesHere, AtomOf, AllAdmitted;
    var p := Read(re[2..]);
    StarFirst(re[0], p, t);
    if k: nat :| StarStop(re[0], p, t, k) { assert StarStop(re[0], Read(re[2..]), t, k); }
  }

  method MatchStar(c: char, re: string, text: string) returns (r: bool)
    ensures r <==> exists k: nat :: StarStop(c, Read(re), text, k)
    decreases |re| + 1
  {
    hide MatchesHere, Read;
    var k := 0;
    while true
      invariant 0 <= k <= |text| && AllAdmitted(AtomOf(c), text[..k])
      invariant forall j :: 0 <= j < k ==> !StarStop(c, Read(re), text, j)
      decreases |text| - k
    {
      var here := MatchHere(re, text[k..]);
      if here {
        assert StarStop(c, Read(re), text, k);
        return true;
      }
      if k == |text| { return false; }
      if !(text[k] == c || c == '.') {
        forall j: nat | j > k
          ensures !StarStop(c, Read(re), text, j)
        {
          if j <= |text| { assert text[..j][k] == text[k]; }
        }
        return false;
      }
      k := k + 1;
    }
    assert false;
  }

  // ---------------------------------------------------------- plain patterns

  predicate Plain(re: string) {
    forall i :: 0 <= i < |re| ==> re[i] !in {'^', '$', '.', '*'}
  }

  lemma {:induction false} PlainHere(re: string, t: string)
    requires Plain(re)
    ensures MatchesHere(Read(re), t) <==> re <= t
  {
    hide MatchesHere;
    if re == "" {
      NothingLeft(false, t);
    } else {
      FirstOne(AtomOf(re[0]), Read(re[1..]), t);
      assert Read(re) == Pattern([One(AtomOf(re[0]))] + Read(re[1..]).items, Read(re[1..]).atEnd);
      if t != "" {
        PlainHere(re[1..], t[1..]);
        assert re == [re[0]] + re[1..] && t == [t[0]] + t[1..];
      }
    }
  }

  /** A pattern without special characters is found exactly where it occurs in the text. */
  lemma PlainIsSubstring(re: string, t: string)
    requires Plain(re)
    ensures Matches(re, t) <==> exists k :: 0 <= k <= |t| && re <= t[k..]
  {
    hide MatchesHere;
    forall k | 0 <= k <= |t|
      ensures MatchesHere(Read(re), t[k..]) <==> re <= t[k..]
    {
      PlainHere(re, t[k..]);
    }
  }

  /** After "^" it must be at the front of the text. */
  lemma PlainAtFront(re: string, t: string)
    requires Plain(re)
    ensures Matches("^" + re, t) <==> re <= t
  {
    hide MatchesHere;
    assert ("^" + re)[1..] == re;
    PlainHere(re, t);
  }

  lemma {:induction false} PlainToEnd(re: string, t: string)
    requires Plain(re)
    ensures MatchesHere(Read(re + "$"), t) <==> re == t
  {
    hide MatchesHere;
    if re == "" {
      NothingLeft(true, t);
    } else {
      var full := re + "$";
      assert full[0] == re[0] && full[1..] == re[1..] + "$";
      FirstOne(AtomOf(re[0]), Read(full[1..]), t);
      assert Read(full) == Pattern([One(AtomOf(re[0]))] + Read(full[1..]).items, Read(full[1..]).atEnd);
      if t != "" {
        PlainToEnd(re[1..], t[1..]);
        assert re == [re[0]] + re[1..] && t == [t[0]] + t[1..];
      }
    }
  }

  /** And before "$" at its end. */
  lemma PlainAtEnd(re: string, t: string)
    requires Plain(re)
    ensures Matches(re + "$", t) <==> exists k :: 0 <= k <= |t| && re == t[k..]
  {
    hide MatchesHere;
    forall k | 0 <= k <= |t|
      ensures MatchesHere(Read(re + "$"), t[k..]) <==> re == t[k..]
    {
      PlainToEnd(re, t[k..]);
    }
    assert re != "" ==> (re + "$")[0] == re[0];
  }

  /** A starred character matches exactly the texts of that character alone, and a starred "." every text. */
  lemma StarIsRun(c: char, t: string)
    ensures Matches(['^', c, '*', '$'], t) <==> forall i :: 0 <= i < |t| ==> c == '.' || t[i] == c
  {
    hide MatchesHere;
    var re := [c, '*', '$'];
    assert ['^', c, '*', '$'][1..] == re && re[2..] == "$";
    StarReads(re, t);
    forall k: nat | k <= |t|
      ensures MatchesHere(Read("$"), t[k..]) <==> k == |t|
    {
      NothingLeft(true, t[k..]);
    }
    assert t[..|t|] == t;
    assert (exists k: nat :: StarStop(c, Read("$"), t, k)) <==> StarStop(c, Read("$"), t, |t|);
    assert AllAdmitted(AtomOf(c), t) <==> forall i :: 0 <= i < |t| ==> c == '.' || t[i] == c;
  }
}

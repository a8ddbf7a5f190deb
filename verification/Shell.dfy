/** The shell's parser: a cursor over the line's buffer. */
module Shell {
  import opened ShellSpec

  /** A word where it stands in the line: from q up to eq. */
  datatype Span = Span(q: nat, eq: nat)

  datatype Result<T> = Good(value: T) | Bad(error: Error)

  // -------------------------------------------------------------------- text

  /** A whole word of the line. */
  predicate SpanOk(line: string, s: Span) {
    && s.q < s.eq <= |line|
    && (forall i :: s.q <= i < s.eq ==> WordChar(line[i]))
    && (s.eq < |line| ==> !WordChar(line[s.eq]))
  }

  predicate SpansOk(line: string, c: Cmd<Span>) {
    match c
    case Exec(args) => forall i :: 0 <= i < |args| ==> SpanOk(line, args[i])
    case Redir(d, f, _) => SpansOk(line, d) && SpanOk(line, f)
    case Pipe(l, r) => SpansOk(line, l) && SpansOk(line, r)
    case List(l, r) => SpansOk(line, l) && SpansOk(line, r)
    case Back(d) => SpansOk(line, d)
  }

  function Slice(line: string, s: Span): string {
    if s.q <= s.eq <= |line| then line[s.q..s.eq] else ""
  }

  function TextArgs(line: string, args: seq<Span>): seq<string> {
    seq(|args|, i requires 0 <= i < |args| => Slice(line, args[i]))
  }

  /** The command with each word's text for its span. */
  function Text(line: string, c: Cmd<Span>): Cmd<string> {
    match c
    case Exec(args) => Exec(TextArgs(line, args))
    case Redir(d, f, m) => Redir(Text(line, d), Slice(line, f), m)
    case Pipe(l, r) => Pipe(Text(line, l), Text(line, r))
    case List(l, r) => List(Text(line, l), Text(line, r))
    case Back(d) => Back(Text(line, d))
  }

  predicate RedirsOk(line: string, rs: seq<Redirection<Span>>) {
    forall i :: 0 <= i < |rs| ==> SpanOk(line, rs[i].file)
  }

  function TextRedirs(line: string, rs: seq<Redirection<Span>>): seq<Redirection<string>> {
    seq(|rs|, i requires 0 <= i < |rs| => Redirection(Slice(line, rs[i].file), rs[i].mode))
  }

  lemma {:induction false} WrapText(line: string, c: Cmd<Span>, rs: seq<Redirection<Span>>)
    requires SpansOk(line, c) && RedirsOk(line, rs)
    ensures SpansOk(line, Wrap(c, rs)) && Text(line, Wrap(c, rs)) == Wrap(Text(line, c), TextRedirs(line, rs))
    decreases |rs|
  {
    if rs != [] {
      var n := |rs| - 1;
      WrapText(line, c, rs[..n]);
      assert TextRedirs(line, rs)[..n] == TextRedirs(line, rs[..n]);
    }
  }

  // ------------------------------------------------------------------- lexing

  /** The tokens from position p on. */
  function Ahead(line: string, p: nat): seq<Token>
    requires p <= |line|
  {
    Lex(line[p..])
  }

  lemma AtEnd(line: string)
    ensures Ahead(line, |line|) == []
  {
  }

  lemma SkipSpace(line: string, p: nat)
    requires p < |line| && Space(line[p])
    ensures Ahead(line, p) == Ahead(line, p + 1)
  {
    assert line[p..][1..] == line[p + 1..];
  }

  lemma AtSymbol(line: string, p: nat)
    requires p < |line| && Symbol(line[p])
    ensures var two := line[p] == '>' && p + 1 < |line| && line[p + 1] == '>';
            Ahead(line, p) == if two then [Sym('+')] + Ahead(line, p + 2) else [Sym(line[p])] + Ahead(line, p + 1)
  {
    assert line[p..][1..] == line[p + 1..];
    if p + 1 < |line| { assert line[p..][2..] == line[p + 2..]; }
  }

  lemma {:induction false} WordLengthAt(s: string, n: nat)
    requires n <= |s| && (forall i :: 0 <= i < n ==> WordChar(s[i])) && (n < |s| ==> !WordChar(s[n]))
    ensures WordLength(s) == n
  {
    if n > 0 { WordLengthAt(s[1..], n - 1); }
  }

  lemma AtWord(line: string, p: nat, e: nat)
    requires SpanOk(line, Span(p, e))
    ensures Ahead(line, p) == [Word(line[p..e])] + Ahead(line, e)
  {
    var s := line[p..];
    WordLengthAt(s, e - p);
    assert s[0] == line[p] && WordChar(line[p]);
    assert s[..e - p] == line[p..e] && s[e - p..] == line[e..];
  }

  /** The next token is a symbol that begins with one of these characters. */
  predicate Begins(ts: seq<Token>, toks: string) {
    ts != [] && ts[0].Sym? && (if ts[0].c == '+' then '>' else ts[0].c) in toks
  }

  lemma AtToken(line: string, p: nat, toks: string)
    requires p < |line| && !Space(line[p]) && forall i :: 0 <= i < |toks| ==> Symbol(toks[i])
    ensures Ahead(line, p) != [] && (line[p] in toks <==> Begins(Ahead(line, p), toks))
  {
    var s := line[p..];
    assert s[0] == line[p];
    if Symbol(line[p]) { AtSymbol(line, p); }
  }

  class Parser {
    const buf: array<char>
    const es: nat
    var pos: nat

    ghost predicate Valid() reads this {
      pos <= es < buf.Length
    }

    ghost function Line(): string
      requires es < buf.Length
      reads this, buf
    {
      buf[..es]
    }

    method SkipSpaces()
      requires Valid()
      modifies this
      ensures Valid() && pos >= old(pos) && Ahead(Line(), pos) == Ahead(Line(), old(pos))
      ensures pos < es ==> !Space(buf[pos])
    {
      hide Lex;
      while pos < es && Space(buf[pos])
        invariant Valid() && pos >= old(pos) && Ahead(Line(), pos) == Ahead(Line(), old(pos))
        decreases es - pos
      {
        SkipSpace(Line(), pos);
        pos := pos + 1;
      }
    }

    /** The next token's kind: 'a' for a word, which is at q up to eq, '+' for ">>", NUL at the end. */
    method GetToken() returns (tok: char, q: nat, eq: nat)
      requires Valid()
      modifies this
      ensures Valid() && pos >= old(pos)
      ensures Ahead(Line(), old(pos)) == [] ==> tok == '\0' && Ahead(Line(), pos) == []
      ensures Ahead(Line(), old(pos)) != [] ==>
                && pos > old(pos) && Ahead(Line(), pos) == Ahead(Line(), old(pos))[1..]
                && match Ahead(Line(), old(pos))[0]
                   case Sym(c) => tok == c && c != 'a' && c != '\0'
                   case Word(w) => tok == 'a' && SpanOk(Line(), Span(q, eq)) && Line()[q..eq] == w
    {
      hide Lex;
      ghost var line := Line();
      SkipSpaces();
      q := pos;
      if pos == es {
        AtEnd(line);
        return '\0', q, pos;
      }
      tok := buf[pos];
      if Symbol(tok) {
        AtSymbol(line, pos);
        pos := pos + 1;
        if tok == '>' && pos < es && buf[pos] == '>' {
          tok := '+';
          pos := pos + 1;
        }
      } else {
        tok := 'a';
        while pos < es && !Space(buf[pos]) && !Symbol(buf[pos])
          invariant q <= pos <= es && (pos == q ==> WordChar(buf[q])) && forall i :: q <= i < pos ==> WordChar(line[i])
          decreases es - pos
        {
          pos := pos + 1;
        }
        AtWord(line, q, pos);
      }
      eq := pos;
      SkipSpaces();
    }

    /** Whether the next token begins with one of these characters. */
    method Peek(toks: string) returns (b: bool)
      requires Valid() && forall i :: 0 <= i < |toks| ==> Symbol(toks[i])
      modifies this
      ensures Valid() && pos >= old(pos) && Ahead(Line(), pos) == Ahead(Line(), old(pos))
      ensures b <==> Begins(Ahead(Line(), pos), toks)
      ensures Ahead(Line(), pos) == [] <==> pos == es
    {
      hide Lex;
      SkipSpaces();
      if pos == es { AtEnd(Line()); } else { AtToken(Line(), pos, toks); }
      return pos < es && buf[pos] in toks;
    }

    // ----------------------------------------------------------------- parsing

    method ParseRedirs() returns (r: Result<seq<Redirection<Span>>>)
      requires Valid()
      modifies this
      ensures Valid() && pos >= old(pos)
      ensures match ShellSpec.ParseRedirs(Ahead(Line(), old(pos)))
              case Err(e) => r == Bad(e)
              case Ok(rs, rest) =>
                r.Good? && RedirsOk(Line(), r.value) && TextRedirs(Line(), r.value) == rs && Ahead(Line(), pos) == rest
    {
      hide Lex, ShellSpec.ParseRedirs;
      ghost var line := Line();
      ghost var start := ShellSpec.ParseRedirs(Ahead(line, pos));
      var rs: seq<Redirection<Span>> := [];
      NothingSoFar(line, start);
      var more := Peek("<>");
      while more
        invariant Valid() && pos >= old(pos) && RedirsOk(line, rs) && Line() == line
        invariant Prepend(TextRedirs(line, rs), ShellSpec.ParseRedirs(Ahead(line, pos))) == start
        invariant more <==> Begins(Ahead(line, pos), "<>")
        decreases es - pos
      {
        ghost var ts := Ahead(line, pos);
        RedirBegins(ts);
        RedirHere(ts);
        var tok, _, _ := GetToken();
        var kind, q, eq := GetToken();
        if kind != 'a' { return Bad(MissingFile); }
        var mode := if tok == '<' then In else Out;
        RedirStep(line, ts, rs, Redirection(Span(q, eq), mode));
        rs := rs + [Redirection(Span(q, eq), mode)];
        more := Peek("<>");
      }
      RedirBegins(Ahead(line, pos));
      NoRedirs(Ahead(line, pos));
      assert TextRedirs(line, rs) + [] == TextRedirs(line, rs);
      return Good(rs);
    }

    method ParseExec() returns (r: Result<Cmd<Span>>)
      requires Valid()
      modifies this
      ensures Valid() && Reads(Line(), old(pos), pos, r, ShellSpec.ParseExec(Ahead(Line(), old(pos))))
      decreases es - pos, 1
    {
      hide Lex, ShellSpec.ParseRedirs, ShellSpec.ParseArgs, ShellSpec.ParseBlock, Wrap, Text, TextArgs, TextRedirs,
           RedirsOk;
      ghost var line, ts := Line(), Ahead(Line(), pos);
      var block := Peek("(");
      if block {
        r := ParseBlock();
        return;
      }
      var rr := ParseRedirs();
      if rr.Bad? { return Bad(rr.error); }
      var args: seq<Span>, rs := [], rr.value;
      ghost var start := ShellSpec.ParseArgs(Ahead(line, pos), Simple([], TextRedirs(line, rs)));
      NoArgs(line);
      var stop := Peek("|)&;");
      while !stop
        invariant Valid() && pos >= old(pos) && Line() == line && ArgsOk(line, args) && RedirsOk(line, rs)
                  && |args| < MAXARGS
        invariant ShellSpec.ParseArgs(Ahead(line, pos), Simple(TextArgs(line, args), TextRedirs(line, rs))) == start
        invariant stop <==> Begins(Ahead(line, pos), "|)&;")
        decreases es - pos
      {
        ghost var now := Ahead(line, pos);
        ArgHere(now, Simple(TextArgs(line, args), TextRedirs(line, rs)));
        var tok, q, eq := GetToken();
        if tok == '\0' { break; }
        if tok != 'a' { return Bad(Syntax); }
        MoreText(line, args, Span(q, eq), rs);
        args := args + [Span(q, eq)];
        if |args| >= MAXARGS { return Bad(TooManyArgs); }
        rr := ParseRedirs();
        if rr.Bad? { return Bad(rr.error); }
        JoinText(line, rs, rr.value);
        rs := rs + rr.value;
        stop := Peek("|)&;");
      }
      ArgHere(Ahead(line, pos), Simple(TextArgs(line, args), TextRedirs(line, rs)));
      ExecText(line, args, rs);
      return Good(Wrap(Exec(args), rs));
    }

    method ParseBlock() returns (r: Result<Cmd<Span>>)
      requires Valid() && Starts(Ahead(Line(), pos), '(')
      modifies this
      ensures Valid() && Reads(Line(), old(pos), pos, r, ShellSpec.ParseBlock(Ahead(Line(), old(pos))))
      decreases es - pos, 0
    {
      hide Lex, ShellSpec.ParseRedirs, ShellSpec.ParseLine, Wrap, Text, TextRedirs, RedirsOk, SpansOk;
      ghost var line := Line();
      var tok, _, _ := GetToken();
      r := ParseLine();
      if r.Bad? { return; }
      var closed := Peek(")");
      if !closed { return Bad(MissingParen); }
      var _, _, _ := GetToken();
      var rr := ParseRedirs();
      if rr.Bad? { return Bad(rr.error); }
      WrapText(line, r.value, rr.value);
      return Good(Wrap(r.value, rr.value));
    }

    method ParsePipe() returns (r: Result<Cmd<Span>>)
      requires Valid()
      modifies this
      ensures Valid() && Reads(Line(), old(pos), pos, r, ShellSpec.ParsePipe(Ahead(Line(), old(pos))))
      decreases es - pos, 2
    {
      hide Lex, ShellSpec.ParseExec;
      r := ParseExec();
      if r.Bad? { return; }
      var bar := Peek("|");
      if bar {
        var _, _, _ := GetToken();
        var d := ParsePipe();
        if d.Bad? { return d; }
        return Good(Pipe(r.value, d.value));
      }
    }

    method ParseLine() returns (r: Result<Cmd<Span>>)
      requires Valid()
      modifies this
      ensures Valid() && Reads(Line(), old(pos), pos, r, ShellSpec.ParseLine(Ahead(Line(), old(pos))))
      decreases es - pos, 4
    {
      hide Lex, ShellSpec.ParsePipe;
      ghost var line := Line();
      ghost var whole := ShellSpec.ParseLine(Ahead(line, pos));
      r := ParsePipe();
      if r.Bad? { return; }
      var c := r.value;
      var amp := Peek("&");
      while amp
        invariant Valid() && pos >= old(pos) && Line() == line && SpansOk(line, c)
        invariant ShellSpec.ParseLineTail(Text(line, c), Ahead(line, pos)) == whole
        invariant amp <==> Begins(Ahead(line, pos), "&")
        decreases es - pos
      {
        var _, _, _ := GetToken();
        c := Back(c);
        amp := Peek("&");
      }
      var semi := Peek(";");
      if semi {
        var _, _, _ := GetToken();
        var d := ParseLine();
        if d.Bad? { return d; }
        return Good(List(c, d.value));
      }
      return Good(c);
    }

    // ------------------------------------------------------- ending the strings

    /** Puts a NUL after every word of the command, and nowhere else. */
    method NulTerminate(c: Cmd<Span>)
      requires es < buf.Length && InLine(c, es)
      modifies buf
      ensures forall k :: 0 <= k < buf.Length ==> buf[k] == if Ends(c, k) then '\0' else old(buf[k])
      decreases c
    {
      match c {
        case Exec(args) =>
          var i := 0;
          while i < |args|
            invariant i <= |args|
            invariant forall k :: 0 <= k < buf.Length ==> buf[k] == if EndsSome(args, i, k) then '\0' else old(buf[k])
          {
            buf[args[i].eq] := '\0';
            i := i + 1;
          }
        case Redir(d, f, _) =>
          NulTerminate(d);
          buf[f.eq] := '\0';
        case Pipe(l, r) =>
          NulTerminate(l);
          NulTerminate(r);
        case List(l, r) =>
          NulTerminate(l);
          NulTerminate(r);
        case Back(d) =>
          NulTerminate(d);
      }
    }

    /** The whole line: on success every word of the command is a C string in the buffer, equal to its token. */
    method ParseCmd() returns (r: Result<Cmd<Span>>)
      requires Valid() && pos == 0 && NulFree(Line())
      modifies this, buf
      ensures Valid()
      ensures match Parse(old(Line()))
              case Err(e) => r == Bad(e)
              case Ok(c, _) => r.Good? && pos == es && SpansOk(old(Line()), r.value) && Text(old(Line()), r.value) == c
      ensures r.Good? ==> Terminated(buf[..], old(Line()), r.value)
    {
      hide Lex, ShellSpec.ParseLine, Text, SpansOk, Terminated, Ends;
      ghost var line := Line();
      assert line[0..] == line;
      r := ParseLine();
      if r.Bad? { return; }
      var _ := Peek("");
      if pos != es { return Bad(Leftovers); }
      OkInLine(line, r.value);
      NulTerminate(r.value);
      SubTerminated(line, old(buf[..]), buf[..], r.value, r.value);
    }
  }

  // ------------------------------------------------------- ending the strings

  /** Position k ends one of the first n arguments. */
  predicate EndsSome(args: seq<Span>, n: nat, k: int)
    requires n <= |args|
  {
    exists i :: 0 <= i < n && args[i].eq == k
  }

  /** Position k ends a word of the command. */
  predicate Ends(c: Cmd<Span>, k: int) {
    match c
    case Exec(args) => EndsSome(args, |args|, k)
    case Redir(d, f, _) => Ends(d, k) || f.eq == k
    case Pipe(l, r) => Ends(l, k) || Ends(r, k)
    case List(l, r) => Ends(l, k) || Ends(r, k)
    case Back(d) => Ends(d, k)
  }

  predicate InLine(c: Cmd<Span>, es: nat) {
    match c
    case Exec(args) => forall i :: 0 <= i < |args| ==> args[i].eq <= es
    case Redir(d, f, _) => InLine(d, es) && f.eq <= es
    case Pipe(l, r) => InLine(l, es) && InLine(r, es)
    case List(l, r) => InLine(l, es) && InLine(r, es)
    case Back(d) => InLine(d, es)
  }

  lemma {:induction false} OkInLine(line: string, c: Cmd<Span>)
    requires SpansOk(line, c)
    ensures InLine(c, |line|)
  {
    match c
    case Exec(args) =>
    case Redir(d, f, _) => OkInLine(line, d);
    case Pipe(l, r) =>
      OkInLine(line, l);
      OkInLine(line, r);
    case List(l, r) =>
      OkInLine(line, l);
      OkInLine(line, r);
    case Back(d) => OkInLine(line, d);
  }

  /** The C string at q in the buffer is w. */
  predicate CString(buf: seq<char>, q: nat, w: string) {
    q + |w| < |buf| && buf[q..q + |w|] == w && buf[q + |w|] == '\0' && NulFree(w)
  }

  /** Every word of the command is a C string that equals its slice of the line. */
  predicate Terminated(buf: seq<char>, line: string, c: Cmd<Span>) {
    match c
    case Exec(args) => forall i :: 0 <= i < |args| ==> CString(buf, args[i].q, Slice(line, args[i]))
    case Redir(d, f, _) => Terminated(buf, line, d) && CString(buf, f.q, Slice(line, f))
    case Pipe(l, r) => Terminated(buf, line, l) && Terminated(buf, line, r)
    case List(l, r) => Terminated(buf, line, l) && Terminated(buf, line, r)
    case Back(d) => Terminated(buf, line, d)
  }

  /** A word's end is never inside a word. */
  lemma {:induction false} EndsOutside(line: string, c: Cmd<Span>, k: int)
    requires SpansOk(line, c) && 0 <= k < |line| && WordChar(line[k])
    ensures !Ends(c, k)
  {
    match c
    case Exec(args) =>
      forall i | 0 <= i < |args|
        ensures args[i].eq != k
      {
        assert SpanOk(line, args[i]);
      }
    case Redir(d, f, _) => EndsOutside(line, d, k);
    case Pipe(l, r) =>
      EndsOutside(line, l, k);
      EndsOutside(line, r, k);
    case List(l, r) =>
      EndsOutside(line, l, k);
      EndsOutside(line, r, k);
    case Back(d) => EndsOutside(line, d, k);
  }

  /** The buffer after NULs were put at the ends of all's words. */
  ghost predicate Punctured(line: string, before: seq<char>, after: seq<char>, all: Cmd<Span>) {
    && |before| == |after| && |line| < |before| && before[..|line|] == line && NulFree(line) && SpansOk(line, all)
    && forall k :: 0 <= k < |after| ==> after[k] == if Ends(all, k) then '\0' else before[k]
  }

  lemma WordTerminated(line: string, before: seq<char>, after: seq<char>, all: Cmd<Span>, s: Span)
    requires Punctured(line, before, after, all) && SpanOk(line, s) && Ends(all, s.eq)
    ensures CString(after, s.q, Slice(line, s))
  {
    hide Ends, SpansOk;
    forall k | s.q <= k < s.eq
      ensures after[k] == line[k]
    {
      EndsOutside(line, all, k);
      assert before[..|line|][k] == before[k];
    }
    assert after[s.q..s.eq] == line[s.q..s.eq];
  }

  lemma {:induction false} SubTerminated(line: string, before: seq<char>, after: seq<char>, all: Cmd<Span>,
                                         c: Cmd<Span>)
    requires Punctured(line, before, after, all) && SpansOk(line, c) && forall k :: Ends(c, k) ==> Ends(all, k)
    ensures Terminated(after, line, c)
    decreases c
  {
    hide Punctured;
    match c
    case Exec(args) =>
      forall i | 0 <= i < |args|
        ensures CString(after, args[i].q, Slice(line, args[i]))
      {
        assert Ends(c, args[i].eq);
        WordTerminated(line, before, after, all, args[i]);
      }
    case Redir(d, f, _) =>
      assert forall k :: Ends(d, k) ==> Ends(c, k);
      SubTerminated(line, before, after, all, d);
      assert Ends(c, f.eq);
      WordTerminated(line, before, after, all, f);
    case Pipe(l, r) =>
      assert forall k :: Ends(l, k) || Ends(r, k) ==> Ends(c, k);
      SubTerminated(line, before, after, all, l);
      SubTerminated(line, before, after, all, r);
    case List(l, r) =>
      assert forall k :: Ends(l, k) || Ends(r, k) ==> Ends(c, k);
      SubTerminated(line, before, after, all, l);
      SubTerminated(line, before, after, all, r);
    case Back(d) =>
      assert forall k :: Ends(d, k) ==> Ends(c, k);
      SubTerminated(line, before, after, all, d);
  }

  /** A parsing step from p to p' agrees with the parse of the tokens. */
  ghost predicate Reads(line: string, p: nat, p': nat, r: Result<Cmd<Span>>, parsed: Parsed<Cmd<string>>) {
    && p <= p' <= |line|
    && match parsed
       case Err(e) => r == Bad(e)
       case Ok(c, rest) => r.Good? && SpansOk(line, r.value) && Text(line, r.value) == c && Ahead(line, p') == rest
  }

  // ---------------------------------------------------- arguments, one by one

  predicate ArgsOk(line: string, args: seq<Span>) {
    forall i :: 0 <= i < |args| ==> SpanOk(line, args[i])
  }

  lemma NoArgs(line: string)
    ensures TextArgs(line, []) == []
  {
  }

  lemma EndBegins(ts: seq<Token>)
    ensures StartsEnd(ts) <==> ts == [] || Begins(ts, "|)&;")
  {
  }

  /** What the next token means among arguments. */
  lemma ArgHere(ts: seq<Token>, so: Simple<string>)
    ensures ts == [] || Begins(ts, "|)&;") ==> ShellSpec.ParseArgs(ts, so) == Ok(so, ts)
    ensures ts != [] && !Begins(ts, "|)&;") && !ts[0].Word? ==> ShellSpec.ParseArgs(ts, so) == Err(Syntax)
    ensures ts != [] && ts[0].Word? ==>
              if |so.args| + 1 >= MAXARGS then ShellSpec.ParseArgs(ts, so) == Err(TooManyArgs)
              else
                match ShellSpec.ParseRedirs(ts[1..])
                case Err(e) => ShellSpec.ParseArgs(ts, so) == Err(e)
                case Ok(rs, rest) =>
                  ShellSpec.ParseArgs(ts, so) == ShellSpec.ParseArgs(rest, Simple(so.args + [ts[0].w], so.redirs + rs))
  {
    hide ShellSpec.ParseRedirs;
    EndBegins(ts);
  }

  lemma MoreText(line: string, args: seq<Span>, s: Span, rs: seq<Redirection<Span>>)
    ensures TextArgs(line, args + [s]) == TextArgs(line, args) + [Slice(line, s)]
    ensures |TextArgs(line, args)| == |args|
  {
  }

  lemma JoinText(line: string, rs: seq<Redirection<Span>>, more: seq<Redirection<Span>>)
    requires RedirsOk(line, rs) && RedirsOk(line, more)
    ensures TextRedirs(line, rs + more) == TextRedirs(line, rs) + TextRedirs(line, more) && RedirsOk(line, rs + more)
  {
  }

  lemma ExecText(line: string, args: seq<Span>, rs: seq<Redirection<Span>>)
    requires ArgsOk(line, args) && RedirsOk(line, rs)
    ensures SpansOk(line, Wrap(Exec(args), rs))
    ensures Text(line, Wrap(Exec(args), rs)) == Wrap(Exec(TextArgs(line, args)), TextRedirs(line, rs))
  {
    WrapText(line, Exec(args), rs);
  }

  // -------------------------------------------------- redirections, one by one

  function Prepend(rs: seq<Redirection<string>>,
                   p: Parsed<seq<Redirection<string>>>): Parsed<seq<Redirection<string>>> {
    match p
    case Err(e) => Err(e)
    case Ok(more, rest) => Ok(rs + more, rest)
  }

  lemma NothingSoFar(line: string, p: Parsed<seq<Redirection<string>>>)
    ensures Prepend(TextRedirs(line, []), p) == p
  {
    assert TextRedirs(line, []) == [];
    if p.Ok? { assert [] + p.value == p.value; }
  }

  lemma RedirBegins(ts: seq<Token>)
    ensures Begins(ts, "<>") <==> StartsRedir(ts)
  {
  }

  lemma RedirHere(ts: seq<Token>)
    requires StartsRedir(ts)
    ensures |ts| < 2 || !ts[1].Word? ==> ShellSpec.ParseRedirs(ts) == Err(MissingFile)
  {
  }

  lemma {:induction false} RedirStep(line: string, ts: seq<Token>, rs: seq<Redirection<Span>>, redir: Redirection<Span>)
    requires StartsRedir(ts) && |ts| >= 2 && ts[1] == Word(Slice(line, redir.file))
    requires redir.mode == if Starts(ts, '<') then In else Out
    ensures Prepend(TextRedirs(line, rs), ShellSpec.ParseRedirs(ts)) ==
            Prepend(TextRedirs(line, rs + [redir]), ShellSpec.ParseRedirs(ts[2..]))
  {
    var r := Redirection(Slice(line, redir.file), redir.mode);
    assert TextRedirs(line, rs + [redir]) == TextRedirs(line, rs) + [r];
    var p := ShellSpec.ParseRedirs(ts[2..]);
    if p.Ok? { assert TextRedirs(line, rs) + ([r] + p.value) == TextRedirs(line, rs) + [r] + p.value; }
  }
}

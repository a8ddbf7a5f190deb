/** Command lines: their tokens, the trees they parse to, and how a tree is printed. */
module ShellSpec {

  const MAXARGS: nat := 10

  /** Sym('+') stands for ">>". */
  datatype Token = Word(w: string) | Sym(c: char)

  datatype Mode = In | Out

  /** A command with words of type W: text, or spans of the line. */
  datatype Cmd<W> =
    | Exec(args: seq<W>)
    | Redir(cmd: Cmd<W>, file: W, mode: Mode)
    | Pipe(left: Cmd<W>, right: Cmd<W>)
    | List(left: Cmd<W>, right: Cmd<W>)
    | Back(cmd: Cmd<W>)

  datatype Redirection<W> = Redirection(file: W, mode: Mode)

  datatype Error = Syntax | MissingFile | MissingParen | TooManyArgs | Leftovers

  datatype Parsed<T> = Ok(value: T, rest: seq<Token>) | Err(error: Error)

  // ------------------------------------------------------------------ tokens

  predicate Space(c: char) { c in " \t\r\n" || c == 11 as char }

  predicate Symbol(c: char) { c in "<|>&;()" }

  predicate WordChar(c: char) { !Space(c) && !Symbol(c) }

  function WordLength(s: string): (n: nat)
    ensures n <= |s|
    ensures forall i :: 0 <= i < n ==> WordChar(s[i])
    ensures n < |s| ==> !WordChar(s[n])
  {
    if s == "" || !WordChar(s[0]) then 0 else 1 + WordLength(s[1..])
  }

  /** The tokens of a line. */
  function Lex(s: string): seq<Token>
    decreases |s|
  {
    if s == "" then []
    else if Space(s[0]) then Lex(s[1..])
    else if s[0] == '>' && |s| > 1 && s[1] == '>' then [Sym('+')] + Lex(s[2..])
    else if Symbol(s[0]) then [Sym(s[0])] + Lex(s[1..])
    else [Word(s[..WordLength(s)])] + Lex(s[WordLength(s)..])
  }

  // ----------------------------------------------------------------- parsing

  predicate Starts(ts: seq<Token>, c: char) {
    ts != [] && ts[0] == Sym(c)
  }

  predicate StartsRedir(ts: seq<Token>) {
    Starts(ts, '<') || Starts(ts, '>') || Starts(ts, '+')
  }

  /** What ends the arguments of a command. */
  predicate StartsEnd(ts: seq<Token>) {
    ts == [] || Starts(ts, '|') || Starts(ts, ')') || Starts(ts, '&') || Starts(ts, ';')
  }

  /** Redirections apply from the inside out. */
  function Wrap<W>(c: Cmd<W>, rs: seq<Redirection<W>>): Cmd<W>
    decreases |rs|
  {
    if rs == [] then c else Redir(Wrap(c, rs[..|rs| - 1]), rs[|rs| - 1].file, rs[|rs| - 1].mode)
  }

  function ParseRedirs(ts: seq<Token>): (r: Parsed<seq<Redirection<string>>>)
    ensures r.Ok? ==> |r.rest| <= |ts| && !StartsRedir(r.rest)
    decreases |ts|
  {
    if !StartsRedir(ts) then Ok([], ts)
    else if |ts| < 2 || !ts[1].Word? then Err(MissingFile)
    else
      var redir := Redirection(ts[1].w, if Starts(ts, '<') then In else Out);
      match ParseRedirs(ts[2..])
      case Err(e) => Err(e)
      case Ok(rs, rest) => Ok([redir] + rs, rest)
  }

  datatype Simple<W> = Simple(args: seq<W>, redirs: seq<Redirection<W>>)

  /** Arguments mixed with redirections, after those so far. */
  function ParseArgs(ts: seq<Token>, so: Simple<string>): (r: Parsed<Simple<string>>)
    ensures r.Ok? ==> |r.rest| <= |ts|
    decreases |ts|
  {
    if StartsEnd(ts) then Ok(so, ts)
    else if !ts[0].Word? then Err(Syntax)
    else if |so.args| + 1 >= MAXARGS then Err(TooManyArgs)
    else
      match ParseRedirs(ts[1..])
      case Err(e) => Err(e)
      case Ok(rs, rest) => ParseArgs(rest, Simple(so.args + [ts[0].w], so.redirs + rs))
  }

  function ParseLine(ts: seq<Token>): (r: Parsed<Cmd<string>>)
    ensures r.Ok? ==> |r.rest| <= |ts|
    decreases |ts|, 4
  {
    match ParsePipe(ts)
    case Err(e) => Err(e)
    case Ok(c, rest) => ParseLineTail(c, rest)
  }

  function ParseLineTail(c: Cmd<string>, ts: seq<Token>): (r: Parsed<Cmd<string>>)
    ensures r.Ok? ==> |r.rest| <= |ts|
    decreases |ts|, 3
  {
    if Starts(ts, '&') then ParseLineTail(Back(c), ts[1..])
    else if Starts(ts, ';') then
      match ParseLine(ts[1..])
      case Err(e) => Err(e)
      case Ok(d, rest) => Ok(List(c, d), rest)
    else Ok(c, ts)
  }

  function ParsePipe(ts: seq<Token>): (r: Parsed<Cmd<string>>)
    ensures r.Ok? ==> |r.rest| <= |ts|
    decreases |ts|, 2
  {
    match ParseExec(ts)
    case Err(e) => Err(e)
    case Ok(c, rest) =>
      if !Starts(rest, '|') then Ok(c, rest)
      else
        match ParsePipe(rest[1..])
        case Err(e) => Err(e)
        case Ok(d, more) => Ok(Pipe(c, d), more)
  }

  function ParseExec(ts: seq<Token>): (r: Parsed<Cmd<string>>)
    ensures r.Ok? ==> |r.rest| <= |ts|
    decreases |ts|, 1
  {
    if Starts(ts, '(') then ParseBlock(ts)
    else
      match ParseRedirs(ts)
      case Err(e) => Err(e)
      case Ok(rs, rest) =>
        match ParseArgs(rest, Simple([], rs))
        case Err(e) => Err(e)
        case Ok(so, more) => Ok(Wrap(Exec(so.args), so.redirs), more)
  }

  function ParseBlock(ts: seq<Token>): (r: Parsed<Cmd<string>>)
    requires Starts(ts, '(')
    ensures r.Ok? ==> |r.rest| <= |ts|
    decreases |ts|, 0
  {
    match ParseLine(ts[1..])
    case Err(e) => Err(e)
    case Ok(c, rest) =>
      if !Starts(rest, ')') then Err(MissingParen)
      else
        match ParseRedirs(rest[1..])
        case Err(e) => Err(e)
        case Ok(rs, more) => Ok(Wrap(c, rs), more)
  }

  function Parse(s: string): Parsed<Cmd<string>> {
    match ParseLine(Lex(s))
    case Err(e) => Err(e)
    case Ok(c, rest) => if rest != [] then Err(Leftovers) else Ok(c, [])
  }

  // ---------------------------------------------------------------- printing

  function Words(args: seq<string>): seq<Token> {
    if args == [] then [] else [Word(args[0])] + Words(args[1..])
  }

  function PrintLine(c: Cmd<string>): seq<Token>
    decreases c, 4
  {
    match c
    case List(l, r) => PrintBack(l) + [Sym(';')] + PrintLine(r)
    case _ => PrintBack(c)
  }

  function PrintBack(c: Cmd<string>): seq<Token>
    decreases c, 3
  {
    match c
    case Back(d) => PrintBack(d) + [Sym('&')]
    case _ => PrintPipe(c)
  }

  function PrintPipe(c: Cmd<string>): seq<Token>
    decreases c, 2
  {
    match c
    case Pipe(l, r) => PrintExec(l) + [Sym('|')] + PrintPipe(r)
    case _ => PrintExec(c)
  }

  /** Anything but a simple command goes in parentheses here. */
  function PrintExec(c: Cmd<string>): seq<Token>
    decreases c, 1
  {
    match c
    case Exec(args) => Words(args)
    case Redir(d, f, m) => PrintExec(d) + [Sym(if m == In then '<' else '>'), Word(f)]
    case Pipe(_, _) => [Sym('(')] + PrintBlock(c) + [Sym(')')]
    case List(_, _) => [Sym('(')] + PrintBlock(c) + [Sym(')')]
    case Back(_) => [Sym('(')] + PrintBlock(c) + [Sym(')')]
  }

  /** A line inside parentheses, for a command that is not simple. */
  function PrintBlock(c: Cmd<string>): seq<Token>
    requires c.Pipe? || c.List? || c.Back?
    decreases c, 0
  {
    match c
    case Pipe(l, r) => PrintExec(l) + [Sym('|')] + PrintPipe(r)
    case List(l, r) => PrintBack(l) + [Sym(';')] + PrintLine(r)
    case Back(d) => PrintBack(d) + [Sym('&')]
  }

  /** Tokens as text, each followed by a blank. */
  function Render(ts: seq<Token>): string {
    if ts == [] then ""
    else (if ts[0].Word? then ts[0].w else if ts[0].c == '+' then ">>" else [ts[0].c]) + " " + Render(ts[1..])
  }

  /** A line is a C string. */
  predicate NulFree(s: string) { '\0' !in s }

  /** A word the shell can read back: no blank, no symbol and no NUL in it. */
  predicate Good(w: string) {
    w != "" && NulFree(w) && forall i :: 0 <= i < |w| ==> WordChar(w[i])
  }

  /** A command whose words are good, with at most nine arguments each. */
  predicate Printable(c: Cmd<string>) {
    match c
    case Exec(args) => |args| < MAXARGS && forall i :: 0 <= i < |args| ==> Good(args[i])
    case Redir(d, f, _) => Printable(d) && Good(f)
    case Pipe(l, r) => Printable(l) && Printable(r)
    case List(l, r) => Printable(l) && Printable(r)
    case Back(d) => Printable(d)
  }

  // ----------------------------------------------------------------- grammar

  /** The two tokens of a redirection. */
  predicate IsRedir(ts: seq<Token>, r: Redirection<string>) {
    && |ts| == 2 && ts[1] == Word(r.file)
    && match r.mode
       case In => ts[0] == Sym('<')
       case Out => ts[0] == Sym('>') || ts[0] == Sym('+')
  }

  predicate IsRedirs(ts: seq<Token>, rs: seq<Redirection<string>>)
    decreases |rs|
  {
    if rs == [] then ts == [] else |ts| >= 2 && IsRedir(ts[..2], rs[0]) && IsRedirs(ts[2..], rs[1..])
  }

  /** Arguments and redirections in any order. */
  predicate IsSimple(ts: seq<Token>, args: seq<string>, rs: seq<Redirection<string>>)
    decreases |ts|
  {
    || (ts == [] && args == [] && rs == [])
    || (ts != [] && args != [] && ts[0] == Word(args[0]) && IsSimple(ts[1..], args[1..], rs))
    || (|ts| >= 2 && rs != [] && IsRedir(ts[..2], rs[0]) && IsSimple(ts[2..], args, rs[1..]))
  }

  /** A simple command of at most nine arguments, or a line in parentheses and redirections after it. */
  ghost predicate IsExec(ts: seq<Token>, c: Cmd<string>)
    decreases |ts|, 0
  {
    || (exists args, rs :: IsSimple(ts, args, rs) && |args| < MAXARGS && c == Wrap(Exec(args), rs))
    || (exists a, b, d, rs :: ts == [Sym('(')] + a + [Sym(')')] + b && IsLine(a, d) && IsRedirs(b, rs)
                              && c == Wrap(d, rs))
  }

  /** Commands with "|" between them, grouped to the right. */
  ghost predicate IsPipe(ts: seq<Token>, c: Cmd<string>)
    decreases |ts|, 1
  {
    || IsExec(ts, c)
    || (c.Pipe? && exists a, b :: ts == a + [Sym('|')] + b && IsExec(a, c.left) && IsPipe(b, c.right))
  }

  /** A pipeline and any number of "&"s. */
  ghost predicate IsBack(ts: seq<Token>, c: Cmd<string>)
    decreases |ts|, 2
  {
    || IsPipe(ts, c)
    || (c.Back? && ts != [] && ts[|ts| - 1] == Sym('&') && IsBack(ts[..|ts| - 1], c.cmd))
  }

  /** Those with ";" between them, grouped to the right. */
  ghost predicate IsLine(ts: seq<Token>, c: Cmd<string>)
    decreases |ts|, 3
  {
    || IsBack(ts, c)
    || (c.List? && exists a, b :: ts == a + [Sym(';')] + b && IsBack(a, c.left) && IsLine(b, c.right))
  }

  /** What may follow a pipeline, and a whole line. */
  predicate AfterPipe(rest: seq<Token>) {
    rest == [] || Starts(rest, ')') || Starts(rest, '&') || Starts(rest, ';')
  }

  predicate AfterLine(rest: seq<Token>) {
    rest == [] || Starts(rest, ')')
  }

  // --------------------------------------- what follows the grammar is parsed

  lemma NoRedirs(ts: seq<Token>)
    requires !StartsRedir(ts)
    ensures ParseRedirs(ts) == Ok([], ts)
  {
  }

  lemma {:induction false} RedirsParsed(ts: seq<Token>, rs: seq<Redirection<string>>, rest: seq<Token>)
    requires IsRedirs(ts, rs) && !StartsRedir(rest)
    ensures ParseRedirs(ts + rest) == Ok(rs, rest)
    decreases |rs|
  {
    if rs == [] {
      assert ts + rest == rest;
    } else {
      RedirsParsed(ts[2..], rs[1..], rest);
      assert (ts + rest)[2..] == ts[2..] + rest && (ts + rest)[0] == ts[..2][0] && (ts + rest)[1] == ts[..2][1];
      assert rs == [rs[0]] + rs[1..];
    }
  }

  /** The redirections at the front of a simple command. */
  lemma {:induction false} FrontRedirs(ts: seq<Token>, args: seq<string>, rs: seq<Redirection<string>>)
    returns (a: seq<Token>, b: seq<Token>, n: nat)
    requires IsSimple(ts, args, rs)
    ensures ts == a + b && n <= |rs| && IsRedirs(a, rs[..n]) && IsSimple(b, args, rs[n..])
    ensures if b == [] then args == [] && rs[n..] == []
            else args != [] && b[0] == Word(args[0]) && IsSimple(b[1..], args[1..], rs[n..])
    decreases |ts|
  {
    if ts != [] && !ts[0].Word? {
      var b';
      a, b', n := FrontRedirs(ts[2..], args, rs[1..]);
      a, b, n := ts[..2] + a, b', n + 1;
      assert a[..2] == ts[..2] && a[2..] == ts[2..][..|a| - 2];
      assert rs[..n][1..] == rs[1..][..n - 1] && rs[n..] == rs[1..][n - 1..];
    } else {
      a, b, n := [], ts, 0;
    }
  }

  lemma {:induction false} ArgsParsed(ts: seq<Token>, args: seq<string>, rs: seq<Redirection<string>>,
                                      rest: seq<Token>, so: Simple<string>)
    requires IsSimple(ts, args, rs) && StartsEnd(rest) && |so.args| + |args| < MAXARGS
    requires ts == [] || (args != [] && ts[0] == Word(args[0]) && IsSimple(ts[1..], args[1..], rs))
    ensures ParseArgs(ts + rest, so) == Ok(Simple(so.args + args, so.redirs + rs), rest)
    decreases |ts|
  {
    hide ParseRedirs;
    if ts == [] {
      assert ts + rest == rest && so.args + args == so.args && so.redirs + rs == so.redirs;
    } else {
      var a, b, n := FrontRedirs(ts[1..], args[1..], rs);
      RedirsParsed(a, rs[..n], b + rest);
      assert (ts + rest)[1..] == a + (b + rest);
      var so' := Simple(so.args + [args[0]], so.redirs + rs[..n]);
      ArgsParsed(b, args[1..], rs[n..], rest, so');
      assert so'.args + args[1..] == so.args + args && so'.redirs + rs[n..] == so.redirs + rs;
    }
  }

  lemma NoParen(ts: seq<Token>, args: seq<string>, rs: seq<Redirection<string>>, rest: seq<Token>)
    requires IsSimple(ts, args, rs) && StartsEnd(rest)
    ensures !Starts(ts + rest, '(')
  {
    if ts == [] { assert ts + rest == rest; } else { assert (ts + rest)[0] == ts[..1][0]; }
  }

  lemma SimpleParsed(ts: seq<Token>, args: seq<string>, rs: seq<Redirection<string>>, rest: seq<Token>)
    requires IsSimple(ts, args, rs) && |args| < MAXARGS && StartsEnd(rest)
    ensures ParseExec(ts + rest) == Ok(Wrap(Exec(args), rs), rest)
  {
    hide ParseRedirs, ParseArgs, Wrap, IsSimple, IsRedirs;
    var a, b, n := FrontRedirs(ts, args, rs);
    NoParen(ts, args, rs, rest);
    RedirsParsed(a, rs[..n], b + rest);
    assert ts + rest == a + (b + rest);
    ArgsParsed(b, args, rs[n..], rest, Simple([], rs[..n]));
    assert [] + args == args && rs[..n] + rs[n..] == rs;
  }

  lemma BlockParsed(a: seq<Token>, d: Cmd<string>, b: seq<Token>, rs: seq<Redirection<string>>, rest: seq<Token>)
    requires IsRedirs(b, rs) && StartsEnd(rest)
    requires ParseLine(a + ([Sym(')')] + (b + rest))) == Ok(d, [Sym(')')] + (b + rest))
    ensures ParseExec([Sym('(')] + a + [Sym(')')] + b + rest) == Ok(Wrap(d, rs), rest)
  {
    hide ParseRedirs, ParseLine, ParseArgs, Wrap;
    var ts := [Sym('(')] + a + [Sym(')')] + b + rest;
    assert ts[1..] == a + ([Sym(')')] + (b + rest));
    assert ([Sym(')')] + (b + rest))[1..] == b + rest;
    RedirsParsed(b, rs, rest);
  }

  lemma {:induction false} ExecParsed(ts: seq<Token>, c: Cmd<string>, rest: seq<Token>)
    requires IsExec(ts, c) && StartsEnd(rest)
    ensures ParseExec(ts + rest) == Ok(c, rest)
    decreases |ts|, 0
  {
    hide ParseExec, ParseLine, Wrap, IsSimple, IsExec, IsLine, IsRedirs;
    var args, a, b, d, rs := ExecForms(ts, c);
    if IsSimple(ts, args, rs) && |args| < MAXARGS && c == Wrap(Exec(args), rs) {
      SimpleParsed(ts, args, rs, rest);
    } else {
      LineParsed(a, d, [Sym(')')] + (b + rest));
      BlockParsed(a, d, b, rs, rest);
    }
  }

  lemma {:induction false} PipeParsed(ts: seq<Token>, c: Cmd<string>, rest: seq<Token>)
    requires IsPipe(ts, c) && AfterPipe(rest)
    ensures ParsePipe(ts + rest) == Ok(c, rest)
    decreases |ts|, 1
  {
    hide ParseExec, IsExec;
    if IsExec(ts, c) {
      ExecParsed(ts, c, rest);
    } else {
      var a, b :| ts == a + [Sym('|')] + b && IsExec(a, c.left) && IsPipe(b, c.right);
      var more := [Sym('|')] + (b + rest);
      assert ts + rest == a + more && more[1..] == b + rest;
      ExecParsed(a, c.left, more);
      PipeParsed(b, c.right, rest);
    }
  }

  /** After a command and its "&"s, the rest of the line is still to come. */
  lemma {:induction false} BackParsed(ts: seq<Token>, c: Cmd<string>, rest: seq<Token>)
    requires IsBack(ts, c) && AfterPipe(rest)
    ensures ParseLine(ts + rest) == ParseLineTail(c, rest)
    decreases |ts|, 2
  {
    hide ParsePipe, IsPipe;
    if IsPipe(ts, c) {
      PipeParsed(ts, c, rest);
    } else {
      var more := [Sym('&')] + rest;
      assert ts + rest == ts[..|ts| - 1] + more && more[1..] == rest;
      BackParsed(ts[..|ts| - 1], c.cmd, more);
    }
  }

  lemma {:induction false} LineParsed(ts: seq<Token>, c: Cmd<string>, rest: seq<Token>)
    requires IsLine(ts, c) && AfterLine(rest)
    ensures ParseLine(ts + rest) == Ok(c, rest)
    decreases |ts|, 3
  {
    hide ParsePipe, IsBack;
    if IsBack(ts, c) {
      BackParsed(ts, c, rest);
    } else {
      var a, b :| ts == a + [Sym(';')] + b && IsBack(a, c.left) && IsLine(b, c.right);
      var more := [Sym(';')] + (b + rest);
      assert ts + rest == a + more && more[1..] == b + rest;
      BackParsed(a, c.left, more);
      LineParsed(b, c.right, rest);
    }
  }

  // --------------------------------------- what is parsed follows the grammar

  lemma {:induction false} RedirsFollow(ts: seq<Token>) returns (a: seq<Token>)
    requires ParseRedirs(ts).Ok?
    ensures ts == a + ParseRedirs(ts).rest && IsRedirs(a, ParseRedirs(ts).value)
    decreases |ts|
  {
    if StartsRedir(ts) {
      a := RedirsFollow(ts[2..]);
      a := ts[..2] + a;
      assert a[..2] == ts[..2] && a[2..] == ts[2..][..|a| - 2];
      var rs := ParseRedirs(ts).value;
      assert rs[1..] == ParseRedirs(ts[2..]).value;
    } else {
      a := [];
    }
  }

  lemma {:induction false} SimpleAfter(a: seq<Token>, front: seq<Redirection<string>>, b: seq<Token>, args: seq<string>,
                                       rs: seq<Redirection<string>>)
    requires IsRedirs(a, front) && IsSimple(b, args, rs)
    ensures IsSimple(a + b, args, front + rs)
    decreases |front|
  {
    if front == [] {
      assert a + b == b && front + rs == rs;
    } else {
      SimpleAfter(a[2..], front[1..], b, args, rs);
      assert (a + b)[2..] == a[2..] + b && (a + b)[..2] == a[..2];
      assert (front + rs)[1..] == front[1..] + rs;
    }
  }

  lemma NothingSimple()
    ensures IsSimple([], [], [])
  {
  }

  lemma OneMoreArg(w: string, front: seq<Token>, rs: seq<Redirection<string>>, b: seq<Token>, args: seq<string>,
                   more: seq<Redirection<string>>)
    requires IsRedirs(front, rs) && IsSimple(b, args, more)
    ensures IsSimple([Word(w)] + (front + b), [w] + args, rs + more)
  {
    SimpleAfter(front, rs, b, args, more);
    assert ([Word(w)] + (front + b))[1..] == front + b && ([w] + args)[1..] == args;
  }

  lemma {:induction false} ArgsFollow(ts: seq<Token>, so: Simple<string>)
    returns (a: seq<Token>, args: seq<string>, rs: seq<Redirection<string>>)
    requires ParseArgs(ts, so).Ok? && |so.args| < MAXARGS
    ensures ts == a + ParseArgs(ts, so).rest && IsSimple(a, args, rs) && |so.args| + |args| < MAXARGS
    ensures ParseArgs(ts, so).value == Simple(so.args + args, so.redirs + rs)
    decreases |ts|
  {
    hide ParseRedirs, IsSimple, IsRedirs;
    if StartsEnd(ts) {
      a, args, rs := [], [], [];
      NothingSimple();
      assert so.args + [] == so.args && so.redirs + [] == so.redirs;
    } else {
      var front := RedirsFollow(ts[1..]);
      var r := ParseRedirs(ts[1..]);
      var more, xs, us := ArgsFollow(r.rest, Simple(so.args + [ts[0].w], so.redirs + r.value));
      OneMoreArg(ts[0].w, front, r.value, more, xs, us);
      a, args, rs := [ts[0]] + (front + more), [ts[0].w] + xs, r.value + us;
      assert so.args + [ts[0].w] + xs == so.args + args;
      assert so.redirs + r.value + us == so.redirs + rs;
    }
  }

  lemma SimpleFollows(ts: seq<Token>) returns (a: seq<Token>)
    requires ParseExec(ts).Ok? && !Starts(ts, '(')
    ensures ts == a + ParseExec(ts).rest && IsExec(a, ParseExec(ts).value)
  {
    hide ParseRedirs, ParseArgs, Wrap, IsSimple, IsRedirs;
    var front := RedirsFollow(ts);
    var r := ParseRedirs(ts);
    var more, args, rs := ArgsFollow(r.rest, Simple([], r.value));
    SimpleAfter(front, r.value, more, args, rs);
    assert [] + args == args;
    a := front + more;
  }

  lemma {:induction false} ExecFollows(ts: seq<Token>) returns (a: seq<Token>)
    requires ParseExec(ts).Ok?
    ensures ts == a + ParseExec(ts).rest && IsExec(a, ParseExec(ts).value)
    decreases |ts|, 1
  {
    hide ParseRedirs, ParseArgs, ParseLine, Wrap, IsSimple, IsRedirs;
    if Starts(ts, '(') {
      var r := ParseLine(ts[1..]);
      var inner := LineFollows(ts[1..]);
      var b := RedirsFollow(r.rest[1..]);
      a := [Sym('(')] + inner + [Sym(')')] + b;
      assert r.rest == [Sym(')')] + r.rest[1..];
      assert IsExec(a, Wrap(r.value, ParseRedirs(r.rest[1..]).value));
    } else {
      a := SimpleFollows(ts);
    }
  }

  lemma {:induction false} PipeFollows(ts: seq<Token>) returns (a: seq<Token>)
    requires ParsePipe(ts).Ok?
    ensures ts == a + ParsePipe(ts).rest && IsPipe(a, ParsePipe(ts).value)
    decreases |ts|, 2
  {
    hide ParseExec, IsExec;
    a := ExecFollows(ts);
    var r := ParseExec(ts);
    if Starts(r.rest, '|') {
      var left := a;
      var b := PipeFollows(r.rest[1..]);
      assert r.rest == [Sym('|')] + r.rest[1..];
      a := left + [Sym('|')] + b;
      assert IsExec(left, r.value);
    }
  }

  lemma {:induction false} TailFollows(front: seq<Token>, c: Cmd<string>, ts: seq<Token>) returns (a: seq<Token>)
    requires IsBack(front, c) && ParseLineTail(c, ts).Ok?
    ensures ts == a + ParseLineTail(c, ts).rest && IsLine(front + a, ParseLineTail(c, ts).value)
    decreases |ts|, 3
  {
    hide ParsePipe, IsPipe, ParseLine;
    if Starts(ts, '&') {
      var more := front + [Sym('&')];
      assert more[..|more| - 1] == front && IsBack(more, Back(c));
      a := TailFollows(more, Back(c), ts[1..]);
      assert more + a == front + ([Sym('&')] + a);
      a := [Sym('&')] + a;
    } else if Starts(ts, ';') {
      var b := LineFollows(ts[1..]);
      a := [Sym(';')] + b;
      assert front + a == front + [Sym(';')] + b;
    } else {
      a := [];
      assert front + a == front;
    }
  }

  lemma {:induction false} LineFollows(ts: seq<Token>) returns (a: seq<Token>)
    requires ParseLine(ts).Ok?
    ensures ts == a + ParseLine(ts).rest && IsLine(a, ParseLine(ts).value)
    decreases |ts|, 4
  {
    hide ParsePipe, IsPipe, IsLine, ParseLineTail;
    var front := PipeFollows(ts);
    var r := ParsePipe(ts);
    assert IsBack(front, r.value);
    var more := TailFollows(front, r.value, r.rest);
    a := front + more;
  }

  /** The parser accepts exactly the lines of the grammar, and builds the tree that the grammar gives. */
  lemma ParseIff(s: string, c: Cmd<string>)
    ensures Parse(s) == Ok(c, []) <==> IsLine(Lex(s), c)
  {
    hide Lex, ParseLine, IsLine;
    var ts := Lex(s);
    assert ts + [] == ts;
    if IsLine(ts, c) { LineParsed(ts, c, []); }
    if Parse(s) == Ok(c, []) {
      var a := LineFollows(ts);
      assert a + [] == a;
    }
  }

  /** So no line has two readings. */
  lemma OneReading(s: string, c: Cmd<string>, d: Cmd<string>)
    requires IsLine(Lex(s), c) && IsLine(Lex(s), d)
    ensures c == d
  {
    hide Lex, ParseLine, IsLine;
    ParseIff(s, c);
    ParseIff(s, d);
  }

  // -------------------------------------------------- printing is grammatical

  lemma {:induction false} WordsSimple(args: seq<string>)
    ensures IsSimple(Words(args), args, [])
  {
    if args != [] { WordsSimple(args[1..]); }
  }

  lemma {:induction false} SimpleMore(ts: seq<Token>, args: seq<string>, rs: seq<Redirection<string>>, pair: seq<Token>,
                                      r: Redirection<string>)
    requires IsSimple(ts, args, rs) && IsRedir(pair, r)
    ensures IsSimple(ts + pair, args, rs + [r])
    decreases |ts|
  {
    var ts', rs' := ts + pair, rs + [r];
    if ts == [] {
      assert ts' == pair && ts'[..2] == pair && ts'[2..] == [] && rs'[1..] == [];
    } else if args != [] && ts[0] == Word(args[0]) && IsSimple(ts[1..], args[1..], rs) {
      SimpleMore(ts[1..], args[1..], rs, pair, r);
      assert ts'[1..] == ts[1..] + pair;
    } else {
      SimpleMore(ts[2..], args, rs[1..], pair, r);
      assert ts'[2..] == ts[2..] + pair && ts'[..2] == ts[..2] && rs'[1..] == rs[1..] + [r];
    }
  }

  lemma {:induction false} RedirsMore(ts: seq<Token>, rs: seq<Redirection<string>>, pair: seq<Token>,
                                      r: Redirection<string>)
    requires IsRedirs(ts, rs) && IsRedir(pair, r)
    ensures IsRedirs(ts + pair, rs + [r])
    decreases |rs|
  {
    var ts', rs' := ts + pair, rs + [r];
    if rs == [] {
      assert ts' == pair && ts'[..2] == pair && ts'[2..] == [] && rs'[1..] == [];
    } else {
      RedirsMore(ts[2..], rs[1..], pair, r);
      assert ts'[2..] == ts[2..] + pair && ts'[..2] == ts[..2] && rs'[1..] == rs[1..] + [r];
    }
  }

  lemma WrapMore(c: Cmd<string>, rs: seq<Redirection<string>>, r: Redirection<string>)
    ensures Wrap(c, rs + [r]) == Redir(Wrap(c, rs), r.file, r.mode)
  {
    assert (rs + [r])[..|rs|] == rs;
  }

  lemma BlockIsExec(a: seq<Token>, d: Cmd<string>, b: seq<Token>, rs: seq<Redirection<string>>)
    requires IsLine(a, d) && IsRedirs(b, rs)
    ensures IsExec([Sym('(')] + a + [Sym(')')] + b, Wrap(d, rs))
  {
    hide IsLine, IsRedirs, Wrap;
  }

  lemma SimpleIsExec(ts: seq<Token>, args: seq<string>, rs: seq<Redirection<string>>)
    requires IsSimple(ts, args, rs) && |args| < MAXARGS
    ensures IsExec(ts, Wrap(Exec(args), rs))
  {
    hide IsLine, IsRedirs, Wrap, IsSimple;
  }

  /** The two forms of a command. */
  lemma ExecForms(ts: seq<Token>, c: Cmd<string>)
    returns (args: seq<string>, a: seq<Token>, b: seq<Token>, d: Cmd<string>, rs: seq<Redirection<string>>)
    requires IsExec(ts, c)
    ensures || (IsSimple(ts, args, rs) && |args| < MAXARGS && c == Wrap(Exec(args), rs))
            || (ts == [Sym('(')] + a + [Sym(')')] + b && IsLine(a, d) && IsRedirs(b, rs) && c == Wrap(d, rs))
  {
    hide IsLine, IsSimple, IsRedirs, Wrap;
    args, a, b, d, rs := [], [], [], c, [];
    if xs, us :| IsSimple(ts, xs, us) && |xs| < MAXARGS && c == Wrap(Exec(xs), us) {
      args, rs := xs, us;
    } else {
      a, b, d, rs :| ts == [Sym('(')] + a + [Sym(')')] + b && IsLine(a, d) && IsRedirs(b, rs) && c == Wrap(d, rs);
    }
  }

  /** One more redirection after a command. */
  lemma ExecMore(ts: seq<Token>, c: Cmd<string>, pair: seq<Token>, r: Redirection<string>)
    requires IsExec(ts, c) && IsRedir(pair, r)
    ensures IsExec(ts + pair, Redir(c, r.file, r.mode))
  {
    hide IsExec, IsLine, IsSimple, IsRedirs, IsRedir, Wrap;
    var args, a, b, d, rs := ExecForms(ts, c);
    if IsSimple(ts, args, rs) && |args| < MAXARGS && c == Wrap(Exec(args), rs) {
      SimpleMore(ts, args, rs, pair, r);
      WrapMore(Exec(args), rs, r);
      SimpleIsExec(ts + pair, args, rs + [r]);
    } else {
      RedirsMore(b, rs, pair, r);
      WrapMore(d, rs, r);
      BlockIsExec(a, d, b + pair, rs + [r]);
      assert ts + pair == [Sym('(')] + a + [Sym(')')] + (b + pair);
    }
  }

  lemma InParens(ts: seq<Token>, c: Cmd<string>)
    requires IsLine(ts, c)
    ensures IsExec([Sym('(')] + ts + [Sym(')')], c)
  {
    hide IsLine, IsExec;
    assert IsRedirs([], []) && Wrap(c, []) == c;
    BlockIsExec(ts, c, [], []);
    assert [Sym('(')] + ts + [Sym(')')] == [Sym('(')] + ts + [Sym(')')] + [];
  }

  lemma {:induction false} PrintedExec(c: Cmd<string>)
    requires Printable(c)
    ensures IsExec(PrintExec(c), c)
    decreases c, 1
  {
    hide IsExec, IsLine, IsSimple;
    match c
    case Exec(args) =>
      WordsSimple(args);
      assert Wrap(Exec(args), []) == c;
      SimpleIsExec(Words(args), args, []);
    case Redir(d, f, m) =>
      PrintedExec(d);
      ExecMore(PrintExec(d), d, [Sym(if m == In then '<' else '>'), Word(f)], Redirection(f, m));
    case _ =>
      PrintedBlock(c);
      InParens(PrintBlock(c), c);
  }

  lemma {:induction false} PrintedBlock(c: Cmd<string>)
    requires Printable(c) && (c.Pipe? || c.List? || c.Back?)
    ensures IsLine(PrintBlock(c), c)
    decreases c, 0
  {
    hide IsExec;
    match c
    case Pipe(l, r) =>
      PrintedExec(l);
      PrintedPipe(r);
      assert IsPipe(PrintBlock(c), c);
    case List(l, r) =>
      PrintedBack(l);
      PrintedLine(r);
    case Back(d) =>
      PrintedBack(d);
      assert PrintBlock(c)[..|PrintBlock(c)| - 1] == PrintBack(d);
      assert IsBack(PrintBlock(c), c);
  }

  lemma {:induction false} PrintedPipe(c: Cmd<string>)
    requires Printable(c)
    ensures IsPipe(PrintPipe(c), c)
    decreases c, 2
  {
    hide IsExec;
    if c.Pipe? {
      PrintedExec(c.left);
      PrintedPipe(c.right);
    } else {
      PrintedExec(c);
    }
  }

  lemma {:induction false} PrintedBack(c: Cmd<string>)
    requires Printable(c)
    ensures IsBack(PrintBack(c), c)
    decreases c, 3
  {
    hide IsPipe;
    if c.Back? {
      PrintedBack(c.cmd);
      assert PrintBack(c)[..|PrintBack(c)| - 1] == PrintBack(c.cmd);
    } else {
      PrintedPipe(c);
    }
  }

  lemma {:induction false} PrintedLine(c: Cmd<string>)
    requires Printable(c)
    ensures IsLine(PrintLine(c), c)
    decreases c, 4
  {
    hide IsBack;
    if c.List? {
      PrintedBack(c.left);
      PrintedLine(c.right);
    } else {
      PrintedBack(c);
    }
  }

  // ------------------------------------------------------------ text and back

  predicate GoodToken(t: Token) {
    if t.Word? then Good(t.w) else Symbol(t.c) || t.c == '+'
  }

  /** Only blanks: spaces, tabs, carriage returns, newlines and vertical tabs. */
  ghost predicate Blanks(s: string) {
    forall i :: 0 <= i < |s| ==> s[i] in [' ', '\t', '\r', '\n', 11 as char]
  }

  /** The text of a token, with what follows it: a word goes on to the next blank or symbol, and ">>" is one token. */
  ghost predicate Spelled(t: Token, w: string, rest: string) {
    if t.Word? then
      && w == t.w && w != ""
      && (forall i :: 0 <= i < |w| ==> !Blanks([w[i]]) && w[i] !in "<|>&;()")
      && (rest != "" ==> Blanks([rest[0]]) || rest[0] in "<|>&;()")
    else if t.c == '+' then w == ">>"
    else w == [t.c] && t.c in "<|>&;()" && (t.c == '>' && rest != "" ==> rest[0] != '>')
  }

  /** The line has these tokens, with any blanks around them. */
  ghost predicate Spells(s: string, ts: seq<Token>)
    decreases |ts|
  {
    if ts == [] then Blanks(s)
    else exists b, w, rest :: s == b + w + rest && Blanks(b) && Spelled(ts[0], w, rest) && Spells(rest, ts[1..])
  }

  lemma SpaceIs(c: char)
    ensures Space(c) <==> Blanks([c])
  {
    assert [c][0] == c;
  }

  lemma {:induction false} WordLengthIs(w: string, rest: string)
    requires w != "" && (forall i :: 0 <= i < |w| ==> WordChar(w[i])) && (rest != "" ==> !WordChar(rest[0]))
    ensures WordLength(w + rest) == |w|
    decreases |w|
  {
    assert (w + rest)[1..] == w[1..] + rest && WordChar(w[0]);
    if |w| == 1 {
      assert w[1..] + rest == rest;
    } else {
      WordLengthIs(w[1..], rest);
    }
  }

  lemma LexToken(t: Token, w: string, rest: string)
    requires Spelled(t, w, rest)
    ensures Lex(w + rest) == [t] + Lex(rest)
  {
    var s := w + rest;
    if t.Word? {
      forall i | 0 <= i < |w|
        ensures WordChar(w[i])
      {
        SpaceIs(w[i]);
      }
      if rest != "" { SpaceIs(rest[0]); }
      WordLengthIs(w, rest);
      assert s[0] == w[0] && s[..|w|] == w && s[|w|..] == rest;
    } else if t.c == '+' {
      assert s[2..] == rest;
    } else {
      assert s[1..] == rest;
    }
  }

  lemma {:induction false} LexBlanks(b: string, rest: string)
    requires Blanks(b)
    ensures Lex(b + rest) == Lex(rest)
    decreases |b|
  {
    if b == "" {
      assert b + rest == rest;
    } else {
      assert Space(b[0]) && (b + rest)[1..] == b[1..] + rest;
      LexBlanks(b[1..], rest);
    }
  }

  lemma {:induction false} SpellsLex(s: string, ts: seq<Token>)
    requires Spells(s, ts)
    ensures Lex(s) == ts
    decreases |ts|
  {
    hide Lex, Spelled;
    if ts == [] {
      LexBlanks(s, "");
      assert s + "" == s;
      LexNothing();
    } else {
      var b, w, rest :| s == b + w + rest && Blanks(b) && Spelled(ts[0], w, rest) && Spells(rest, ts[1..]);
      assert s == b + (w + rest);
      LexBlanks(b, w + rest);
      LexToken(ts[0], w, rest);
      SpellsLex(rest, ts[1..]);
    }
  }

  lemma MoreBlanks(c: char, s: string, ts: seq<Token>)
    requires Space(c) && Spells(s, ts)
    ensures Spells([c] + s, ts)
  {
    SpaceIs(c);
    if ts != [] {
      var b, w, rest :| s == b + w + rest && Blanks(b) && Spelled(ts[0], w, rest) && Spells(rest, ts[1..]);
      assert [c] + s == ([c] + b) + w + rest && Blanks([c] + b);
    }
  }

  lemma NextToken(t: Token, w: string, rest: string, ts: seq<Token>)
    requires Spelled(t, w, rest) && Spells(rest, ts)
    ensures Spells(w + rest, [t] + ts)
  {
    hide Spelled;
    assert w + rest == "" + w + rest && Blanks("") && ([t] + ts)[1..] == ts;
  }

  lemma {:induction false} LexSpells(s: string)
    ensures Spells(s, Lex(s))
    decreases |s|
  {
    hide Spells;
    if s == "" {
      assert Spells("", []) by { NoTokens(); }
    } else if Space(s[0]) {
      LexSpells(s[1..]);
      MoreBlanks(s[0], s[1..], Lex(s[1..]));
      assert s == [s[0]] + s[1..];
    } else {
      var t := Lex(s)[0];
      var n := if t.Word? then WordLength(s) else if t.c == '+' then 2 else 1;
      var w, rest := s[..n], s[n..];
      assert s == w + rest;
      if t.Word? {
        forall i | 0 <= i < n
          ensures !Blanks([w[i]]) && w[i] !in "<|>&;()"
        {
          SpaceIs(w[i]);
        }
      }
      if rest != "" { SpaceIs(rest[0]); }
      assert Spelled(t, w, rest);
      LexSpells(rest);
      NextToken(t, w, rest, Lex(rest));
    }
  }

  lemma NoTokens()
    ensures Spells("", [])
  {
  }

  /** The lexer finds exactly the tokens that the line spells. */
  lemma LexIff(s: string, ts: seq<Token>)
    ensures Lex(s) == ts <==> Spells(s, ts)
  {
    hide Lex, Spells;
    LexSpells(s);
    if Spells(s, ts) { SpellsLex(s, ts); }
  }

  lemma {:induction false} LexRender(ts: seq<Token>)
    requires forall i :: 0 <= i < |ts| ==> GoodToken(ts[i])
    ensures Lex(Render(ts)) == ts
  {
    hide Lex;
    if ts == [] {
      LexNothing();
    } else {
      assert GoodToken(ts[0]);
      LexRender(ts[1..]);
      var w := if ts[0].Word? then ts[0].w else if ts[0].c == '+' then ">>" else [ts[0].c];
      var rest := " " + Render(ts[1..]);
      if ts[0].Word? {
        forall i | 0 <= i < |w|
          ensures !Blanks([w[i]]) && w[i] !in "<|>&;()"
        {
          SpaceIs(w[i]);
        }
      }
      SpaceIs(rest[0]);
      assert Spelled(ts[0], w, rest);
      LexToken(ts[0], w, rest);
      LexBlanks(" ", Render(ts[1..]));
      assert Render(ts) == w + rest;
    }
  }

  lemma LexNothing()
    ensures Lex("") == []
  {
  }

  /** Good tokens make a C string. */
  lemma {:induction false} RenderNulFree(ts: seq<Token>)
    requires forall i :: 0 <= i < |ts| ==> GoodToken(ts[i])
    ensures NulFree(Render(ts))
  {
    if ts != [] {
      assert GoodToken(ts[0]);
      RenderNulFree(ts[1..]);
    }
  }

  ghost predicate AllGood(ts: seq<Token>) {
    forall i :: 0 <= i < |ts| ==> GoodToken(ts[i])
  }

  lemma {:induction false} WordsGood(args: seq<string>)
    requires forall i :: 0 <= i < |args| ==> Good(args[i])
    ensures AllGood(Words(args))
  {
    if args != [] { WordsGood(args[1..]); }
  }

  lemma {:induction false} PrintGood(c: Cmd<string>)
    requires Printable(c)
    ensures AllGood(PrintExec(c)) && AllGood(PrintPipe(c)) && AllGood(PrintBack(c)) && AllGood(PrintLine(c))
    decreases c
  {
    hide Good;
    match c
    case Exec(args) => WordsGood(args);
    case Redir(d, f, m) => PrintGood(d);
    case Pipe(l, r) =>
      PrintGood(l);
      PrintGood(r);
      assert AllGood(PrintBlock(c));
    case List(l, r) =>
      PrintGood(l);
      PrintGood(r);
      assert AllGood(PrintBlock(c));
    case Back(d) =>
      PrintGood(d);
      assert AllGood(PrintBlock(c));
  }

  /** The printed form of every command tree is a C string that parses to that tree. */
  lemma RoundTrip(c: Cmd<string>)
    requires Printable(c)
    ensures Parse(Render(PrintLine(c))) == Ok(c, []) && NulFree(Render(PrintLine(c)))
  {
    hide Lex, Render, PrintLine, ParseLine, NulFree, IsLine;
    PrintGood(c);
    RenderNulFree(PrintLine(c));
    LexRender(PrintLine(c));
    PrintedLine(c);
    ParseIff(Render(PrintLine(c)), c);
  }

  // ---------------------------------------- what the parser can build at all

  lemma {:induction false} LexGood(s: string)
    requires NulFree(s)
    ensures AllGood(Lex(s))
    decreases |s|
  {
    if s == "" {
    } else if Space(s[0]) {
      LexGood(s[1..]);
    } else if s[0] == '>' && |s| > 1 && s[1] == '>' {
      LexGood(s[2..]);
    } else if Symbol(s[0]) {
      LexGood(s[1..]);
    } else {
      LexGood(s[WordLength(s)..]);
    }
  }

  predicate GoodRedirs(rs: seq<Redirection<string>>) {
    forall i :: 0 <= i < |rs| ==> Good(rs[i].file)
  }

  lemma {:induction false} WrapPrintable(c: Cmd<string>, rs: seq<Redirection<string>>)
    requires Printable(c) && GoodRedirs(rs)
    ensures Printable(Wrap(c, rs))
    decreases |rs|
  {
    if rs != [] { WrapPrintable(c, rs[..|rs| - 1]); }
  }

  lemma {:induction false} RedirsGood(ts: seq<Token>)
    requires AllGood(ts)
    ensures var r := ParseRedirs(ts); r.Ok? ==> GoodRedirs(r.value) && AllGood(r.rest)
    decreases |ts|
  {
    if StartsRedir(ts) && |ts| >= 2 && ts[1].Word? {
      assert GoodToken(ts[1]);
      RedirsGood(ts[2..]);
    }
  }

  lemma {:induction false} ArgsGood(ts: seq<Token>, so: Simple<string>)
    requires AllGood(ts) && GoodRedirs(so.redirs) && Printable(Exec(so.args))
    ensures var r := ParseArgs(ts, so); r.Ok? ==>
            GoodRedirs(r.value.redirs) && Printable(Exec(r.value.args)) && AllGood(r.rest)
    decreases |ts|
  {
    if !StartsEnd(ts) && ts[0].Word? && |so.args| + 1 < MAXARGS {
      assert GoodToken(ts[0]);
      RedirsGood(ts[1..]);
      var r := ParseRedirs(ts[1..]);
      if r.Ok? { ArgsGood(r.rest, Simple(so.args + [ts[0].w], so.redirs + r.value)); }
    }
  }

  /** The command is printable and what is left is still good. */
  predicate Sound(r: Parsed<Cmd<string>>) {
    r.Ok? ==> Printable(r.value) && forall i :: 0 <= i < |r.rest| ==> GoodToken(r.rest[i])
  }

  lemma {:induction false} LineSound(ts: seq<Token>)
    requires AllGood(ts)
    ensures Sound(ParseLine(ts))
    decreases |ts|, 4
  {
    PipeSound(ts);
    var r := ParsePipe(ts);
    if r.Ok? { TailSound(r.value, r.rest); }
  }

  lemma {:induction false} TailSound(c: Cmd<string>, ts: seq<Token>)
    requires AllGood(ts) && Printable(c)
    ensures Sound(ParseLineTail(c, ts))
    decreases |ts|, 3
  {
    if Starts(ts, '&') {
      TailSound(Back(c), ts[1..]);
    } else if Starts(ts, ';') {
      LineSound(ts[1..]);
    }
  }

  lemma {:induction false} PipeSound(ts: seq<Token>)
    requires AllGood(ts)
    ensures Sound(ParsePipe(ts))
    decreases |ts|, 2
  {
    ExecSound(ts);
    var r := ParseExec(ts);
    if r.Ok? && Starts(r.rest, '|') { PipeSound(r.rest[1..]); }
  }

  lemma {:induction false} ExecSound(ts: seq<Token>)
    requires AllGood(ts)
    ensures Sound(ParseExec(ts))
    decreases |ts|, 1
  {
    if Starts(ts, '(') {
      BlockSound(ts);
    } else {
      RedirsGood(ts);
      var r := ParseRedirs(ts);
      if r.Ok? {
        ArgsGood(r.rest, Simple([], r.value));
        var a := ParseArgs(r.rest, Simple([], r.value));
        if a.Ok? { WrapPrintable(Exec(a.value.args), a.value.redirs); }
      }
    }
  }

  lemma {:induction false} BlockSound(ts: seq<Token>)
    requires AllGood(ts) && Starts(ts, '(')
    ensures Sound(ParseBlock(ts))
    decreases |ts|, 0
  {
    LineSound(ts[1..]);
    var r := ParseLine(ts[1..]);
    if r.Ok? && Starts(r.rest, ')') {
      RedirsGood(r.rest[1..]);
      var rs := ParseRedirs(r.rest[1..]);
      if rs.Ok? { WrapPrintable(r.value, rs.value); }
    }
  }

  /** The printable trees are exactly the ones the parser can build from a C string. */
  lemma PrintableIff(c: Cmd<string>)
    ensures Printable(c) <==> exists s :: NulFree(s) && Parse(s) == Ok(c, [])
  {
    hide Lex, ParseLine, Printable, Render, PrintLine, NulFree;
    if Printable(c) { RoundTrip(c); }
    if s :| NulFree(s) && Parse(s) == Ok(c, []) {
      LexGood(s);
      LineSound(Lex(s));
    }
  }
}

/**
 The grammar of sh.c over tokens. W is what a word is: a pair of pointers in the shell, a
 string in the theorems. A panic of the parser is Fail.
 */
module ShParse {

  const MAXARGS := 10

  /** A symbol, with '+' for >>, or a word. */
  datatype Tok<W> = Sym(c: char) | Word(w: W)

  /** How a redirection opens its file, and as which descriptor. */
  datatype How = How(mode: nat, fd: nat)

  const O_RDONLY := 0
  const O_WRONLY := 1
  const O_CREATE := 0x200

  /** The switch of parseredirs, case by case; '+' is >>. */
  function HowOf(tok: char): How {
    if tok == '<' then How(O_RDONLY, 0)
    else if tok == '>' then How(O_WRONLY + O_CREATE, 1)
    else How(O_WRONLY + O_CREATE, 1)
  }

  datatype Cmd<W> =
    | Exec(argv: seq<W>)
    | Redir(cmd: Cmd<W>, file: W, how: How)
    | Pipe(left: Cmd<W>, right: Cmd<W>)
    | List(left: Cmd<W>, right: Cmd<W>)
    | Back(cmd: Cmd<W>)

  datatype Result<W> = Fail | Ok(cmd: Cmd<W>, rest: seq<Tok<W>>)

  /** Redirections in the order of the text; the parser wraps the command in them one by one. */
  datatype Redirs<W> = Bad | Got(rs: seq<(W, How)>, rest: seq<Tok<W>>)

  predicate Starts<W>(ts: seq<Tok<W>>, c: char) { ts != [] && ts[0] == Sym(c) }

  /** A redirection comes next: peek(ps, es, "<>"). */
  predicate RedirNext<W>(ts: seq<Tok<W>>) { ts != [] && ts[0].Sym? && (ts[0].c == '<' || ts[0].c == '>' || ts[0].c == '+') }

  /** The words are over: peek(ps, es, "|)&;"). */
  predicate StopNext<W>(ts: seq<Tok<W>>) { ts != [] && ts[0].Sym? && (ts[0].c == '|' || ts[0].c == ')' || ts[0].c == '&' || ts[0].c == ';') }

  function Wrap<W>(c: Cmd<W>, rs: seq<(W, How)>): Cmd<W> {
    if rs == [] then c else Redir(Wrap(c, rs[..|rs| - 1]), rs[|rs| - 1].0, rs[|rs| - 1].1)
  }

  // ----- The parser -----

  function ParseRedirs<W>(rs: seq<(W, How)>, ts: seq<Tok<W>>): (r: Redirs<W>)
    ensures r.Got? ==> |r.rest| <= |ts| && !RedirNext(r.rest)
    decreases |ts|
  {
    if !RedirNext(ts) then Got(rs, ts)
    else if |ts| < 2 || ts[1].Sym? then Bad
    else ParseRedirs(rs + [(ts[1].w, HowOf(ts[0].c))], ts[2..])
  }

  /** parseexec's loop: words, each with the redirections after it. */
  function ParseArgs<W>(argv: seq<W>, rs: seq<(W, How)>, ts: seq<Tok<W>>): (r: Result<W>)
    ensures r.Ok? ==> |r.rest| <= |ts|
    decreases |ts|
  {
    if ts == [] || StopNext(ts) then Ok(Wrap(Exec(argv), rs), ts)
    else if ts[0].Sym? then Fail
    else if |argv| + 1 >= MAXARGS then Fail
    else match ParseRedirs(rs, ts[1..])
      case Bad => Fail
      case Got(rs', rest) => ParseArgs(argv + [ts[0].w], rs', rest)
  }

  function ParseExec<W>(ts: seq<Tok<W>>): (r: Result<W>)
    ensures r.Ok? ==> |r.rest| <= |ts|
    decreases |ts|, 0
  {
    if Starts(ts, '(') then
      match ParseLine(ts[1..])
      case Fail => Fail
      case Ok(c, rest) =>
        if !Starts(rest, ')') then Fail
        else match ParseRedirs([], rest[1..])
          case Bad => Fail
          case Got(rs, rest') => Ok(Wrap(c, rs), rest')
    else
      match ParseRedirs([], ts)
      case Bad => Fail
      case Got(rs, rest) => ParseArgs([], rs, rest)
  }

  function ParsePipe<W>(ts: seq<Tok<W>>): (r: Result<W>)
    ensures r.Ok? ==> |r.rest| <= |ts|
    decreases |ts|, 1
  {
    match ParseExec(ts)
    case Fail => Fail
    case Ok(c, rest) =>
      if !Starts(rest, '|') then Ok(c, rest)
      else match ParsePipe(rest[1..])
        case Fail => Fail
        case Ok(d, rest') => Ok(Pipe(c, d), rest')
  }

  /** parseline after its first command. */
  function ParseTail<W>(c: Cmd<W>, ts: seq<Tok<W>>): (r: Result<W>)
    ensures r.Ok? ==> |r.rest| <= |ts|
    decreases |ts|, 2
  {
    if Starts(ts, '&') then ParseTail(Back(c), ts[1..])
    else if Starts(ts, ';') then
      match ParseLine(ts[1..])
      case Fail => Fail
      case Ok(d, rest) => Ok(List(c, d), rest)
    else Ok(c, ts)
  }

  function ParseLine<W>(ts: seq<Tok<W>>): (r: Result<W>)
    ensures r.Ok? ==> |r.rest| <= |ts|
    decreases |ts|, 3
  {
    match ParsePipe(ts)
    case Fail => Fail
    case Ok(c, rest) => ParseTail(c, rest)
  }

  // ----- The printer -----

  /** A command without the redirections around it, and they. */
  function Core<W>(c: Cmd<W>): Cmd<W> { if c.Redir? then Core(c.cmd) else c }

  function Around<W>(c: Cmd<W>): seq<(W, How)> { if c.Redir? then Around(c.cmd) + [(c.file, c.how)] else [] }

  /** The symbol for a redirection that the parser can make. */
  function SymOf(how: How): char { if how == How(0, 0) then '<' else '>' }
  predicate Known(how: How) { how == How(0, 0) || how == How(0x201, 1) }
  predicate AllKnown<W>(rs: seq<(W, How)>) { forall k :: 0 <= k < |rs| ==> Known(rs[k].1) }

  function PrintRedirs<W>(rs: seq<(W, How)>): seq<Tok<W>> {
    if rs == [] then [] else PrintRedirs(rs[..|rs| - 1]) + [Sym(SymOf(rs[|rs| - 1].1)), Word(rs[|rs| - 1].0)]
  }

  function PrintWords<W>(ws: seq<W>): seq<Tok<W>> {
    if ws == [] then [] else [Word(ws[0])] + PrintWords(ws[1..])
  }

  /** A command as an operand: in brackets, unless it is words and redirections. */
  function PrintExec<W>(c: Cmd<W>): seq<Tok<W>>
    decreases c, if c.Exec? || c.Redir? then 0 else 4
  {
    CoreSmaller(c);
    (if Core(c).Exec? then PrintWords(Core(c).argv) else [Sym('(')] + PrintLine(Core(c)) + [Sym(')')]) + PrintRedirs(Around(c))
  }

  function PrintPipe<W>(c: Cmd<W>): seq<Tok<W>>
    decreases c, if c.Back? || c.List? then 5 else 1
  {
    if c.Pipe? then PrintExec(c.left) + [Sym('|')] + PrintPipe(c.right) else PrintExec(c)
  }

  function PrintBack<W>(c: Cmd<W>): seq<Tok<W>>
    decreases c, if c.List? then 6 else 2
  {
    if c.Back? then PrintBack(c.cmd) + [Sym('&')] else PrintPipe(c)
  }

  /** A whole line. */
  function PrintLine<W>(c: Cmd<W>): seq<Tok<W>>
    decreases c, 3
  {
    if c.List? then PrintBack(c.left) + [Sym(';')] + PrintLine(c.right) else PrintBack(c)
  }

  lemma CoreSmaller<W>(c: Cmd<W>)
    ensures c.Redir? ==> Core(c) < c
    ensures !Core(c).Redir? && (!c.Redir? ==> Core(c) == c)
  {
  }

  /** No command has more words than execcmd has room for, beside the final null, and each redirection is one of the two. */
  predicate Fits<W>(c: Cmd<W>) {
    match c
    case Exec(argv) => |argv| < MAXARGS
    case Redir(d, _, how) => Known(how) && Fits(d)
    case Pipe(l, r) => Fits(l) && Fits(r)
    case List(l, r) => Fits(l) && Fits(r)
    case Back(d) => Fits(d)
  }

  // ----- The round trip -----

  /** What may follow a command of each kind. */
  predicate EndsExec<W>(ts: seq<Tok<W>>) { ts == [] || StopNext(ts) }
  predicate EndsPipe<W>(ts: seq<Tok<W>>) { EndsExec(ts) && !Starts(ts, '|') }
  predicate EndsLine<W>(ts: seq<Tok<W>>) { ts == [] || Starts(ts, ')') }

  lemma {:induction false} RedirsBack<W>(done: seq<(W, How)>, rs: seq<(W, How)>, rest: seq<Tok<W>>)
    requires !RedirNext(rest) && AllKnown(rs)
    ensures ParseRedirs(done, PrintRedirs(rs) + rest) == Got(done + rs, rest)
    decreases |rs|
  {
    if rs == [] {
      assert PrintRedirs(rs) + rest == rest && done + rs == done;
    } else {
      PrintRedirsFirst(rs);
      var r := rs[0];
      var ts := PrintRedirs(rs) + rest;
      assert ts[0] == Sym(SymOf(r.1)) && ts[1] == Word(r.0);
      assert ts[2..] == PrintRedirs(rs[1..]) + rest;
      RedirsBack(done + [r], rs[1..], rest);
      assert done + [r] + rs[1..] == done + rs;
    }
  }

  lemma {:induction false} PrintRedirsFirst<W>(rs: seq<(W, How)>)
    requires rs != []
    ensures PrintRedirs(rs) == [Sym(SymOf(rs[0].1)), Word(rs[0].0)] + PrintRedirs(rs[1..])
    decreases |rs|
  {
    var n := |rs| - 1;
    if n > 0 {
      PrintRedirsFirst(rs[..n]);
      assert rs[..n][1..] == rs[1..][..n - 1];
    }
  }

  lemma {:induction false} WrapBack<W>(c: Cmd<W>)
    ensures Wrap(Core(c), Around(c)) == c
  {
    if c.Redir? {
      WrapBack(c.cmd);
      var rs := Around(c);
      assert rs[..|rs| - 1] == Around(c.cmd);
    }
  }

  // One step of the parser each.

  lemma ArgsStep<W>(argv: seq<W>, rs: seq<(W, How)>, ts: seq<Tok<W>>, rs': seq<(W, How)>, rest: seq<Tok<W>>)
    requires ts != [] && ts[0].Word? && |argv| + 1 < MAXARGS && ParseRedirs(rs, ts[1..]) == Got(rs', rest)
    ensures ParseArgs(argv, rs, ts) == ParseArgs(argv + [ts[0].w], rs', rest)
  {
    hide ParseRedirs;
  }

  lemma ArgsStop<W>(argv: seq<W>, rs: seq<(W, How)>, ts: seq<Tok<W>>)
    requires EndsExec(ts)
    ensures ParseArgs(argv, rs, ts) == Ok(Wrap(Exec(argv), rs), ts)
  {
  }

  lemma RedirsNone<W>(rs: seq<(W, How)>, ts: seq<Tok<W>>)
    requires !RedirNext(ts)
    ensures ParseRedirs(rs, ts) == Got(rs, ts)
  {
  }

  lemma ExecWords<W>(ts: seq<Tok<W>>, rs: seq<(W, How)>, rest: seq<Tok<W>>)
    requires !Starts(ts, '(') && ParseRedirs([], ts) == Got(rs, rest)
    ensures ParseExec(ts) == ParseArgs([], rs, rest)
  {
    hide ParseRedirs, ParseArgs;
  }

  lemma ExecBlock<W>(ts: seq<Tok<W>>, c: Cmd<W>, mid: seq<Tok<W>>, rs: seq<(W, How)>, rest: seq<Tok<W>>)
    requires Starts(ts, '(') && ParseLine(ts[1..]) == Ok(c, mid) && Starts(mid, ')') && ParseRedirs([], mid[1..]) == Got(rs, rest)
    ensures ParseExec(ts) == Ok(Wrap(c, rs), rest)
  {
    hide ParseRedirs, ParseArgs, ParseLine, Wrap;
  }

  /** Words and then redirections. */
  lemma {:induction false} ArgsBack<W>(argv: seq<W>, ws: seq<W>, rs: seq<(W, How)>, rest: seq<Tok<W>>)
    requires |argv| + |ws| < MAXARGS && EndsExec(rest) && ws != [] && AllKnown(rs)
    ensures ParseArgs(argv, [], PrintWords(ws) + PrintRedirs(rs) + rest) == Ok(Wrap(Exec(argv + ws), rs), rest)
    decreases |ws|
  {
    hide ParseArgs, ParseRedirs, Wrap, PrintRedirs;
    var ts := PrintWords(ws) + PrintRedirs(rs) + rest;
    assert ts[0] == Word(ws[0]) && ts[1..] == PrintWords(ws[1..]) + PrintRedirs(rs) + rest;
    assert argv + [ws[0]] + ws[1..] == argv + ws;
    if |ws| == 1 {
      assert ts[1..] == PrintRedirs(rs) + rest;
      RedirsBack([], rs, rest);
      assert [] + rs == rs;
      ArgsStep(argv, [], ts, rs, rest);
      ArgsStop(argv + [ws[0]], rs, rest);
      assert argv + [ws[0]] == argv + ws;
    } else {
      assert ts[1] == Word(ws[1]);
      RedirsNone([], ts[1..]);
      ArgsStep(argv, [], ts, [], ts[1..]);
      ArgsBack(argv + [ws[0]], ws[1..], rs, rest);
    }
  }

  lemma {:induction false} ExecBack<W>(c: Cmd<W>, rest: seq<Tok<W>>)
    requires Fits(c) && EndsExec(rest)
    ensures ParseExec(PrintExec(c) + rest) == Ok(c, rest)
    decreases c, if c.Exec? || c.Redir? then 0 else 4
  {
    CoreSmaller(c);
    WrapBack(c);
    CoreFits(c);
    hide ParseExec, ParseRedirs, ParseLine, Wrap, PrintRedirs, PrintWords, PrintLine, Core, Around;
    var k, rs := Core(c), Around(c);
    if k.Exec? {
      WordsBack(k.argv, rs, rest);
    } else {
      var tail := PrintRedirs(rs) + rest;
      var ts := PrintExec(c) + rest;
      assert ts == [Sym('(')] + (PrintLine(k) + ([Sym(')')] + tail));
      LineBack(k, [Sym(')')] + tail);
      assert ([Sym(')')] + tail)[1..] == tail;
      RedirsBack([], rs, rest);
      assert [] + rs == rs;
      assert ts[1..] == PrintLine(k) + ([Sym(')')] + tail);
      ExecBlock(ts, k, [Sym(')')] + tail, rs, rest);
    }
  }

  lemma {:induction false} CoreFits<W>(c: Cmd<W>)
    requires Fits(c)
    ensures Fits(Core(c)) && AllKnown(Around(c))
  {
    if c.Redir? { CoreFits(c.cmd); }
  }

  lemma {:induction false} WordsBack<W>(ws: seq<W>, rs: seq<(W, How)>, rest: seq<Tok<W>>)
    requires |ws| < MAXARGS && EndsExec(rest) && AllKnown(rs)
    ensures ParseExec(PrintWords(ws) + PrintRedirs(rs) + rest) == Ok(Wrap(Exec(ws), rs), rest)
  {
    hide ParseArgs, ParseRedirs, PrintRedirs, ParseExec, Wrap;
    var ts := PrintWords(ws) + PrintRedirs(rs) + rest;
    if ws == [] {
      assert ts == PrintRedirs(rs) + rest;
      NoBracket(rs, rest);
      RedirsBack([], rs, rest);
      assert [] + rs == rs;
      ExecWords(ts, rs, rest);
      ArgsStop([], rs, rest);
    } else {
      assert ts[0] == Word(ws[0]);
      RedirsNone([], ts);
      ExecWords(ts, [], ts);
      ArgsBack([], ws, rs, rest);
      assert [] + ws == ws;
    }
  }

  lemma {:induction false} NoBracket<W>(rs: seq<(W, How)>, rest: seq<Tok<W>>)
    requires EndsExec(rest)
    ensures !Starts(PrintRedirs(rs) + rest, '(')
  {
    if rs != [] { PrintRedirsFirst(rs); }
  }

  lemma {:induction false} PipeBack<W>(c: Cmd<W>, rest: seq<Tok<W>>)
    requires Fits(c) && EndsPipe(rest)
    ensures ParsePipe(PrintPipe(c) + rest) == Ok(c, rest)
    decreases c, if c.Back? || c.List? then 5 else 1
  {
    hide ParseExec, PrintExec, Known;
    if c.Pipe? {
      var tail := [Sym('|')] + (PrintPipe(c.right) + rest);
      assert PrintPipe(c) + rest == PrintExec(c.left) + tail;
      ExecBack(c.left, tail);
      assert tail[1..] == PrintPipe(c.right) + rest;
      PipeBack(c.right, rest);
    } else {
      ExecBack(c, rest);
    }
  }

  /** What parseline does with the text of c, up to its ampersands, whatever follows. */
  lemma {:induction false} BackBack<W>(c: Cmd<W>, rest: seq<Tok<W>>)
    requires Fits(c) && EndsPipe(rest)
    ensures ParseLine(PrintBack(c) + rest) == ParseTail(c, rest)
    decreases c, if c.List? then 6 else 2
  {
    if c.Back? {
      assert PrintBack(c) + rest == PrintBack(c.cmd) + ([Sym('&')] + rest);
      BackBack(c.cmd, [Sym('&')] + rest);
      assert ([Sym('&')] + rest)[1..] == rest;
    } else {
      PipeBack(c, rest);
    }
  }

  /** Parsing inverts printing, for every command tree. */
  lemma {:induction false} LineBack<W>(c: Cmd<W>, rest: seq<Tok<W>>)
    requires Fits(c) && EndsLine(rest)
    ensures ParseLine(PrintLine(c) + rest) == Ok(c, rest)
    decreases c, 3
  {
    if c.List? {
      var tail := [Sym(';')] + (PrintLine(c.right) + rest);
      assert PrintLine(c) + rest == PrintBack(c.left) + tail;
      BackBack(c.left, tail);
      assert tail[1..] == PrintLine(c.right) + rest;
      LineBack(c.right, rest);
    } else {
      BackBack(c, rest);
    }
  }
}

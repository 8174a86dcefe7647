/**
 What the parser of sh.c makes of any list of tokens, said without the parser: which file each redirection
 opens and how, that brackets match and no word is lost or made up, and the lines it refuses.
 */
module ShGrammar {
  import opened ShParse

  // ----- Redirections -----

  /** The k-th pair of tokens is a redirection and its file. */
  predicate Pair<W>(ts: seq<Tok<W>>, k: nat) {
    2 * k + 1 < |ts| && ts[2 * k].Sym? && ts[2 * k].c in "<>+" && ts[2 * k + 1].Word?
  }

  /** What the k-th pair asks for is there, after `base` others: to read as descriptor 0, or to write and create as descriptor 1. */
  ghost predicate Asked<W>(ts: seq<Tok<W>>, rs: seq<(W, How)>, base: nat, k: nat) {
    && Pair(ts, k) && base + k < |rs| && rs[base + k].0 == ts[2 * k + 1].w
    && var how := rs[base + k].1;
       if ts[2 * k].c == '<' then how.mode == 0 && how.fd == 0 else how.mode == 0x201 && how.fd == 1
  }

  lemma Shifted<W>(ts: seq<Tok<W>>, rs: seq<(W, How)>, base: nat, k: nat)
    requires |ts| >= 2
    ensures Pair(ts, k + 1) <==> Pair(ts[2..], k)
    ensures Asked(ts[2..], rs, base + 1, k) ==> Asked(ts, rs, base, k + 1)
  {
  }

  lemma FirstAsked<W>(ts: seq<Tok<W>>, rs: seq<(W, How)>, rs': seq<(W, How)>)
    requires Pair(ts, 0) && rs + [(ts[1].w, HowOf(ts[0].c))] <= rs'
    ensures Asked(ts, rs', |rs|, 0)
  {
    assert rs'[|rs|] == (rs + [(ts[1].w, HowOf(ts[0].c))])[|rs|];
  }

  /** parseredirs takes the pairs at the front, one redirection for each, and fails exactly if a symbol without a file is next. */
  lemma {:induction false} RedirsAre<W>(rs: seq<(W, How)>, ts: seq<Tok<W>>) returns (n: nat)
    ensures 2 * n <= |ts| && (forall k :: 0 <= k < n ==> Pair(ts, k)) && !Pair(ts, n)
    ensures ParseRedirs(rs, ts).Bad? <==> 2 * n < |ts| && ts[2 * n].Sym? && ts[2 * n].c in "<>+"
    ensures match ParseRedirs(rs, ts)
            case Bad => true
            case Got(rs', rest) =>
              rest == ts[2 * n..] && |rs'| == |rs| + n && rs <= rs' && forall k :: 0 <= k < n ==> Asked(ts, rs', |rs|, k)
    decreases |ts|
  {
    RedirsStep(rs, ts);
    if Pair(ts, 0) {
      var r := (ts[1].w, HowOf(ts[0].c));
      hide ParseRedirs, HowOf, Asked;
      var m := RedirsAre(rs + [r], ts[2..]);
      n := m + 1;
      Shifted(ts, rs, |rs|, m);
      assert ts[2..][2 * m..] == ts[2 * n..];
      forall k | 0 < k < n ensures Pair(ts, k) {
        Shifted(ts, rs, |rs|, k - 1);
      }
      if ParseRedirs(rs, ts).Got? {
        var rs' := ParseRedirs(rs, ts).rs;
        assert rs + [r] <= rs';
        FirstAsked(ts, rs, rs');
        forall k | 0 < k < n ensures Asked(ts, rs', |rs|, k) {
          assert Asked(ts[2..], rs', |rs| + 1, k - 1);
          Shifted(ts, rs', |rs|, k - 1);
        }
      }
    } else {
      n := 0;
    }
  }

  // ----- Nothing lost, nothing made up -----

  /** Brackets opened less brackets closed. */
  function Depth<W>(ts: seq<Tok<W>>): int {
    if ts == [] then 0 else (if ts[0] == Sym('(') then 1 else if ts[0] == Sym(')') then -1 else 0) + Depth(ts[1..])
  }

  ghost function WordsOf<W>(ts: seq<Tok<W>>): multiset<W> {
    if ts == [] then multiset{} else (if ts[0].Word? then multiset{ts[0].w} else multiset{}) + WordsOf(ts[1..])
  }

  ghost function Files<W>(rs: seq<(W, How)>): multiset<W> {
    if rs == [] then multiset{} else Files(rs[..|rs| - 1]) + multiset{rs[|rs| - 1].0}
  }

  /** The words and file names of a command. */
  ghost function WordsIn<W>(c: Cmd<W>): multiset<W> {
    match c
    case Exec(argv) => multiset(argv)
    case Redir(d, file, _) => WordsIn(d) + multiset{file}
    case Pipe(l, r) => WordsIn(l) + WordsIn(r)
    case List(l, r) => WordsIn(l) + WordsIn(r)
    case Back(d) => WordsIn(d)
  }

  /** From ts, with `had` in hand already, the parser made c and left rest. */
  ghost predicate Made<W>(had: multiset<W>, ts: seq<Tok<W>>, r: Result<W>) {
    r.Ok? ==> Fits(r.cmd) && Depth(ts) == Depth(r.rest) && had + WordsOf(ts) == WordsIn(r.cmd) + WordsOf(r.rest)
  }

  lemma {:induction false} RedirsMade<W>(rs: seq<(W, How)>, ts: seq<Tok<W>>)
    ensures match ParseRedirs(rs, ts)
            case Bad => true
            case Got(rs', rest) =>
              (AllKnown(rs) ==> AllKnown(rs')) && Depth(ts) == Depth(rest) && Files(rs) + WordsOf(ts) == Files(rs') + WordsOf(rest)
    decreases |ts|
  {
    hide ParseRedirs, Files, WordsOf, Depth, HowOf, AllKnown;
    RedirsStep(rs, ts);
    if Pair(ts, 0) {
      var r := (ts[1].w, HowOf(ts[0].c));
      PairOff(rs, ts, r);
      OneKnown(rs, ts[1].w, ts[0].c);
      RedirsMade(rs + [r], ts[2..]);
    }
  }

  lemma RedirsStep<W>(rs: seq<(W, How)>, ts: seq<Tok<W>>)
    ensures if Pair(ts, 0) then ParseRedirs(rs, ts) == ParseRedirs(rs + [(ts[1].w, HowOf(ts[0].c))], ts[2..])
            else ParseRedirs(rs, ts) == Bad || ParseRedirs(rs, ts) == Got(rs, ts)
  {
  }

  lemma OneKnown<W>(rs: seq<(W, How)>, w: W, tok: char)
    ensures AllKnown(rs) ==> AllKnown(rs + [(w, HowOf(tok))])
  {
  }

  /** A symbol in front has no word in it, and is one bracket or none. */
  lemma SymOff<W>(ts: seq<Tok<W>>)
    requires ts != [] && ts[0].Sym?
    ensures WordsOf(ts) == WordsOf(ts[1..])
    ensures Depth(ts) == Depth(ts[1..]) + if ts[0].c == '(' then 1 else if ts[0].c == ')' then -1 else 0
  {
    assert multiset{} + WordsOf(ts[1..]) == WordsOf(ts[1..]);
  }

  lemma PairOff<W>(rs: seq<(W, How)>, ts: seq<Tok<W>>, r: (W, How))
    requires Pair(ts, 0) && r.0 == ts[1].w
    ensures Depth(ts) == Depth(ts[2..])
    ensures Files(rs + [r]) + WordsOf(ts[2..]) == Files(rs) + WordsOf(ts)
  {
    assert (rs + [r])[..|rs|] == rs && ts[1..][1..] == ts[2..];
    assert WordsOf(ts) == WordsOf(ts[1..]) && WordsOf(ts[1..]) == multiset{r.0} + WordsOf(ts[2..]);
  }

  lemma {:induction false} WrapMade<W>(c: Cmd<W>, rs: seq<(W, How)>)
    ensures WordsIn(Wrap(c, rs)) == WordsIn(c) + Files(rs) && (Fits(c) && AllKnown(rs) ==> Fits(Wrap(c, rs)))
  {
    if rs != [] { WrapMade(c, rs[..|rs| - 1]); }
  }

  lemma {:induction false} ArgsMade<W>(argv: seq<W>, rs: seq<(W, How)>, ts: seq<Tok<W>>)
    requires |argv| < MAXARGS && AllKnown(rs)
    ensures Made(multiset(argv) + Files(rs), ts, ParseArgs(argv, rs, ts))
    decreases |ts|
  {
    if ts == [] || StopNext(ts) {
      WrapMade(Exec(argv), rs);
    } else if ts[0].Word? && |argv| + 1 < MAXARGS {
      RedirsMade(rs, ts[1..]);
      var r := ParseRedirs(rs, ts[1..]);
      if r.Got? {
        ArgsStep(argv, rs, ts, r.rs, r.rest);
        hide ParseArgs, ParseRedirs, Files, Fits;
        ArgsMade(argv + [ts[0].w], r.rs, r.rest);
        assert Depth(ts) == Depth(ts[1..]) && WordsOf(ts) == multiset{ts[0].w} + WordsOf(ts[1..]);
        assert multiset(argv + [ts[0].w]) == multiset(argv) + multiset{ts[0].w};
        Regroup(multiset(argv), multiset{ts[0].w}, Files(rs), WordsOf(ts[1..]), Files(r.rs), WordsOf(r.rest));
      }
    }
  }

  lemma Regroup<W>(a: multiset<W>, w: multiset<W>, f: multiset<W>, t: multiset<W>, f': multiset<W>, t': multiset<W>)
    requires f + t == f' + t'
    ensures a + f + (w + t) == a + w + f' + t'
  {
    assert a + f + (w + t) == a + w + (f + t) && a + w + (f' + t') == a + w + f' + t';
  }

  lemma {:induction false} ExecMade<W>(ts: seq<Tok<W>>)
    ensures Made(multiset{}, ts, ParseExec(ts))
    decreases |ts|, 0
  {
    hide ParseLine, ParseArgs, ParseRedirs;
    if Starts(ts, '(') {
      LineMade(ts[1..]);
      var r := ParseLine(ts[1..]);
      if r.Ok? && Starts(r.rest, ')') {
        var g := ParseRedirs<W>([], r.rest[1..]);
        if g.Got? {
          ExecBlock(ts, r.cmd, r.rest, g.rs, g.rest);
          BlockMade(ts, r.cmd, r.rest, g.rs, g.rest);
        }
      }
    } else {
      RedirsMade<W>([], ts);
      var g := ParseRedirs<W>([], ts);
      if g.Got? {
        ExecWords(ts, g.rs, g.rest);
        hide ParseExec, Depth, WordsOf;
        ArgsMade<W>([], g.rs, g.rest);
      }
    }
  }

  lemma BlockMade<W>(ts: seq<Tok<W>>, c: Cmd<W>, mid: seq<Tok<W>>, rs: seq<(W, How)>, rest: seq<Tok<W>>)
    requires Starts(ts, '(') && Made(multiset{}, ts[1..], Ok(c, mid)) && Starts(mid, ')') && ParseRedirs([], mid[1..]) == Got(rs, rest)
    ensures Made(multiset{}, ts, Ok(Wrap(c, rs), rest))
  {
    RedirsMade<W>([], mid[1..]);
    WrapMade(c, rs);
    hide ParseRedirs, Wrap, Fits, WordsIn, WordsOf, Depth;
    SymOff(ts);
    SymOff(mid);
    assert Files<W>([]) == multiset{} && multiset{} + WordsOf(ts) == WordsOf(ts) && multiset{} + WordsOf(ts[1..]) == WordsOf(ts[1..]);
    assert multiset{} + WordsOf(mid[1..]) == WordsOf(mid[1..]);
    assert WordsIn(c) + Files(rs) + WordsOf(rest) == WordsIn(c) + (Files(rs) + WordsOf(rest));
  }

  lemma {:induction false} PipeMade<W>(ts: seq<Tok<W>>)
    ensures Made(multiset{}, ts, ParsePipe(ts))
    decreases |ts|, 1
  {
    hide ParseExec;
    ExecMade(ts);
    var r := ParseExec(ts);
    if r.Ok? && Starts(r.rest, '|') { PipeMade(r.rest[1..]); }
  }

  lemma {:induction false} TailMade<W>(c: Cmd<W>, ts: seq<Tok<W>>)
    requires Fits(c)
    ensures Made(WordsIn(c), ts, ParseTail(c, ts))
    decreases |ts|, 2
  {
    hide ParseLine, WordsOf, Depth;
    if Starts(ts, '&') {
      SymOff(ts);
      TailMade(Back(c), ts[1..]);
    } else if Starts(ts, ';') {
      SymOff(ts);
      LineMade(ts[1..]);
      var r := ParseLine(ts[1..]);
      if r.Ok? {
        assert multiset{} + WordsOf(ts[1..]) == WordsOf(ts[1..]);
        assert WordsIn(c) + WordsIn(r.cmd) + WordsOf(r.rest) == WordsIn(c) + (WordsIn(r.cmd) + WordsOf(r.rest));
      }
    }
  }

  /**
   Of whatever line the parser accepts: the brackets it took match, every word it took is in the tree once, and
   no command has too many words.
   */
  lemma {:induction false} LineMade<W>(ts: seq<Tok<W>>)
    ensures Made(multiset{}, ts, ParseLine(ts))
    decreases |ts|, 3
  {
    hide ParsePipe, ParseTail;
    PipeMade(ts);
    var r := ParsePipe(ts);
    if r.Ok? { TailMade(r.cmd, r.rest); }
  }

  // ----- What the trees look like -----

  /** Redirections nest in the order of the text, the last outermost; a pipe and a list lean to the right; & is for what is before it. */
  lemma Shapes<W>(a: W, b: W, c: W)
    ensures ParseLine([Word(a), Sym('<'), Word(b), Sym('>'), Word(c)]) == Ok(Redir(Redir(Exec([a]), b, How(0, 0)), c, How(0x201, 1)), [])
    ensures ParseLine([Word(a), Sym('|'), Word(b), Sym('|'), Word(c)]) == Ok(Pipe(Exec([a]), Pipe(Exec([b]), Exec([c]))), [])
    ensures ParseLine([Word(a), Sym(';'), Word(b), Sym('|'), Word(c), Sym('&')]) == Ok(List(Exec([a]), Back(Pipe(Exec([b]), Exec([c])))), [])
    ensures ParseLine([Word(a), Sym('&'), Sym(';'), Word(b)]) == Ok(List(Back(Exec([a])), Exec([b])), [])
  {
    TwoRedirs(a, b, c);
    TwoPipes(a, b, c);
    Lists(a, b, c);
  }

  lemma OneWord<W>(a: W)
    ensures PrintExec(Exec([a])) == PrintPipe(Exec([a])) == PrintBack(Exec([a])) == PrintLine(Exec([a])) == [Word(a)]
  {
    assert [a][1..] == [];
    assert PrintWords([a]) == [Word(a)];
    assert PrintExec(Exec([a])) == [Word(a)] + [];
  }

  lemma TwoRedirs<W>(a: W, b: W, c: W)
    ensures ParseLine([Word(a), Sym('<'), Word(b), Sym('>'), Word(c)]) == Ok(Redir(Redir(Exec([a]), b, How(0, 0)), c, How(0x201, 1)), [])
  {
    var x, y := (b, How(0, 0)), (c, How(0x201, 1));
    var t := Redir(Redir(Exec([a]), b, How(0, 0)), c, How(0x201, 1));
    var u: Cmd<W> := Exec([a]);
    assert t.cmd.cmd == u && Core(u) == u && Around(u) == [] && Fits(u) && Fits(t.cmd);
    assert Core(t.cmd) == u && Around(t.cmd) == [] + [x];
    assert Core(t) == u && Around(t) == [x] + [y];
    assert [x, y][..1] == [x] && [x][..0] == [];
    assert PrintRedirs([x]) == [] + [Sym('<'), Word(b)];
    assert PrintRedirs([x, y]) == [Sym('<'), Word(b)] + [Sym('>'), Word(c)];
    assert [a][1..] == [] && PrintWords([a]) == [Word(a)];
    assert PrintExec(t) == PrintWords([a]) + PrintRedirs(Around(t));
    assert PrintLine(t) == PrintBack(t) == PrintPipe(t) == PrintExec(t);
    ShapeOf(t, [Word(a), Sym('<'), Word(b), Sym('>'), Word(c)]);
  }

  lemma TwoPipes<W>(a: W, b: W, c: W)
    ensures ParseLine([Word(a), Sym('|'), Word(b), Sym('|'), Word(c)]) == Ok(Pipe(Exec([a]), Pipe(Exec([b]), Exec([c]))), [])
  {
    OneWord(a);
    OneWord(b);
    OneWord(c);
    hide PrintExec;
    var inner := Pipe(Exec([b]), Exec([c]));
    assert PrintPipe(inner) == [Word(b)] + [Sym('|')] + [Word(c)];
    var t := Pipe(Exec([a]), inner);
    assert Fits(inner.left) && Fits(inner.right) && Fits(inner) && Fits(t.left);
    assert PrintPipe(t) == [Word(a)] + [Sym('|')] + PrintPipe(inner);
    ShapeOf(t, [Word(a), Sym('|'), Word(b), Sym('|'), Word(c)]);
  }

  lemma Lists<W>(a: W, b: W, c: W)
    ensures ParseLine([Word(a), Sym(';'), Word(b), Sym('|'), Word(c), Sym('&')]) == Ok(List(Exec([a]), Back(Pipe(Exec([b]), Exec([c])))), [])
    ensures ParseLine([Word(a), Sym('&'), Sym(';'), Word(b)]) == Ok(List(Back(Exec([a])), Exec([b])), [])
  {
    OneWord(a);
    OneWord(b);
    OneWord(c);
    hide PrintExec;
    var inner := Back(Pipe(Exec([b]), Exec([c])));
    assert PrintPipe(inner.cmd) == [Word(b)] + [Sym('|')] + [Word(c)];
    assert PrintBack(inner) == PrintPipe(inner.cmd) + [Sym('&')];
    var t := List(Exec([a]), inner);
    assert Fits(inner.cmd.left) && Fits(inner.cmd.right) && Fits(inner.cmd) && Fits(inner);
    assert PrintLine(t) == [Word(a)] + [Sym(';')] + PrintBack(inner);
    ShapeOf(t, [Word(a), Sym(';'), Word(b), Sym('|'), Word(c), Sym('&')]);
    var u := List(Back(Exec([a])), Exec([b]));
    assert PrintBack(u.left) == [Word(a)] + [Sym('&')];
    assert PrintLine(u) == PrintBack(u.left) + [Sym(';')] + [Word(b)];
    ShapeOf(u, [Word(a), Sym('&'), Sym(';'), Word(b)]);
  }

  lemma ShapeOf<W>(c: Cmd<W>, ts: seq<Tok<W>>)
    requires Fits(c) && PrintLine(c) == ts
    ensures ParseLine(ts) == Ok(c, [])
  {
    hide ParseLine, PrintLine;
    LineBack(c, []);
    assert ts + [] == ts;
  }

  // ----- What is refused -----

  /** A line whose brackets do not match is not accepted as a whole. */
  lemma Unmatched<W>(ts: seq<Tok<W>>)
    requires Depth(ts) != 0
    ensures ParseLine(ts).Ok? ==> ParseLine(ts).rest != []
  {
    LineMade(ts);
  }

  /** An opened bracket that is not closed after a command. */
  lemma Unclosed<W>(c: Cmd<W>)
    requires Fits(c)
    ensures ParseLine([Sym('(')] + PrintLine(c)) == Fail
  {
    hide PrintLine, ParseTail;
    var ts := [Sym('(')] + PrintLine(c);
    LineBack(c, []);
    assert ts[1..] == PrintLine(c) + [];
    assert ParseExec(ts) == Fail;
  }

  lemma {:induction false} WordFirst<W>(ws: seq<W>, tail: seq<Tok<W>>)
    requires ws != []
    ensures var ts := PrintWords(ws) + tail;
            && |ts| >= 1 && ts[0] == Word(ws[0]) && ts[1..] == PrintWords(ws[1..]) + tail
            && if |ws| > 1 then |ts| >= 2 && ts[1] == Word(ws[1]) else ts[1..] == tail
  {
    var more := PrintWords(ws[1..]);
    assert PrintWords(ws) == [Word(ws[0])] + more;
    assert if |ws| > 1 then |more| >= 1 && more[0] == Word(ws[1]) else more == [];
    hide PrintWords;
    assert [Word(ws[0])] + more + tail == [Word(ws[0])] + (more + tail);
    assert |ws| == 1 ==> more + tail == tail;
  }

  /** As many words as execcmd has room for, or more, and whatever follows them. */
  lemma {:induction false} TooManyArgs<W>(argv: seq<W>, ws: seq<W>, rest: seq<Tok<W>>)
    requires |argv| < MAXARGS <= |argv| + |ws|
    ensures ParseArgs(argv, [], PrintWords(ws) + rest) == Fail
    decreases |ws|
  {
    var ts := PrintWords(ws) + rest;
    WordFirst(ws, rest);
    if |argv| + 1 < MAXARGS {
      RedirsNone<W>([], ts[1..]);
      TooManyArgs(argv + [ws[0]], ws[1..], rest);
    }
  }

  lemma TooManyWords<W>(ws: seq<W>, rest: seq<Tok<W>>)
    requires |ws| >= 10
    ensures ParseLine(PrintWords(ws) + rest) == Fail
  {
    hide ParseArgs;
    var ts := PrintWords(ws) + rest;
    assert ts[0] == Word(ws[0]);
    RedirsNone<W>([], ts);
    TooManyArgs<W>([], ws, rest);
    ExecWords<W>(ts, [], ts);
  }

  lemma NoFileArg<W>(argv: seq<W>, ts: seq<Tok<W>>)
    requires |ts| >= 2 && ts[0].Word? && RedirNext(ts[1..]) && (|ts| == 2 || ts[2].Sym?)
    ensures ParseArgs(argv, [], ts) == Fail
  {
    assert ParseRedirs<W>([], ts[1..]) == Bad;
  }

  /** A redirection, after any words that fit, without a file. */
  lemma {:induction false} NoFileArgs<W>(argv: seq<W>, ws: seq<W>, sym: char, rest: seq<Tok<W>>)
    requires |argv| + |ws| < MAXARGS && sym in "<>+" && ws != [] && (rest == [] || rest[0].Sym?)
    ensures ParseArgs(argv, [], PrintWords(ws) + ([Sym(sym)] + rest)) == Fail
    decreases |ws|
  {
    hide ParseArgs, ParseRedirs, PrintWords;
    var tail := [Sym(sym)] + rest;
    var ts := PrintWords(ws) + tail;
    WordFirst(ws, tail);
    if |ws| == 1 {
      NoFileArg(argv, ts);
    } else {
      RedirsNone<W>([], ts[1..]);
      ArgsStep(argv, [], ts, [], ts[1..]);
      NoFileArgs(argv + [ws[0]], ws[1..], sym, rest);
    }
  }

  lemma NoFile<W>(ws: seq<W>, sym: char, rest: seq<Tok<W>>)
    requires |ws| < 10 && sym in "<>+" && (rest == [] || rest[0].Sym?)
    ensures ParseLine(PrintWords(ws) + ([Sym(sym)] + rest)) == Fail
  {
    hide ParseArgs;
    var ts := PrintWords(ws) + ([Sym(sym)] + rest);
    if ws == [] {
      assert ts == [Sym(sym)] + rest;
      assert ParseRedirs<W>([], ts) == Bad && !Starts(ts, '(');
      assert ParseExec(ts) == Fail;
    } else {
      assert ts[0] == Word(ws[0]);
      RedirsNone<W>([], ts);
      NoFileArgs<W>([], ws, sym, rest);
      ExecWords<W>(ts, [], ts);
    }
  }
}

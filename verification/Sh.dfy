/**
 The parser of sh.c as it runs: a cursor moves over the line, the functions call each other
 and loop, and nulterminate writes into the line. Each method does what the grammar says.
 */
module Sh {
  import opened ShParse
  import opened Options
  import opened ShNames
  import opened ShText

  /** The result of a parse function against the grammar's, the tokens left included. */
  ghost predicate Agrees(r: Option<Cmd<Span>>, left: seq<Tok<Span>>, spec: Result<Span>) {
    if spec.Fail? then r.None? else r == Some(spec.cmd) && left == spec.rest
  }

  /** The character that a token starts with. */
  function FirstChar(s: string, t: Tok<Span>): char {
    match t
    case Sym(c) => if c == '+' then '>' else c
    case Word(w) => if w.0 < |s| then s[w.0] else '\0'
  }

  lemma Head(s: string, i: nat)
    requires i <= |s|
    ensures Toks(s, i) == [] <==> Skip(s, i) == |s|
    ensures Toks(s, i) != [] ==>
      var j := Skip(s, i); var t := Toks(s, i)[0];
      && FirstChar(s, t) == s[j] && (t.Word? <==> !Symbol(s[j])) && (t.Sym? ==> t.c == s[j] || (t.c == '+' && s[j] == '>'))
      && t == TokAt(s, j).0 && Toks(s, i)[1..] == Toks(s, TokAt(s, j).1)
  {
  }

  class Parser {
    const s: string                  // the line, without the null at its end
    var ps: nat
    var buf: seq<char>               // the same as memory, with the null

    ghost predicate Valid()
      reads this`ps
    {
      ps <= |s|
    }

    ghost function Left(): seq<Tok<Span>>
      reads this`ps
      requires Valid()
    {
      Toks(s, ps)
    }

    method SkipSpace(i: nat) returns (r: nat)
      requires i <= |s|
      ensures r == Skip(s, i)
    {
      r := i;
      while r < |s| && Space(s[r])
        invariant i <= r <= |s| && Skip(s, r) == Skip(s, i)
      {
        r := r + 1;
      }
    }

    /** gettoken: the next token and its span; 0 at the end, 'a' for a word. */
    method GetToken() returns (ret: char, q: nat, eq: nat)
      requires Valid()
      modifies this`ps
      ensures Valid()
      ensures old(Left()) == [] ==> ret == '\0' && Left() == []
      ensures old(Left()) != [] ==> Left() == old(Left())[1..] && var t := old(Left())[0];
        if t.Word? then ret == 'a' && t.w == (q, eq) else ret == t.c
    {
      hide TokAt, Space, Symbol, WordEnd;
      var p := SkipSpace(ps);
      q := p;
      if p == |s| {
        ret := '\0';
      } else {
        ret, p := Switch(p);
      }
      eq := p;
      ToksSkip(s, p, Skip(s, p));
      ps := SkipSpace(p);
    }

    /** gettoken's switch: one token, from its first character. */
    method Switch(q: nat) returns (ret: char, p: nat)
      requires q < |s| && !Space(s[q])
      ensures TokAt(s, q) == (if ret == 'a' then Word((q, p)) else Sym(ret), p)
    {
      p := q;
      if s[p] == '>' {
        ret := '>';
        p := p + 1;
        if p < |s| && s[p] == '>' {
          ret := '+';
          p := p + 1;
        }
      } else if Symbol(s[p]) {
        ret := s[p];
        p := p + 1;
      } else {
        ret := 'a';
        while p < |s| && !Space(s[p]) && !Symbol(s[p])
          invariant q <= p <= |s| && WordEnd(s, p) == WordEnd(s, q)
        {
          p := p + 1;
        }
      }
    }

    /** peek: does the next token start with one of these characters? */
    method Peek(toks: string) returns (b: bool)
      requires Valid()
      modifies this`ps
      ensures Valid() && Left() == old(Left()) && b == (Left() != [] && FirstChar(s, Left()[0]) in toks)
      ensures ps == |s| || !Space(s[ps])
    {
      Head(s, ps);
      ToksSkip(s, ps, Skip(s, ps));
      ps := SkipSpace(ps);
      Head(s, ps);
      b := ps < |s| && s[ps] in toks;
    }

    /** parseredirs: the redirections that come next, after those in hand. */
    method Redirections(rs0: seq<(Span, How)>) returns (rs: Option<seq<(Span, How)>>)
      requires Valid()
      modifies this`ps
      ensures Valid() && match ParseRedirs(rs0, old(Left())) case Bad => rs.None? case Got(r, rest) => rs == Some(r) && Left() == rest
    {
      var r := rs0;
      var more := Peek("<>");
      while more
        invariant Valid() && ParseRedirs(r, Left()) == ParseRedirs(rs0, old(Left()))
        invariant more == RedirNext(Left())
        decreases |Left()|
      {
        var tok, q, eq := GetToken();
        var w, wq, weq := GetToken();
        if w != 'a' {
          return None;
        }
        r := r + [((wq, weq), HowOf(tok))];
        more := Peek("<>");
      }
      rs := Some(r);
    }

    /** parseexec's loop over words. */
    method Words(rs0: seq<(Span, How)>) returns (c: Option<Cmd<Span>>)
      requires Valid()
      modifies this`ps
      ensures Valid() && Agrees(c, Left(), ParseArgs([], rs0, old(Left())))
    {
      hide ParseRedirs, Wrap;
      var argv: seq<Span>, rs := [], rs0;
      var stop := PeekStop();
      while !stop
        invariant Valid() && |argv| < MAXARGS && ParseArgs(argv, rs, Left()) == ParseArgs([], rs0, old(Left()))
        invariant stop == StopNext(Left())
        decreases |Left()|, !stop
      {
        SymbolsOnly(s, ps);
        var tok, q, eq := GetToken();
        if tok == '\0' {
          break;
        }
        if tok != 'a' {
          return None;
        }
        if |argv| + 1 >= MAXARGS {
          return None;
        }
        argv := argv + [(q, eq)];
        var more := Redirections(rs);
        if more.None? {
          return None;
        }
        rs := more.value;
        stop := PeekStop();
      }
      c := Some(Wrap(Exec(argv), rs));
    }

    method PeekStop() returns (b: bool)
      requires Valid()
      modifies this`ps
      ensures Valid() && Left() == old(Left()) && b == StopNext(Left())
    {
      b := Peek("|)&;");
      SymbolsOnly(s, ps);
    }

    method PeekOne(c: char) returns (b: bool)
      requires Valid() && Symbol(c) && c != '>'
      modifies this`ps
      ensures Valid() && Left() == old(Left()) && b == Starts(Left(), c)
    {
      b := Peek([c]);
      SymbolsOnly(s, ps);
    }

    method ParseBlock() returns (c: Option<Cmd<Span>>)
      requires Valid() && Starts(Left(), '(')
      modifies this`ps
      ensures Valid() && Agrees(c, Left(), ShParse.ParseExec(old(Left())))
      decreases |Left()|, 0
    {
      hide ShParse.ParseLine, ParseRedirs, Wrap;
      var tok, q, eq := GetToken();
      var line := ParseLine();
      if line.None? {
        return None;
      }
      var closed := PeekOne(')');
      if !closed {
        return None;
      }
      tok, q, eq := GetToken();
      var rs := Redirections([]);
      c := if rs.None? then None else Some(Wrap(line.value, rs.value));
    }

    method ParseExec() returns (c: Option<Cmd<Span>>)
      requires Valid()
      modifies this`ps
      ensures Valid() && Agrees(c, Left(), ShParse.ParseExec(old(Left())))
      decreases |Left()|, 1
    {
      var block := PeekOne('(');
      if block {
        c := ParseBlock();
        return;
      }
      hide ParseRedirs, ParseArgs;
      var rs := Redirections([]);
      if rs.None? {
        return None;
      }
      c := Words(rs.value);
    }

    method ParsePipe() returns (c: Option<Cmd<Span>>)
      requires Valid()
      modifies this`ps
      ensures Valid() && Agrees(c, Left(), ShParse.ParsePipe(old(Left())))
      decreases |Left()|, 2
    {
      hide ShParse.ParseExec;
      c := ParseExec();
      if c.None? {
        return;
      }
      var more := PeekOne('|');
      if more {
        var tok, q, eq := GetToken();
        var d := ParsePipe();
        c := if d.None? then None else Some(Pipe(c.value, d.value));
      }
    }

    /** parseline: the pipeline, its ampersands, and after a semicolon the rest of the line. */
    method ParseLine() returns (c: Option<Cmd<Span>>)
      requires Valid()
      modifies this`ps
      ensures Valid() && Agrees(c, Left(), ShParse.ParseLine(old(Left())))
      decreases |Left()|, 3
    {
      hide ShParse.ParsePipe;
      c := ParsePipe();
      if c.None? {
        return;
      }
      var amp := PeekOne('&');
      while amp
        invariant Valid() && c.Some? && ParseTail(c.value, Left()) == ShParse.ParseLine(old(Left()))
        invariant amp == Starts(Left(), '&') && |Left()| <= |old(Left())|
        decreases |Left()|
      {
        var tok, q, eq := GetToken();
        c := Some(Back(c.value));
        amp := PeekOne('&');
      }
      var semi := PeekOne(';');
      if semi {
        var tok, q, eq := GetToken();
        var d := ParseLine();
        c := if d.None? then None else Some(List(c.value, d.value));
      }
    }

    /** nulterminate: a null at the end of every word of the command, and nowhere else. */
    method NulTerminate(c: Cmd<Span>)
      requires |buf| == |s| + 1 && forall w :: w in WordsOf(c) ==> w.1 <= |s|
      modifies this`buf
      ensures |buf| == |s| + 1
      ensures forall k :: 0 <= k < |buf| ==> buf[k] == if EndsWord(c, k) then '\0' else old(buf)[k]
      decreases c
    {
      match c
      case Exec(argv) =>
        var i := 0;
        while i < |argv|
          invariant i <= |argv| && |buf| == |s| + 1
          invariant forall k :: 0 <= k < |buf| ==> buf[k] == if exists j :: 0 <= j < i && argv[j].1 == k then '\0' else old(buf)[k]
        {
          assert argv[i] in WordsOf(c);
          buf := buf[argv[i].1 := '\0'];
          i := i + 1;
        }
        assert forall k {:trigger EndsWord(c, k)} :: EndsWord(c, k) <==> exists j :: 0 <= j < |argv| && argv[j].1 == k;
      case Redir(d, file, _) =>
        NulTerminate(d);
        buf := buf[file.1 := '\0'];
        assert forall k {:trigger EndsWord(c, k)} :: EndsWord(c, k) <==> EndsWord(d, k) || file.1 == k;
      case Pipe(l, r) =>
        NulTerminate(l);
        NulTerminate(r);
        assert forall k {:trigger EndsWord(c, k)} :: EndsWord(c, k) <==> EndsWord(l, k) || EndsWord(r, k);
      case List(l, r) =>
        NulTerminate(l);
        NulTerminate(r);
        assert forall k {:trigger EndsWord(c, k)} :: EndsWord(c, k) <==> EndsWord(l, k) || EndsWord(r, k);
      case Back(d) =>
        NulTerminate(d);
        assert forall k {:trigger EndsWord(c, k)} :: EndsWord(c, k) <==> EndsWord(d, k);
    }

    constructor (line: string)
      ensures s == line && Valid() && ps == 0 && buf == line + ['\0']
    {
      s, ps, buf := line, 0, line + ['\0'];
    }

    /**
     parsecmd. It succeeds exactly on the lines of the grammar, with the grammar's tree; every
     argument and file name is then a C string, its token and no more, and nothing else in the
     line has changed.
     */
    method ParseCmd() returns (c: Option<Cmd<Span>>)
      requires ps == 0 && buf == s + ['\0'] && '\0' !in s
      modifies this`ps, this`buf
      ensures c == match ShParse.ParseLine(Toks(s, 0)) case Fail => None case Ok(d, rest) => if rest == [] then Some(d) else None
      ensures c.Some? ==> forall w :: w in WordsOf(c.value) ==> w.0 < w.1 <= |s| && CString(buf, w.0) == s[w.0..w.1]
      ensures c.Some? ==> |buf| == |s| + 1 && forall k :: 0 <= k < |s| && !EndsWord(c.value, k) ==> buf[k] == s[k]
    {
      hide ShParse.ParseLine;
      c := ParseLine();
      if c.None? {
        return;
      }
      var b := Peek("");
      ToksSpaced(s, 0);
      Head(s, ps);
      if ps != |s| {
        NotAtEnd(s, ps);
        return None;
      }
      FromLine(Toks(s, 0));
      SpannedWords(s, c.value);
      NulTerminate(c.value);
      forall w | w in WordsOf(c.value) ensures CString(buf, w.0) == s[w.0..w.1] {
        OwnString(s, c.value, buf, w);
      }
    }
  }

  /** The characters from q up to the first null. */
  function CString(buf: seq<char>, q: nat): string
    decreases |buf| - q
  {
    if q >= |buf| || buf[q] == '\0' then "" else [buf[q]] + CString(buf, q + 1)
  }

  lemma {:induction false} CStringIs(buf: seq<char>, q: nat, e: nat)
    requires q <= e < |buf| && buf[e] == '\0' && forall k :: q <= k < e ==> buf[k] != '\0'
    ensures CString(buf, q) == buf[q..e]
    decreases e - q
  {
    if q < e {
      CStringIs(buf, q + 1, e);
      assert buf[q..e] == [buf[q]] + buf[q + 1..e];
    }
  }

  lemma NotAtEnd(s: string, i: nat)
    requires i < |s| && !Space(s[i])
    ensures Toks(s, i) != []
  {
  }

  // ----- The words of the tree are words of the line -----

  function TokWords(ts: seq<Tok<Span>>): set<Span> {
    set k | 0 <= k < |ts| && ts[k].Word? :: ts[k].w
  }

  function RedirWords(rs: seq<(Span, How)>): set<Span> {
    set k | 0 <= k < |rs| :: rs[k].0
  }

  lemma DropWords(ts: seq<Tok<Span>>, k: nat)
    requires k <= |ts|
    ensures TokWords(ts[k..]) <= TokWords(ts)
  {
    forall i | 0 <= i < |ts[k..]| && ts[k..][i].Word? ensures ts[k..][i].w in TokWords(ts) {
      assert ts[k + i] == ts[k..][i];
    }
  }

  lemma {:induction false} WrapWords(c: Cmd<Span>, rs: seq<(Span, How)>)
    ensures WordsOf(Wrap(c, rs)) == WordsOf(c) + RedirWords(rs)
    decreases |rs|
  {
    if rs != [] {
      var n := |rs| - 1;
      WrapWords(c, rs[..n]);
      assert RedirWords(rs) == RedirWords(rs[..n]) + {rs[n].0};
    }
  }

  lemma {:induction false} FromRedirs(rs: seq<(Span, How)>, ts: seq<Tok<Span>>)
    ensures var r := ParseRedirs(rs, ts);
            r.Got? ==> RedirWords(r.rs) <= RedirWords(rs) + TokWords(ts) && TokWords(r.rest) <= TokWords(ts)
    decreases |ts|
  {
    if RedirNext(ts) && |ts| >= 2 && ts[1].Word? {
      var r := (ts[1].w, HowOf(ts[0].c));
      FromRedirs(rs + [r], ts[2..]);
      DropWords(ts, 2);
      assert ts[1].w in TokWords(ts);
      forall k | 0 <= k < |rs + [r]| ensures (rs + [r])[k].0 in RedirWords(rs) + {r.0} {
        if k < |rs| { assert rs[k].0 in RedirWords(rs); }
      }
    }
  }

  lemma {:induction false} FromArgs(argv: seq<Span>, rs: seq<(Span, How)>, ts: seq<Tok<Span>>)
    ensures var r := ParseArgs(argv, rs, ts);
            r.Ok? ==> WordsOf(r.cmd) <= (set w | w in argv) + RedirWords(rs) + TokWords(ts) && TokWords(r.rest) <= TokWords(ts)
    decreases |ts|
  {
    hide ParseRedirs, Wrap;
    if ts == [] || StopNext(ts) {
      WrapWords(Exec(argv), rs);
    } else if ts[0].Word? && |argv| + 1 < MAXARGS {
      FromRedirs(rs, ts[1..]);
      DropWords(ts, 1);
      var got := ParseRedirs(rs, ts[1..]);
      if got.Got? {
        FromArgs(argv + [ts[0].w], got.rs, got.rest);
        assert ts[0].w in TokWords(ts);
        assert (set w | w in argv + [ts[0].w]) == (set w | w in argv) + {ts[0].w};
      }
    }
  }

  /** A result whose words are all among those of the tokens. */
  ghost predicate From(r: Result<Span>, ws: set<Span>) {
    r.Ok? ==> WordsOf(r.cmd) <= ws && TokWords(r.rest) <= ws
  }

  lemma {:induction false} FromExec(ts: seq<Tok<Span>>)
    ensures From(ShParse.ParseExec(ts), TokWords(ts))
    decreases |ts|, 0
  {
    hide ShParse.ParseLine, ParseRedirs, ParseArgs, Wrap, TokWords, RedirWords;
    NoRedirs();
    if Starts(ts, '(') {
      FromLine(ts[1..]);
      DropWords(ts, 1);
      var r := ShParse.ParseLine(ts[1..]);
      if r.Ok? && Starts(r.rest, ')') {
        DropWords(r.rest, 1);
        FromRedirs([], r.rest[1..]);
        var got := ParseRedirs([], r.rest[1..]);
        if got.Got? { WrapWords(r.cmd, got.rs); }
      }
    } else {
      FromRedirs([], ts);
      var got := ParseRedirs([], ts);
      if got.Got? { FromArgs([], got.rs, got.rest); }
    }
  }

  lemma NoRedirs()
    ensures RedirWords([]) == {}
  {
  }

  lemma {:induction false} FromPipe(ts: seq<Tok<Span>>)
    ensures From(ShParse.ParsePipe(ts), TokWords(ts))
    decreases |ts|, 1
  {
    hide ShParse.ParseExec, TokWords;
    FromExec(ts);
    var r := ShParse.ParseExec(ts);
    if r.Ok? && Starts(r.rest, '|') {
      DropWords(r.rest, 1);
      FromPipe(r.rest[1..]);
    }
  }

  lemma {:induction false} FromTail(c: Cmd<Span>, ts: seq<Tok<Span>>)
    ensures From(ParseTail(c, ts), WordsOf(c) + TokWords(ts))
    decreases |ts|, 2
  {
    hide ShParse.ParseLine, TokWords;
    if Starts(ts, '&') {
      DropWords(ts, 1);
      FromTail(Back(c), ts[1..]);
    } else if Starts(ts, ';') {
      DropWords(ts, 1);
      FromLine(ts[1..]);
    }
  }

  lemma {:induction false} FromLine(ts: seq<Tok<Span>>)
    ensures From(ShParse.ParseLine(ts), TokWords(ts))
    decreases |ts|, 3
  {
    hide ShParse.ParsePipe, ParseTail, TokWords;
    FromPipe(ts);
    var r := ShParse.ParsePipe(ts);
    if r.Ok? { FromTail(r.cmd, r.rest); }
  }

  // ----- The words keep apart -----

  lemma SpannedWords(s: string, c: Cmd<Span>)
    requires Spaced(s, 0, Toks(s, 0)) && WordsOf(c) <= TokWords(Toks(s, 0))
    ensures forall w :: w in WordsOf(c) ==> w.0 < w.1 <= |s|
    ensures forall v, w :: v in WordsOf(c) && w in WordsOf(c) && v != w ==> v.1 < w.0 || w.1 < v.0
  {
  }

  /** No other word ends inside w, so after nulterminate it reads as it did, up to its own end. */
  lemma OwnString(s: string, c: Cmd<Span>, buf: seq<char>, w: Span)
    requires '\0' !in s && |buf| == |s| + 1 && w in WordsOf(c)
    requires forall v :: v in WordsOf(c) ==> v.0 < v.1 <= |s|
    requires forall v, x :: v in WordsOf(c) && x in WordsOf(c) && v != x ==> v.1 < x.0 || x.1 < v.0
    requires forall k :: 0 <= k < |buf| ==> buf[k] == if EndsWord(c, k) then '\0' else (s + ['\0'])[k]
    ensures CString(buf, w.0) == s[w.0..w.1]
  {
    assert EndsWord(c, w.1);
    forall k | w.0 <= k < w.1 ensures !EndsWord(c, k) && buf[k] == s[k] && s[k] != '\0' {
      assert s[k] in s;
    }
    CStringIs(buf, w.0, w.1);
    assert buf[w.0..w.1] == s[w.0..w.1];
  }

  lemma SymbolsOnly(s: string, i: nat)
    requires i <= |s|
    ensures Toks(s, i) != [] ==> var t := Toks(s, i)[0];
      if t.Sym? then t.c == '+' || Symbol(t.c) else !Symbol(FirstChar(s, t))
  {
    Head(s, i);
  }

  /** The words of a command. */
  function WordsOf(c: Cmd<Span>): set<Span> {
    match c
    case Exec(argv) => set w | w in argv
    case Redir(d, file, _) => WordsOf(d) + {file}
    case Pipe(l, r) => WordsOf(l) + WordsOf(r)
    case List(l, r) => WordsOf(l) + WordsOf(r)
    case Back(d) => WordsOf(d)
  }

  ghost predicate EndsWord(c: Cmd<Span>, k: nat) { exists w :: w in WordsOf(c) && w.1 == k }
}

/**
 The shell knows >> as a token of its own and then does with it what it does with >. A line with
 every >> replaced by > and a blank has the same command tree, word for word.
 */
module ShAppend {
  import opened ShParse
  import opened ShNames
  import opened ShText

  // ----- Over tokens -----

  function PlainTok<W>(t: Tok<W>): Tok<W> { if t == Sym('+') then Sym('>') else t }

  /** Every >> as a >. */
  function Plain<W>(ts: seq<Tok<W>>): (r: seq<Tok<W>>)
    ensures |r| == |ts| && forall i :: 0 <= i < |ts| ==> r[i] == PlainTok(ts[i])
  {
    seq(|ts|, i requires 0 <= i < |ts| => PlainTok(ts[i]))
  }

  /** The same tree, with the rest of the tokens plain. */
  function Same<W>(r: Result<W>): Result<W> {
    match r
    case Fail => Fail
    case Ok(c, rest) => Ok(c, Plain(rest))
  }

  lemma PlainDrop<W>(ts: seq<Tok<W>>, k: nat)
    requires k <= |ts|
    ensures Plain(ts)[k..] == Plain(ts[k..])
  {
  }

  lemma PlainStarts<W>(ts: seq<Tok<W>>, c: char)
    requires c != '+' && c != '>'
    ensures Starts(Plain(ts), c) == Starts(ts, c)
    ensures RedirNext(Plain(ts)) == RedirNext(ts) && StopNext(Plain(ts)) == StopNext(ts)
  {
  }

  lemma {:induction false} PlainRedirs<W>(rs: seq<(W, How)>, ts: seq<Tok<W>>)
    ensures ParseRedirs(rs, Plain(ts)) == match ParseRedirs(rs, ts) case Bad => Bad case Got(rs', rest) => Got(rs', Plain(rest))
    decreases |ts|
  {
    PlainStarts(ts, '(');
    if RedirNext(ts) && |ts| >= 2 && ts[1].Word? {
      PlainDrop(ts, 2);
      PlainRedirs(rs + [(ts[1].w, HowOf(ts[0].c))], ts[2..]);
    }
  }

  lemma {:induction false} PlainArgs<W>(argv: seq<W>, rs: seq<(W, How)>, ts: seq<Tok<W>>)
    ensures ParseArgs(argv, rs, Plain(ts)) == Same(ParseArgs(argv, rs, ts))
    decreases |ts|
  {
    hide ParseRedirs, Wrap;
    PlainStarts(ts, '(');
    if !(ts == [] || StopNext(ts)) && ts[0].Word? && |argv| + 1 < MAXARGS {
      PlainDrop(ts, 1);
      PlainRedirs(rs, ts[1..]);
      var got := ParseRedirs(rs, ts[1..]);
      if got.Got? { PlainArgs(argv + [ts[0].w], got.rs, got.rest); }
    }
  }

  lemma {:induction false} PlainExec<W>(ts: seq<Tok<W>>)
    ensures ParseExec(Plain(ts)) == Same(ParseExec(ts))
    decreases |ts|, 0
  {
    PlainStarts(ts, '(');
    if Starts(ts, '(') {
      PlainBlock(ts);
    } else {
      hide ParseRedirs, ParseArgs, Wrap;
      PlainRedirs([], ts);
      var got := ParseRedirs([], ts);
      if got.Got? { PlainArgs([], got.rs, got.rest); }
    }
  }

  lemma {:induction false} PlainBlock<W>(ts: seq<Tok<W>>)
    requires Starts(ts, '(')
    ensures ParseExec(Plain(ts)) == Same(ParseExec(ts))
    decreases |ts|, -1
  {
    hide ParseLine, ParseRedirs, Wrap;
    PlainStarts(ts, '(');
    PlainDrop(ts, 1);
    PlainLine(ts[1..]);
    var r := ParseLine(ts[1..]);
    if r.Ok? {
      PlainStarts(r.rest, ')');
      if Starts(r.rest, ')') {
        PlainDrop(r.rest, 1);
        PlainRedirs([], r.rest[1..]);
      }
    }
  }

  lemma {:induction false} PlainPipe<W>(ts: seq<Tok<W>>)
    ensures ParsePipe(Plain(ts)) == Same(ParsePipe(ts))
    decreases |ts|, 1
  {
    hide ParseExec;
    PlainExec(ts);
    var r := ParseExec(ts);
    if r.Ok? {
      PlainStarts(r.rest, '|');
      if Starts(r.rest, '|') {
        PlainDrop(r.rest, 1);
        PlainPipe(r.rest[1..]);
      }
    }
  }

  lemma {:induction false} PlainTail<W>(c: Cmd<W>, ts: seq<Tok<W>>)
    ensures ParseTail(c, Plain(ts)) == Same(ParseTail(c, ts))
    decreases |ts|, 2
  {
    hide ParseLine;
    PlainStarts(ts, '&');
    PlainStarts(ts, ';');
    if Starts(ts, '&') {
      PlainDrop(ts, 1);
      PlainTail(Back(c), ts[1..]);
    } else if Starts(ts, ';') {
      PlainDrop(ts, 1);
      PlainLine(ts[1..]);
    }
  }

  /** The parser makes the same tree of >> as of >. */
  lemma {:induction false} PlainLine<W>(ts: seq<Tok<W>>)
    ensures ParseLine(Plain(ts)) == Same(ParseLine(ts))
    decreases |ts|, 3
  {
    hide ParsePipe, ParseTail;
    PlainPipe(ts);
    var r := ParsePipe(ts);
    if r.Ok? { PlainTail(r.cmd, r.rest); }
  }

  // ----- Over text -----

  /** Every >> as a > and a blank. */
  function Spread(s: string): (r: string)
    ensures |r| == |s| && (s != "" ==> r[0] == s[0])
  {
    if s == "" then ""
    else if |s| >= 2 && s[0] == '>' && s[1] == '>' then "> " + Spread(s[2..])
    else [s[0]] + Spread(s[1..])
  }

  /** From i on, t is s spread. */
  ghost predicate Aligned(s: string, t: string, i: nat) { i <= |s| == |t| && t[i..] == Spread(s[i..]) }

  lemma Next(s: string, t: string, i: nat)
    requires Aligned(s, t, i) && i < |s|
    ensures t[i] == s[i]
    ensures if i + 1 < |s| && s[i] == '>' && s[i + 1] == '>' then t[i + 1] == ' ' && Aligned(s, t, i + 2)
            else Aligned(s, t, i + 1)
  {
    var u := s[i..];
    assert t[i] == t[i..][0];
    if |u| >= 2 && u[0] == '>' && u[1] == '>' {
      assert t[i + 1] == t[i..][1] && u[2..] == s[i + 2..] && t[i + 2..] == t[i..][2..];
    } else {
      assert u[1..] == s[i + 1..] && t[i + 1..] == t[i..][1..];
    }
  }

  lemma {:induction false} AlignedWord(s: string, t: string, i: nat, e: nat)
    requires Aligned(s, t, i) && i <= e <= |s| && forall k :: i <= k < e ==> s[k] != '>'
    ensures Aligned(s, t, e) && t[i..e] == s[i..e] && (e < |s| ==> t[e] == s[e])
    decreases e - i
  {
    hide Spread;
    if i < e {
      Next(s, t, i);
      AlignedWord(s, t, i + 1, e);
      assert t[i..e] == [t[i]] + t[i + 1..e] && s[i..e] == [s[i]] + s[i + 1..e];
    } else if e < |s| {
      Next(s, t, e);
    }
  }

  /** Words are where they were, and what they were. */
  ghost predicate SameWords(s: string, t: string, ts: seq<Tok<Span>>) {
    forall k :: 0 <= k < |ts| && ts[k].Word? ==> ts[k].w.0 <= ts[k].w.1 <= |s| == |t| && t[ts[k].w.0..ts[k].w.1] == s[ts[k].w.0..ts[k].w.1]
  }

  lemma {:induction false} SpreadToks(s: string, t: string, i: nat)
    requires i <= |s| == |t| && Aligned(s, t, i)
    ensures Toks(t, i) == Plain(Toks(s, i)) && SameWords(s, t, Toks(s, i))
    decreases |s| - i
  {
    hide Spread, Toks, TokAt, Skip, Aligned;
    if i == |s| {
      NoTokens(s);
      NoTokens(t);
    } else {
      Next(s, t, i);
      SkipHere(s, i);
      SkipHere(t, i);
      if Space(s[i]) {
        ToksSkip(s, i, i + 1);
        ToksSkip(t, i, i + 1);
        SpreadToks(s, t, i + 1);
      } else {
        FirstTok(s, i);
        FirstTok(t, i);
        SpreadTok(s, t, i);
      }
    }
  }

  lemma SkipHere(s: string, i: nat)
    requires i < |s|
    ensures if Space(s[i]) then Skip(s, i) >= i + 1 else Skip(s, i) == i
  {
  }

  lemma {:induction false} SpreadTok(s: string, t: string, i: nat)
    requires i < |s| == |t| && Aligned(s, t, i) && !Space(s[i]) && t[i] == s[i]
    requires Toks(s, i) == [TokAt(s, i).0] + Toks(s, TokAt(s, i).1) && Toks(t, i) == [TokAt(t, i).0] + Toks(t, TokAt(t, i).1)
    ensures Toks(t, i) == Plain(Toks(s, i)) && SameWords(s, t, Toks(s, i))
    decreases |s| - i, 0
  {
    hide Spread, Toks, Skip, WordEnd;
    Next(s, t, i);
    if !Symbol(s[i]) {
      var e := WordEnd(s, i);
      AlignedWord(s, t, i, e);
      SameEnd(s, t, i, e);
      SpreadToks(s, t, e);
    } else if s[i] == '>' && i + 1 < |s| && s[i + 1] == '>' {
      SkipHere(t, i + 1);
      ToksSkip(t, i + 1, i + 2);
      SpreadToks(s, t, i + 2);
    } else {
      if i + 1 < |s| { Next(s, t, i + 1); }
      SpreadToks(s, t, i + 1);
    }
  }

  lemma {:induction false} SameEnd(s: string, t: string, i: nat, e: nat)
    requires i <= e <= |s| == |t| && e == WordEnd(s, i) && t[i..e] == s[i..e] && (e < |s| ==> t[e] == s[e])
    ensures WordEnd(t, i) == e
    decreases e - i
  {
    if i < e {
      assert t[i] == t[i..e][0] && s[i] == s[i..e][0];
      assert t[i + 1..e] == t[i..e][1..] && s[i + 1..e] == s[i..e][1..];
      SameEnd(s, t, i + 1, e);
    }
  }

  /**
   For every line: with each >> replaced by > and a blank it parses to the same tree, over the same
   words at the same places, or fails as before.
   */
  lemma AppendIsNoAppend(s: string)
    ensures var t := Spread(s);
            && Toks(t, 0) == Plain(Toks(s, 0)) && SameWords(s, t, Toks(s, 0))
            && ParseLine(Toks(t, 0)) == Same(ParseLine(Toks(s, 0)))
  {
    var t := Spread(s);
    assert s[0..] == s && t[0..] == t;
    SpreadToks(s, t, 0);
    PlainLine(Toks(s, 0));
  }

  /** At one line: a>>b opens b for writing from its start, as a> b does. */
  lemma AppendCase()
    ensures Spread("a>>b") == "a> b"
    ensures ParseLine(Toks("a>>b", 0)) == Ok(Redir(Exec([(0, 1)]), (3, 4), How(O_WRONLY + O_CREATE, 1)), [])
    ensures ParseLine(Toks("a> b", 0)) == ParseLine(Toks("a>>b", 0))
  {
    var s := "a>>b";
    assert s[3..] == "b" && s[1..] == ">>b" && s[1..][2..] == "b";
    assert Spread(s) == "a> b";
    CaseToks(s);
    CaseParse<Span>((0, 1), (3, 4));
    AppendIsNoAppend(s);
  }

  lemma CaseToks(s: string)
    requires s == "a>>b"
    ensures Toks(s, 0) == [Word((0, 1)), Sym('+'), Word((3, 4))]
  {
    assert WordEnd(s, 0) == 1 && WordEnd(s, 3) == 4;
    NoTokens(s);
    FirstTok(s, 3);
    FirstTok(s, 1);
    FirstTok(s, 0);
  }

  lemma CaseParse<W>(a: W, b: W)
    ensures ParseLine([Word(a), Sym('+'), Word(b)]) == Ok(Redir(Exec([a]), b, HowOf('+')), [])
  {
    var ts: seq<Tok<W>> := [Word(a), Sym('+'), Word(b)];
    assert ts[1..] == [Sym('+'), Word(b)] && ts[1..][2..] == [];
    RedirsNone([], ts);
    RedirsNone([(b, HowOf('+'))], []);
    assert [] + [(b, HowOf('+'))] == [(b, HowOf('+'))] && [] + [a] == [a];
    ExecWords(ts, [], ts);
    ArgsStep([], [], ts, [(b, HowOf('+'))], []);
    ArgsStop([a], [(b, HowOf('+'))], []);
    assert [(b, HowOf('+'))][..0] == [];
  }
}

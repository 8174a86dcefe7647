/**
 The tokens of a line, by position, and the text of a command: printing a command tree,
 lexing and parsing the text gives the tree back.
 */
module ShText {
  import opened ShParse
  import opened ShNames

  /** A word as the shell has it: where it starts and where it ends. */
  type Span = (nat, nat)

  predicate Space(c: char) { c == ' ' || c == '\t' || c == '\r' || c == '\n' || c == '\U{b}' }

  predicate Symbol(c: char) { c == '<' || c == '|' || c == '>' || c == '&' || c == ';' || c == '(' || c == ')' }

  function Skip(s: string, i: nat): (r: nat)
    requires i <= |s|
    ensures i <= r <= |s| && (r < |s| ==> !Space(s[r])) && forall k :: i <= k < r ==> Space(s[k])
    decreases |s| - i
  {
    if i < |s| && Space(s[i]) then Skip(s, i + 1) else i
  }

  function WordEnd(s: string, i: nat): (r: nat)
    requires i <= |s|
    ensures i <= r <= |s| && (r < |s| ==> Space(s[r]) || Symbol(s[r]))
    ensures forall k :: i <= k < r ==> !Space(s[k]) && !Symbol(s[k])
    decreases |s| - i
  {
    if i < |s| && !Space(s[i]) && !Symbol(s[i]) then WordEnd(s, i + 1) else i
  }

  /** The token at i, where there is no space, and where it ends. */
  function TokAt(s: string, i: nat): (r: (Tok<Span>, nat))
    requires i < |s| && !Space(s[i])
    ensures i < r.1 <= |s|
  {
    if !Symbol(s[i]) then (Word((i, WordEnd(s, i))), WordEnd(s, i))
    else if s[i] == '>' && i + 1 < |s| && s[i + 1] == '>' then (Sym('+'), i + 2)
    else (Sym(s[i]), i + 1)
  }

  /** All tokens from i on. */
  function Toks(s: string, i: nat): seq<Tok<Span>>
    requires i <= |s|
    decreases |s| - i
  {
    var j := Skip(s, i);
    if j == |s| then [] else [TokAt(s, j).0] + Toks(s, TokAt(s, j).1)
  }

  lemma {:induction false} ToksSkip(s: string, i: nat, j: nat)
    requires i <= |s| && i <= j <= Skip(s, i)
    ensures j <= |s| && Toks(s, j) == Toks(s, i)
    decreases j - i
  {
    if i < j {
      ToksSkip(s, i + 1, j);
    }
  }

  // ----- Words and their places -----

  /** Words lie in order and do not touch: between the end of one and the start of another there is something. */
  ghost predicate Spaced(s: string, i: nat, ts: seq<Tok<Span>>) {
    && (forall k :: 0 <= k < |ts| && ts[k].Word? ==> i <= ts[k].w.0 < ts[k].w.1 <= |s|)
    && (forall j, k :: 0 <= j < k < |ts| && ts[j].Word? && ts[k].Word? ==> ts[j].w.1 < ts[k].w.0)
  }

  lemma {:induction false} ToksSpaced(s: string, i: nat)
    requires i <= |s|
    ensures Spaced(s, i, Toks(s, i))
    decreases |s| - i
  {
    var j := Skip(s, i);
    if j < |s| {
      var (t, e) := TokAt(s, j);
      ToksSpaced(s, e);
      var rest := Toks(s, e);
      if t.Word? && e < |s| {
        WordGap(s, e);
      }
      assert Toks(s, i) == [t] + rest;
    }
  }

  /** After a word comes a space or a symbol, so no word starts there. */
  lemma {:induction false} WordGap(s: string, e: nat)
    requires e < |s| && (Space(s[e]) || Symbol(s[e]))
    ensures forall k :: 0 <= k < |Toks(s, e)| && Toks(s, e)[k].Word? ==> e < Toks(s, e)[k].w.0
    decreases |s| - e
  {
    if Space(s[e]) {
      ToksSkip(s, e, e + 1);
      ToksSpaced(s, e + 1);
    } else {
      var (t, e') := TokAt(s, e);
      ToksSpaced(s, e');
      assert Toks(s, e) == [t] + Toks(s, e');
    }
  }

  // ----- Text -----

  /** The word that a span is in s. */
  function Name(s: string): Span -> string {
    (w: Span) => if w.0 <= w.1 <= |s| then s[w.0..w.1] else ""
  }

  predicate GoodWord(w: string) {
    w != "" && forall k :: 0 <= k < |w| ==> !Space(w[k]) && !Symbol(w[k])
  }

  /** What the printer prints: words that are words, and symbols of one character. */
  predicate GoodTok(t: Tok<string>) {
    match t
    case Sym(c) => Symbol(c)
    case Word(w) => GoodWord(w)
  }

  function TokText(t: Tok<string>): string {
    match t
    case Sym(c) => [c]
    case Word(w) => w
  }

  /** Tokens with a blank after each. */
  function Render(ts: seq<Tok<string>>): string {
    if ts == [] then "" else TokText(ts[0]) + " " + Render(ts[1..])
  }

  lemma {:induction false} LexRender(pre: string, ts: seq<Tok<string>>)
    requires forall k :: 0 <= k < |ts| ==> GoodTok(ts[k])
    ensures var s := pre + Render(ts); MapToks(Name(s), Toks(s, |pre|)) == ts
    decreases |ts|
  {
    hide Toks, TokAt, Skip, Space, Symbol, Name, TokText, GoodTok;
    var s := pre + Render(ts);
    if ts == [] {
      NoTokens(s);
      assert |s| == |pre|;
    } else {
      var x, post := TokText(ts[0]), Render(ts[1..]);
      assert s == pre + x + " " + post && s == (pre + x + " ") + post;
      LexRender(pre + x + " ", ts[1..]);
      LexStep(s, pre, ts[0], post);
      assert ts == [ts[0]] + ts[1..];
    }
  }

  lemma NoTokens(s: string)
    ensures Toks(s, |s|) == []
  {
  }

  lemma {:induction false} LexStep(s: string, pre: string, t: Tok<string>, post: string)
    requires GoodTok(t) && s == pre + TokText(t) + " " + post
    ensures var i, j := |pre|, |pre| + |TokText(t)| + 1;
            MapToks(Name(s), Toks(s, i)) == [t] + MapToks(Name(s), Toks(s, j))
  {
    hide Toks, TokAt, Skip, Space, Symbol, Name, TokText, GoodTok;
    var i, j := |pre|, |pre| + |TokText(t)| + 1;
    OneToken(pre, t, post);
    FirstTok(s, i);
    ToksSkip(s, j - 1, j);
    MapCons(Name(s), TokAt(s, i).0, Toks(s, j));
  }

  lemma FirstTok(s: string, i: nat)
    requires i < |s| && Skip(s, i) == i
    ensures Toks(s, i) == [TokAt(s, i).0] + Toks(s, TokAt(s, i).1)
  {
  }

  lemma {:induction false} OneToken(pre: string, t: Tok<string>, post: string)
    requires GoodTok(t)
    ensures var x := TokText(t); var s := pre + x + " " + post; var i := |pre|;
            && i < |s| && !Space(s[i]) && Skip(s, i) == i
            && TokAt(s, i).1 == i + |x| && MapTok(Name(s), TokAt(s, i).0) == t
            && Skip(s, i + |x|) >= i + |x| + 1
  {
    var x := TokText(t);
    var s := pre + x + " " + post;
    var i := |pre|;
    assert s[i] == x[0] && s[i + |x|] == ' ' && s[i..i + |x|] == x;
    if t.Word? {
      assert forall k :: 0 <= k < |x| ==> s[i + k] == x[k];
      EndOf(s, i, i + |x|);
    }
  }

  lemma {:induction false} EndOf(s: string, i: nat, e: nat)
    requires i <= e < |s| && Space(s[e]) && forall k :: i <= k < e ==> !Space(s[k]) && !Symbol(s[k])
    ensures WordEnd(s, i) == e
    decreases e - i
  {
    if i < e { EndOf(s, i + 1, e); }
  }

  // ----- The whole way round -----

  predicate GoodCmd(c: Cmd<string>) {
    match c
    case Exec(argv) => |argv| < MAXARGS && forall k :: 0 <= k < |argv| ==> GoodWord(argv[k])
    case Redir(d, file, how) => GoodWord(file) && Known(how) && GoodCmd(d)
    case Pipe(l, r) => GoodCmd(l) && GoodCmd(r)
    case List(l, r) => GoodCmd(l) && GoodCmd(r)
    case Back(d) => GoodCmd(d)
  }

  ghost predicate AllGood(ts: seq<Tok<string>>) { forall k :: 0 <= k < |ts| ==> GoodTok(ts[k]) }

  lemma {:induction false} GoodWords(ws: seq<string>)
    requires forall k :: 0 <= k < |ws| ==> GoodWord(ws[k])
    ensures AllGood(PrintWords(ws))
    decreases |ws|
  {
    if ws != [] { GoodWords(ws[1..]); }
  }

  lemma {:induction false} GoodCore(c: Cmd<string>)
    requires GoodCmd(c)
    ensures GoodCmd(Core(c)) && AllGood(PrintRedirs(Around(c)))
  {
    if c.Redir? {
      GoodCore(c.cmd);
      var rs := Around(c);
      assert rs[..|rs| - 1] == Around(c.cmd);
    }
  }

  lemma {:induction false} GoodExec(c: Cmd<string>)
    requires GoodCmd(c)
    ensures AllGood(PrintExec(c))
    decreases c, if c.Exec? || c.Redir? then 0 else 4
  {
    CoreSmaller(c);
    GoodCore(c);
    if Core(c).Exec? { GoodWords(Core(c).argv); } else { GoodLine(Core(c)); }
  }

  lemma {:induction false} GoodPipe(c: Cmd<string>)
    requires GoodCmd(c)
    ensures AllGood(PrintPipe(c))
    decreases c, if c.Back? || c.List? then 5 else 1
  {
    if c.Pipe? { GoodExec(c.left); GoodPipe(c.right); } else { GoodExec(c); }
  }

  lemma {:induction false} GoodBack(c: Cmd<string>)
    requires GoodCmd(c)
    ensures AllGood(PrintBack(c))
    decreases c, if c.List? then 6 else 2
  {
    if c.Back? { GoodBack(c.cmd); } else { GoodPipe(c); }
  }

  lemma {:induction false} GoodLine(c: Cmd<string>)
    requires GoodCmd(c)
    ensures AllGood(PrintLine(c))
    decreases c, 3
  {
    if c.List? { GoodBack(c.left); GoodLine(c.right); } else { GoodBack(c); }
  }

  lemma {:induction false} GoodFits(c: Cmd<string>)
    requires GoodCmd(c)
    ensures Fits(c)
  {
    match c
    case Exec(_) =>
    case Redir(d, _, _) => GoodFits(d);
    case Pipe(l, r) => GoodFits(l); GoodFits(r);
    case List(l, r) => GoodFits(l); GoodFits(r);
    case Back(d) => GoodFits(d);
  }

  /** The text of a command. */
  function Text(c: Cmd<string>): string { Render(PrintLine(c)) }

  /** Every command tree is what its text parses to. */
  lemma ParseInvertsPrint(c: Cmd<string>)
    requires GoodCmd(c)
    ensures var s := Text(c); var r := ParseLine(Toks(s, 0));
            r.Ok? && r.rest == [] && MapCmd(Name(s), r.cmd) == c
  {
    var s, ts := Text(c), PrintLine(c);
    GoodLine(c);
    GoodFits(c);
    LexRender("", ts);
    assert "" + Render(ts) == s;
    LineBack(c, []);
    assert ts + [] == ts;
    MapParseLine(Name(s), Toks(s, 0));
  }
}

/**
 How gettoken of sh.c reads a line, for any way of laying it out: blanks of five kinds between tokens, or none where
 none are needed, and >> as one token.
 */
module ShLex {
  import opened ShParse
  import opened ShNames
  import opened ShText

  const BLANKS := " \t\r\n\U{b}"
  const MARKS := "<|>&;()"

  /** A token and the blanks before it. */
  datatype Piece = Piece(gap: string, t: Tok<string>)

  predicate Blank(w: string) { forall k :: 0 <= k < |w| ==> w[k] in BLANKS }

  predicate Plain(w: string) { w != "" && forall k :: 0 <= k < |w| ==> w[k] !in BLANKS && w[k] !in MARKS }

  /** A token as it is written; '+' is >>. */
  function Written(t: Tok<string>): string {
    match t
    case Sym(c) => if c == '+' then ">>" else [c]
    case Word(w) => w
  }

  /** The token ends where it should, with this text after it. */
  predicate Ends(t: Tok<string>, rest: string) {
    match t
    case Sym(c) => c == '+' || (c in MARKS && (c == '>' ==> rest == "" || rest[0] != '>'))
    case Word(w) => Plain(w) && (rest == "" || rest[0] in BLANKS || rest[0] in MARKS)
  }

  function Line(ps: seq<Piece>, last: string): string {
    if ps == [] then last else ps[0].gap + Written(ps[0].t) + Line(ps[1..], last)
  }

  predicate Laid(ps: seq<Piece>, last: string) {
    if ps == [] then Blank(last) else Blank(ps[0].gap) && Ends(ps[0].t, Line(ps[1..], last)) && Laid(ps[1..], last)
  }

  function Tokens(ps: seq<Piece>): seq<Tok<string>> {
    if ps == [] then [] else [ps[0].t] + Tokens(ps[1..])
  }

  lemma {:induction false} SkipTo(s: string, i: nat, j: nat)
    requires i <= j <= |s| && (j < |s| ==> s[j] !in BLANKS) && forall k :: i <= k < j ==> s[k] in BLANKS
    ensures Skip(s, i) == j
    decreases j - i
  {
    if i < j { SkipTo(s, i + 1, j); }
  }

  lemma {:induction false} WordTo(s: string, i: nat, e: nat)
    requires i <= e <= |s| && (e < |s| ==> s[e] in BLANKS || s[e] in MARKS)
    requires forall k :: i <= k < e ==> s[k] !in BLANKS && s[k] !in MARKS
    ensures WordEnd(s, i) == e
    decreases e - i
  {
    if i < e { WordTo(s, i + 1, e); }
  }

  lemma OneTok(s: string, pre: string, t: Tok<string>, rest: string)
    requires s == pre + Written(t) + rest && Ends(t, rest)
    ensures var i, e := |pre|, |pre| + |Written(t)|;
            && i < e <= |s| && s[i] !in BLANKS && !Space(s[i]) && TokAt(s, i).1 == e && MapTok(Name(s), TokAt(s, i).0) == t
  {
    var x, i, e := Written(t), |pre|, |pre| + |Written(t)|;
    assert s[i..e] == x && forall k :: 0 <= k < |x| ==> s[i + k] == x[k];
    assert rest != "" ==> s[e] == rest[0];
    if t.Word? {
      forall k | i <= k < e ensures s[k] !in BLANKS && s[k] !in MARKS {
        assert s[k] == x[k - i];
      }
      WordTo(s, i, e);
    } else if t.c == '+' {
      assert x[0] == '>' && x[1] == '>';
    }
  }

  /** Every line that is laid out from tokens is read as those tokens. */
  lemma {:induction false} ReadsLine(pre: string, ps: seq<Piece>, last: string)
    requires Laid(ps, last)
    ensures var s := pre + Line(ps, last); MapToks(Name(s), Toks(s, |pre|)) == Tokens(ps)
    decreases |ps|
  {
    hide TokAt, WordEnd, Space, Symbol, Name, Ends, Written, Blank;
    var s := pre + Line(ps, last);
    if ps == [] {
      AllBlank(s, pre, last);
    } else {
      var p, rest := ps[0], Line(ps[1..], last);
      var before := pre + p.gap;
      assert s == before + Written(p.t) + rest;
      OneTok(s, before, p.t, rest);
      GapIs(s, pre, p.gap);
      var next := before + Written(p.t);
      assert s == next + rest;
      ReadsLine(next, ps[1..], last);
      MapCons(Name(s), TokAt(s, |before|).0, Toks(s, |next|));
      assert Toks(s, |pre|) == [TokAt(s, |before|).0] + Toks(s, |next|);
    }
  }

  lemma AllBlank(s: string, pre: string, last: string)
    requires s == pre + last && Blank(last)
    ensures Toks(s, |pre|) == []
  {
    forall k | |pre| <= k < |s| ensures s[k] in BLANKS { assert s[k] == last[k - |pre|]; }
    SkipTo(s, |pre|, |s|);
  }

  lemma GapIs(s: string, pre: string, gap: string)
    requires |pre + gap| < |s| && pre + gap <= s && Blank(gap) && s[|pre + gap|] !in BLANKS
    ensures Skip(s, |pre|) == |pre| + |gap|
  {
    forall k | |pre| <= k < |pre| + |gap| ensures s[k] in BLANKS { assert s[k] == (pre + gap)[k] == gap[k - |pre|]; }
    SkipTo(s, |pre|, |pre| + |gap|);
  }
}

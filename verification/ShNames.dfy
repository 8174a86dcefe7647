/**
 The parser looks only at the kind of a token, never at the word in it: replacing the words
 by something else, before or after parsing, is the same.
 */
module ShNames {
  import opened ShParse

  function MapTok<W, V>(f: W -> V, t: Tok<W>): Tok<V> {
    match t
    case Sym(c) => Sym(c)
    case Word(w) => Word(f(w))
  }

  function MapToks<W, V>(f: W -> V, ts: seq<Tok<W>>): (r: seq<Tok<V>>)
    ensures |r| == |ts| && forall i :: 0 <= i < |ts| ==> r[i] == MapTok(f, ts[i])
  {
    seq(|ts|, i requires 0 <= i < |ts| => MapTok(f, ts[i]))
  }

  function MapWords<W, V>(f: W -> V, ws: seq<W>): (r: seq<V>)
    ensures |r| == |ws| && forall i :: 0 <= i < |ws| ==> r[i] == f(ws[i])
  {
    seq(|ws|, i requires 0 <= i < |ws| => f(ws[i]))
  }

  function MapRedirs<W, V>(f: W -> V, rs: seq<(W, How)>): (r: seq<(V, How)>)
    ensures |r| == |rs| && forall i :: 0 <= i < |rs| ==> r[i] == (f(rs[i].0), rs[i].1)
  {
    seq(|rs|, i requires 0 <= i < |rs| => (f(rs[i].0), rs[i].1))
  }

  function MapCmd<W, V>(f: W -> V, c: Cmd<W>): Cmd<V> {
    match c
    case Exec(argv) => Exec(MapWords(f, argv))
    case Redir(d, file, how) => Redir(MapCmd(f, d), f(file), how)
    case Pipe(l, r) => Pipe(MapCmd(f, l), MapCmd(f, r))
    case List(l, r) => List(MapCmd(f, l), MapCmd(f, r))
    case Back(d) => Back(MapCmd(f, d))
  }

  function MapResult<W, V>(f: W -> V, r: Result<W>): Result<V> {
    match r
    case Fail => Fail
    case Ok(c, rest) => Ok(MapCmd(f, c), MapToks(f, rest))
  }

  lemma {:induction false} MapWrap<W, V>(f: W -> V, c: Cmd<W>, rs: seq<(W, How)>)
    ensures MapCmd(f, Wrap(c, rs)) == Wrap(MapCmd(f, c), MapRedirs(f, rs))
    decreases |rs|
  {
    if rs != [] {
      var n := |rs| - 1;
      MapWrap(f, c, rs[..n]);
      assert MapRedirs(f, rs)[..n] == MapRedirs(f, rs[..n]);
    }
  }

  lemma {:induction false} MapCons<W, V>(f: W -> V, t: Tok<W>, ts: seq<Tok<W>>)
    ensures MapToks(f, [t] + ts) == [MapTok(f, t)] + MapToks(f, ts)
  {
  }

  lemma MapDrop<W, V>(f: W -> V, ts: seq<Tok<W>>, k: nat)
    requires k <= |ts|
    ensures MapToks(f, ts)[k..] == MapToks(f, ts[k..])
  {
  }

  lemma MapStarts<W, V>(f: W -> V, ts: seq<Tok<W>>, c: char)
    ensures Starts(MapToks(f, ts), c) == Starts(ts, c)
    ensures RedirNext(MapToks(f, ts)) == RedirNext(ts) && StopNext(MapToks(f, ts)) == StopNext(ts)
  {
  }

  lemma {:induction false} MapParseRedirs<W, V>(f: W -> V, rs: seq<(W, How)>, ts: seq<Tok<W>>)
    ensures ParseRedirs(MapRedirs(f, rs), MapToks(f, ts)) ==
            match ParseRedirs(rs, ts) case Bad => Bad case Got(rs', rest) => Got(MapRedirs(f, rs'), MapToks(f, rest))
    decreases |ts|
  {
    MapStarts(f, ts, '(');
    if RedirNext(ts) && |ts| >= 2 && ts[1].Word? {
      var r := (ts[1].w, HowOf(ts[0].c));
      MapDrop(f, ts, 2);
      MapParseRedirs(f, rs + [r], ts[2..]);
      assert MapRedirs(f, rs + [r]) == MapRedirs(f, rs) + [(f(r.0), r.1)];
    }
  }

  lemma {:induction false} MapParseArgs<W, V>(f: W -> V, argv: seq<W>, rs: seq<(W, How)>, ts: seq<Tok<W>>)
    ensures ParseArgs(MapWords(f, argv), MapRedirs(f, rs), MapToks(f, ts)) == MapResult(f, ParseArgs(argv, rs, ts))
    decreases |ts|
  {
    hide ParseRedirs, Wrap;
    MapStarts(f, ts, '(');
    if ts == [] || StopNext(ts) {
      MapWrap(f, Exec(argv), rs);
    } else if ts[0].Word? && |argv| + 1 < MAXARGS {
      MapDrop(f, ts, 1);
      MapParseRedirs(f, rs, ts[1..]);
      var got := ParseRedirs(rs, ts[1..]);
      if got.Got? {
        MapParseArgs(f, argv + [ts[0].w], got.rs, got.rest);
        assert MapWords(f, argv + [ts[0].w]) == MapWords(f, argv) + [f(ts[0].w)];
      }
    }
  }

  lemma {:induction false} MapParseExec<W, V>(f: W -> V, ts: seq<Tok<W>>)
    ensures ParseExec(MapToks(f, ts)) == MapResult(f, ParseExec(ts))
    decreases |ts|, 0
  {
    MapStarts(f, ts, '(');
    if Starts(ts, '(') {
      MapParseBlock(f, ts);
    } else {
      hide ParseRedirs, ParseArgs, Wrap;
      MapParseRedirs(f, [], ts);
      assert MapRedirs(f, []) == [] && MapWords<W, V>(f, []) == [];
      var got := ParseRedirs([], ts);
      if got.Got? { MapParseArgs(f, [], got.rs, got.rest); }
    }
  }

  lemma {:induction false} MapParseBlock<W, V>(f: W -> V, ts: seq<Tok<W>>)
    requires Starts(ts, '(')
    ensures ParseExec(MapToks(f, ts)) == MapResult(f, ParseExec(ts))
    decreases |ts|, -1
  {
    hide ParseLine, ParseRedirs, Wrap;
    MapStarts(f, ts, '(');
    MapDrop(f, ts, 1);
    MapParseLine(f, ts[1..]);
    var r := ParseLine(ts[1..]);
    if r.Ok? {
      MapStarts(f, r.rest, ')');
      if Starts(r.rest, ')') {
        MapDrop(f, r.rest, 1);
        MapParseRedirs(f, [], r.rest[1..]);
        assert MapRedirs(f, []) == [];
        var got := ParseRedirs([], r.rest[1..]);
        if got.Got? { MapWrap(f, r.cmd, got.rs); }
      }
    }
  }

  lemma {:induction false} MapParsePipe<W, V>(f: W -> V, ts: seq<Tok<W>>)
    ensures ParsePipe(MapToks(f, ts)) == MapResult(f, ParsePipe(ts))
    decreases |ts|, 1
  {
    hide ParseExec;
    MapParseExec(f, ts);
    var r := ParseExec(ts);
    if r.Ok? {
      MapStarts(f, r.rest, '|');
      if Starts(r.rest, '|') {
        MapDrop(f, r.rest, 1);
        MapParsePipe(f, r.rest[1..]);
      }
    }
  }

  lemma {:induction false} MapParseTail<W, V>(f: W -> V, c: Cmd<W>, ts: seq<Tok<W>>)
    ensures ParseTail(MapCmd(f, c), MapToks(f, ts)) == MapResult(f, ParseTail(c, ts))
    decreases |ts|, 2
  {
    hide ParseLine;
    MapStarts(f, ts, '&');
    MapStarts(f, ts, ';');
    if Starts(ts, '&') {
      MapDrop(f, ts, 1);
      MapParseTail(f, Back(c), ts[1..]);
    } else if Starts(ts, ';') {
      MapDrop(f, ts, 1);
      MapParseLine(f, ts[1..]);
    }
  }

  /** Parsing commutes with renaming the words. */
  lemma {:induction false} MapParseLine<W, V>(f: W -> V, ts: seq<Tok<W>>)
    ensures ParseLine(MapToks(f, ts)) == MapResult(f, ParseLine(ts))
    decreases |ts|, 3
  {
    hide ParsePipe, ParseTail;
    MapParsePipe(f, ts);
    var r := ParsePipe(ts);
    if r.Ok? { MapParseTail(f, r.cmd, r.rest); }
  }
}

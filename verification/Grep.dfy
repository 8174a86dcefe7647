/**
 The matcher of grep.c, after chapter 9 of The Practice of Programming: the functions decide
 a declarative reading of the pattern. A string here ends where the C string has its null.
 */
module Grep {

  /** c* , one character (or any, for '.'), and the end of the text. */
  datatype Item = Star(c: char) | One(c: char) | End

  /** How matchhere reads a pattern, from the left. */
  function Items(re: string): seq<Item>
    decreases |re|
  {
    if re == "" then []
    else if |re| >= 2 && re[1] == '*' then [Star(re[0])] + Items(re[2..])
    else if re == "$" then [End]
    else [One(re[0])] + Items(re[1..])
  }

  predicate Char(c: char, x: char) { c == '.' || c == x }

  /** The words that an item stands for. */
  predicate Fits(item: Item, w: string) {
    match item
    case Star(c) => forall k :: 0 <= k < |w| ==> Char(c, w[k])
    case One(c) => |w| == 1 && Char(c, w[0])
    case End => w == ""
  }

  function Concat(parts: seq<string>): string {
    if parts == [] then "" else parts[0] + Concat(parts[1..])
  }

  /** parts is the beginning of text, cut up among the items; the end item needs all of the text. */
  ghost predicate Cut(items: seq<Item>, parts: seq<string>, text: string) {
    && |parts| == |items| && (forall k :: 0 <= k < |items| ==> Fits(items[k], parts[k]))
    && Concat(parts) <= text && (End in items ==> Concat(parts) == text)
  }

  /** The text begins with a match. */
  ghost predicate Begins(items: seq<Item>, text: string) {
    exists parts :: Cut(items, parts, text)
  }

  /** A match anywhere in the text, or only at its beginning after ^. */
  ghost predicate Matches(re: string, text: string) {
    if re != "" && re[0] == '^' then Begins(Items(re[1..]), text)
    else exists i :: 0 <= i <= |text| && Begins(Items(re), text[i..])
  }

  // ----- Item by item -----

  lemma NothingLeft(text: string)
    ensures Begins([], text)
  {
    assert Cut([], [], text);
  }

  lemma EndIs(text: string)
    ensures Begins([End], text) <==> text == ""
  {
    if text == "" {
      var parts := [""];
      assert Concat(parts[1..]) == "";
      assert Cut([End], parts, text);
    }
    var one := [End];
    assert one[0] == End && End in one;
    forall parts | Cut(one, parts, text) ensures text == "" {
      assert parts[1..] == [] && Fits(one[0], parts[0]);
      assert Concat(parts) == parts[0] + Concat(parts[1..]) == "";
    }
  }

  /** The first item takes some of the text, and the others go on from there. */
  lemma FirstTakes(items: seq<Item>, text: string, k: nat)
    requires items != [] && items[0] != End && k <= |text| && Fits(items[0], text[..k]) && Begins(items[1..], text[k..])
    ensures Begins(items, text)
  {
    var parts :| Cut(items[1..], parts, text[k..]);
    var all := [text[..k]] + parts;
    assert all[1..] == parts && Concat(all) == text[..k] + Concat(parts);
    assert text == text[..k] + text[k..];
    assert Cut(items, all, text) by {
      assert End in items ==> End in items[1..];
    }
  }

  lemma TakenByFirst(items: seq<Item>, text: string) returns (k: nat)
    requires items != [] && items[0] != End && Begins(items, text)
    ensures k <= |text| && Fits(items[0], text[..k]) && Begins(items[1..], text[k..])
  {
    var parts :| Cut(items, parts, text);
    k := |parts[0]|;
    assert parts[0] <= text;
    assert Cut(items[1..], parts[1..], text[k..]);
  }

  lemma OneIs(c: char, items: seq<Item>, text: string)
    ensures Begins([One(c)] + items, text) <==> text != "" && Char(c, text[0]) && Begins(items, text[1..])
  {
    var all := [One(c)] + items;
    assert all[1..] == items;
    if Begins(all, text) {
      var k := TakenByFirst(all, text);
      assert text[..k][0] == text[0];
    }
    if text != "" && Char(c, text[0]) && Begins(items, text[1..]) {
      FirstTakes(all, text, 1);
    }
  }

  /** The first k characters are all c. */
  predicate RunOf(c: char, text: string, k: nat)
    requires k <= |text|
  {
    forall i :: 0 <= i < k ==> Char(c, text[i])
  }

  lemma StarIs(c: char, items: seq<Item>, text: string)
    ensures Begins([Star(c)] + items, text) <==> exists k :: 0 <= k <= |text| && RunOf(c, text, k) && Begins(items, text[k..])
  {
    var all := [Star(c)] + items;
    assert all[1..] == items;
    if Begins(all, text) {
      var k := TakenByFirst(all, text);
      assert forall i :: 0 <= i < k ==> text[i] == text[..k][i];
      assert RunOf(c, text, k);
    }
    if k :| 0 <= k <= |text| && RunOf(c, text, k) && Begins(items, text[k..]) {
      FirstTakes(all, text, k);
    }
  }

  // ----- How a pattern is written -----

  function Show(item: Item): string {
    match item
    case Star(c) => [c, '*']
    case One(c) => [c]
    case End => "$"
  }

  function Text(items: seq<Item>): string {
    if items == [] then "" else Show(items[0]) + Text(items[1..])
  }

  /** Items that a pattern can mean: the end only at the end, where a $ means it, and no star after what is to be a single character. */
  predicate Proper(items: seq<Item>) {
    items != [] ==>
      && Proper(items[1..])
      && (items[0] == End ==> |items| == 1)
      && (items[0] == One('$') ==> |items| > 1)
      && (items[0].One? ==> Text(items[1..]) == "" || Text(items[1..])[0] != '*')
  }

  /** Every pattern is the text of its items, ... */
  lemma {:induction false} TextOfItems(re: string)
    ensures Text(Items(re)) == re && Proper(Items(re))
    decreases |re|
  {
    if re != "" {
      if |re| >= 2 && re[1] == '*' {
        TextOfItems(re[2..]);
        assert re == [re[0], '*'] + re[2..];
      } else if re == "$" {
        assert Items(re)[1..] == [];
      } else {
        TextOfItems(re[1..]);
        assert re == [re[0]] + re[1..];
      }
    }
  }

  /** ... and is read as them, whatever they are. */
  lemma {:induction false} ItemsOfText(items: seq<Item>)
    requires Proper(items)
    ensures Items(Text(items)) == items
    decreases |items|
  {
    if items != [] {
      var rest := Text(items[1..]);
      ItemsOfText(items[1..]);
      match items[0]
      case Star(c) =>
        assert ([c, '*'] + rest)[2..] == rest;
      case One(c) =>
        assert ([c] + rest)[1..] == rest;
        if rest == "" { assert items[1..] == []; }
      case End =>
        assert items[1..] == [];
        assert Text(items) == "$";
    }
  }

  /** A literal or a dot in front of a pattern, c* in front of it, and a $ at its end. */
  lemma ReadsAs(c: char, re: string, text: string)
    ensures (re == "" || re[0] != '*') && !(c == '$' && re == "") ==>
      (Begins(Items([c] + re), text) <==> text != "" && (c == '.' || c == text[0]) && Begins(Items(re), text[1..]))
    ensures Begins(Items([c, '*'] + re), text) <==>
      exists k :: 0 <= k <= |text| && RunOf(c, text, k) && Begins(Items(re), text[k..])
    ensures Begins(Items("$"), text) <==> text == ""
    ensures Begins(Items(""), text)
  {
    assert ([c] + re)[1..] == re && ([c, '*'] + re)[2..] == re;
    assert Items([c, '*'] + re) == [Star(c)] + Items(re) && Items("$") == [End];
    if (re == "" || re[0] != '*') && !(c == '$' && re == "") {
      assert Items([c] + re) == [One(c)] + Items(re);
    }
    OneIs(c, Items(re), text);
    StarIs(c, Items(re), text);
    EndIs(text);
    NothingLeft(text);
  }

  /** ^ in front holds the match to the beginning; anywhere else it is a character, and the match may be anywhere. */
  lemma Anchored(re: string, text: string)
    ensures Matches("^" + re, text) <==> Begins(Items(re), text)
    ensures re == "" || re[0] != '^' ==> (Matches(re, text) <==> exists before: string, rest: string :: before + rest == text && Begins(Items(re), rest))
  {
    assert ("^" + re)[1..] == re;
    if re == "" || re[0] != '^' {
      if Matches(re, text) {
        var i :| 0 <= i <= |text| && Begins(Items(re), text[i..]);
        assert text[..i] + text[i..] == text;
      }
      if before: string, rest: string :| before + rest == text && Begins(Items(re), rest) {
        assert text[|before|..] == rest;
      }
    }
  }

  // ----- The matcher -----

  /** matchhere: does the text begin with a match? */
  method MatchHere(re: string, text: string) returns (b: bool)
    ensures b <==> Begins(Items(re), text)
    decreases |re|, 0
  {
    if re == "" {
      NothingLeft(text);
      return true;
    }
    if |re| >= 2 && re[1] == '*' {
      assert Items(re) == [Star(re[0])] + Items(re[2..]);
      b := MatchStar(re[0], re[2..], text);
      return;
    }
    if re == "$" {
      EndIs(text);
      return text == "";
    }
    assert Items(re) == [One(re[0])] + Items(re[1..]);
    OneIs(re[0], Items(re[1..]), text);
    if text != "" && (re[0] == '.' || re[0] == text[0]) {
      b := MatchHere(re[1..], text[1..]);
    } else {
      b := false;
    }
  }

  /** matchstar: zero or more c, then re. */
  method MatchStar(c: char, re: string, text: string) returns (b: bool)
    ensures b <==> Begins([Star(c)] + Items(re), text)
    decreases |re|, 1
  {
    StarIs(c, Items(re), text);
    var i := 0;
    while true
      invariant i <= |text| && RunOf(c, text, i)
      invariant forall k :: 0 <= k < i ==> !Begins(Items(re), text[k..])
      decreases |text| - i
    {
      b := MatchHere(re, text[i..]);
      if b {
        return;
      }
      if i == |text| || !(text[i] == c || c == '.') {
        break;
      }
      i := i + 1;
    }
    b := false;
  }

  /** match: true exactly when the pattern matches somewhere in the text. */
  method Match(re: string, text: string) returns (b: bool)
    ensures b <==> Matches(re, text)
  {
    if re != "" && re[0] == '^' {
      b := MatchHere(re[1..], text);
      return;
    }
    var i := 0;
    while true
      invariant i <= |text| && forall k :: 0 <= k < i ==> !Begins(Items(re), text[k..])
      decreases |text| - i
    {
      b := MatchHere(re, text[i..]);
      if b || i == |text| {
        return;
      }
      i := i + 1;
    }
  }
}

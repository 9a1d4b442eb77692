/**
 The matcher of user/grep.c against a declarative meaning of its patterns: a pattern
 is a sequence of items, and text matches it at the start when a first part of the
 text splits into one piece for each item.  Strings end where C strings have their NUL.
 */
module Grep {

  datatype Item =
    | One(c: char)    // c itself, or any character if c is '.'
    | Star(c: char)   // any number of them
    | End             // '$' as the last character

  /** How a pattern is read: a star makes the character before it an item with it, and only a last '$' is special. */
  function Items(re: string): (p: seq<Item>) {
    if re == [] then []
    else if |re| > 1 && re[1] == '*' then [Star(re[0])] + Items(re[2..])
    else if re == "$" then [End]
    else [One(re[0])] + Items(re[1..])
  }

  /** An item as it is written */
  function Spelled(i: Item): (s: string) {
    match i
    case One(c) => [c]
    case Star(c) => [c, '*']
    case End => "$"
  }

  function Spell(p: seq<Item>): (s: string) {
    if p == [] then [] else Spelled(p[0]) + Spell(p[1..])
  }

  /** Reading a pattern loses nothing: its items spell it. */
  lemma {:induction false} ItemsSpell(re: string)
    ensures Spell(Items(re)) == re
  {
    if re == [] || re == "$" {
    } else if |re| > 1 && re[1] == '*' {
      ItemsSpell(re[2..]);
      SpellFirst(Star(re[0]), Items(re[2..]));
      assert re == [re[0], '*'] + re[2..];
    } else {
      ItemsSpell(re[1..]);
      SpellFirst(One(re[0]), Items(re[1..]));
      assert re == [re[0]] + re[1..];
    }
  }

  lemma SpellFirst(i: Item, p: seq<Item>)
    ensures Spell([i] + p) == Spelled(i) + Spell(p)
  {
    assert ([i] + p)[1..] == p;
  }

  /** Only a last '$' is the end of the text, it always is, and a star is read with the character before it. */
  predicate ReadWell(p: seq<Item>, k: nat)
    requires k < |p|
  {
    && (p[k] == End ==> k == |p| - 1)
    && (k == |p| - 1 ==> p[k] != One('$'))
    && (k > 0 && Spelled(p[k])[0] == '*' ==> p[k - 1].Star?)
  }

  lemma {:induction false} ItemsReadWell(re: string, k: nat)
    requires k < |Items(re)|
    ensures ReadWell(Items(re), k)
  {
    if re != "$" {
      var n := if |re| > 1 && re[1] == '*' then 2 else 1;
      var p, rest := Items(re), Items(re[n..]);
      assert p[1..] == rest;
      if k > 0 {
        ItemsReadWell(re[n..], k - 1);
        if k == 1 && n == 1 {
          FirstChar(re[1..]);
        }
      }
    }
  }

  lemma FirstChar(re: string)
    requires re != []
    ensures Items(re) != [] && Spelled(Items(re)[0])[0] == re[0]
  {
  }

  predicate Fits(c: char, x: char) {
    c == '.' || c == x
  }

  /** A piece of text that an item stands for */
  predicate Piece(i: Item, w: string) {
    match i
    case One(c) => |w| == 1 && Fits(c, w[0])
    case Star(c) => forall k :: 0 <= k < |w| ==> Fits(c, w[k])
    case End => w == []
  }

  function Joined(ws: seq<string>): (w: string) {
    if ws == [] then [] else ws[0] + Joined(ws[1..])
  }

  /** The text splits into one piece for each item and a rest, which is empty if the pattern ends in '$'. */
  ghost predicate Splits(p: seq<Item>, ws: seq<string>, rest: string, text: string) {
    && |ws| == |p| && (forall k :: 0 <= k < |p| ==> Piece(p[k], ws[k]))
    && Joined(ws) + rest == text
    && (p != [] && p[|p| - 1] == End ==> rest == [])
  }

  /** The pattern matches at the start of the text. */
  ghost predicate Matches(p: seq<Item>, text: string) {
    exists ws, rest :: Splits(p, ws, rest, text)
  }

  /** The pattern matches somewhere in the text. */
  ghost predicate Occurs(p: seq<Item>, text: string) {
    exists k :: 0 <= k <= |text| && Matches(p, text[k..])
  }

  lemma EmptyMatches(text: string)
    ensures Matches([], text)
  {
    assert Splits([], [], text, text);
  }

  lemma EndMatches(text: string)
    ensures Matches([End], text) <==> text == []
  {
    var p := [End];
    if text == [] {
      var ws: seq<string> := [""];
      assert ws[1..] == [];
      assert Splits(p, ws, [], text);
    }
    if ws, rest :| Splits(p, ws, rest, text) {
      assert Piece(p[0], ws[0]) && ws[1..] == [];
      assert p[|p| - 1] == End && Joined(ws) == ws[0] + Joined(ws[1..]);
      assert text == [];
    }
  }

  /** What an item takes, and what is left for the pattern after it */
  lemma FirstPiece(i: Item, p: seq<Item>, text: string, ws: seq<string>, rest: string)
    requires Splits([i] + p, ws, rest, text) && i != End
    ensures Takes(i, p, text, |ws[0]|)
  {
    var q, k, vs := [i] + p, |ws[0]|, ws[1..];
    assert Piece(q[0], ws[0]);
    assert text == ws[0] + (Joined(vs) + rest);
    assert text[..k] == ws[0] && text[k..] == Joined(vs) + rest;
    forall j | 0 <= j < |p|
      ensures Piece(p[j], vs[j])
    {
      assert Piece(q[j + 1], ws[j + 1]);
    }
    assert p != [] ==> q[|q| - 1] == p[|p| - 1];
    assert Splits(p, vs, rest, text[k..]);
  }

  lemma PieceBefore(i: Item, p: seq<Item>, text: string, k: nat)
    requires Takes(i, p, text, k) && i != End
    ensures Matches([i] + p, text)
  {
    var q := [i] + p;
    var ws, rest :| Splits(p, ws, rest, text[k..]);
    var vs := [text[..k]] + ws;
    assert vs[1..] == ws;
    assert Joined(vs) + rest == text[..k] + (Joined(ws) + rest) == text;
    forall j | 0 <= j < |q|
      ensures Piece(q[j], vs[j])
    {
      assert j > 0 ==> Piece(p[j - 1], ws[j - 1]);
    }
    assert if p == [] then q[|q| - 1] == i else q[|q| - 1] == p[|p| - 1];
    assert Splits(q, vs, rest, text);
  }

  /** An item before a pattern takes the first k characters of the text, for some k. */
  lemma ItemMatches(i: Item, p: seq<Item>, text: string)
    requires i != End
    ensures Matches([i] + p, text) <==> exists k :: 0 <= k <= |text| && Takes(i, p, text, k)
  {
    if ws, rest :| Splits([i] + p, ws, rest, text) {
      FirstPiece(i, p, text, ws, rest);
    }
    if k :| 0 <= k <= |text| && Takes(i, p, text, k) {
      PieceBefore(i, p, text, k);
    }
  }

  ghost predicate Takes(i: Item, p: seq<Item>, text: string, k: nat) {
    k <= |text| && Piece(i, text[..k]) && Matches(p, text[k..])
  }

  /** A single character takes just one. */
  lemma OneMatches(c: char, p: seq<Item>, text: string)
    ensures Matches([One(c)] + p, text) <==> text != [] && Fits(c, text[0]) && Matches(p, text[1..])
  {
    ItemMatches(One(c), p, text);
    if text != [] {
      assert text[..1][0] == text[0];
    }
    if text != [] && Fits(c, text[0]) && Matches(p, text[1..]) {
      assert Takes(One(c), p, text, 1);
    }
    if k :| 0 <= k <= |text| && Takes(One(c), p, text, k) {
      assert k == 1;
    }
  }

  /** matchhere: does the pattern match at the start of the text? */
  method MatchHere(re: string, text: string) returns (r: bool)
    ensures r <==> Matches(Items(re), text)
    decreases |re|, 0
  {
    if re == [] {
      EmptyMatches(text);
      return true;
    }
    if |re| > 1 && re[1] == '*' {
      r := MatchStar(re[0], re[2..], text);
      return;
    }
    if re[0] == '$' && |re| == 1 {
      EndMatches(text);
      return text == [];
    }
    OneMatches(re[0], Items(re[1..]), text);
    if text != [] && (re[0] == '.' || re[0] == text[0]) {
      r := MatchHere(re[1..], text[1..]);
      return;
    }
    return false;
  }

  /** matchstar: does c* and then the pattern match at the start of the text? */
  method MatchStar(c: char, re: string, text: string) returns (r: bool)
    ensures r <==> Matches([Star(c)] + Items(re), text)
    decreases |re|, 1
  {
    ItemMatches(Star(c), Items(re), text);
    var k := 0;
    while true
      invariant 0 <= k <= |text| && Piece(Star(c), text[..k])
      invariant forall j :: 0 <= j < k ==> !Takes(Star(c), Items(re), text, j)
      decreases |text| - k
    {
      var here := MatchHere(re, text[k..]);
      if here {
        assert Takes(Star(c), Items(re), text, k);
        return true;
      }
      assert !Takes(Star(c), Items(re), text, k);
      if k == |text| || !(text[k] == c || c == '.') {
        break;
      }
      k := k + 1;
    }
    forall j | k < j <= |text|
      ensures !Takes(Star(c), Items(re), text, j)
    {
      assert text[..j][k] == text[k];
    }
    return false;
  }

  /** match: a pattern that begins with '^' must match at the start, any other one anywhere in the text. */
  method Match(re: string, text: string) returns (r: bool)
    ensures re != [] && re[0] == '^' ==> (r <==> Matches(Items(re[1..]), text))
    ensures re == [] || re[0] != '^' ==> (r <==> Occurs(Items(re), text))
  {
    if re != [] && re[0] == '^' {
      r := MatchHere(re[1..], text);
      return;
    }
    var k := 0;
    while true
      invariant 0 <= k <= |text|
      invariant forall j :: 0 <= j < k ==> !Matches(Items(re), text[j..])
      decreases |text| - k
    {
      r := MatchHere(re, text[k..]);
      if r {
        return;
      }
      if k == |text| {
        break;
      }
      k := k + 1;
    }
  }
}

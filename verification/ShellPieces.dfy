/** Printed text as a sequence of tokens with spaces, and how the tokenizer reads it back. */
module ShellPieces {
  import opened ShellSyntax
  import opened ShellTokens

  /** A token of printed text, with or without a space before it */
  datatype Piece = Piece(space: bool, tok: Token)

  function Glue(ps: seq<Piece>): (s: string) {
    if ps == [] then "" else (if ps[0].space then " " else "") + ps[0].tok.lexeme + Glue(ps[1..])
  }

  function TokensOf(ps: seq<Piece>): (ts: seq<Token>)
    ensures |ts| == |ps| && forall k :: 0 <= k < |ps| ==> ts[k] == ps[k].tok
  {
    seq(|ps|, k requires 0 <= k < |ps| => ps[k].tok)
  }

  lemma {:induction false} GlueConcat(a: seq<Piece>, b: seq<Piece>)
    ensures Glue(a + b) == Glue(a) + Glue(b)
  {
    if a == [] {
      assert a + b == b;
    } else {
      var w := (if a[0].space then " " else "") + a[0].tok.lexeme;
      GlueConcat(a[1..], b);
      GlueCons(a + b, w, a[1..] + b);
      Associates(w, Glue(a[1..]), Glue(b));
    }
  }

  lemma GlueCons(ps: seq<Piece>, w: string, rest: seq<Piece>)
    requires ps != [] && ps[1..] == rest && w == (if ps[0].space then " " else "") + ps[0].tok.lexeme
    ensures Glue(ps) == w + Glue(rest)
  {
  }

  lemma Associates(a: string, b: string, c: string)
    ensures a + b + c == a + (b + c)
  {
  }

  lemma TokensConcat(a: seq<Piece>, b: seq<Piece>)
    ensures TokensOf(a + b) == TokensOf(a) + TokensOf(b)
  {
  }

  /** A lexeme that is read as just this token; behind a quantifier to keep Tokens folded */
  ghost predicate SelfToken(t: Token) {
    forall s :: s == t.lexeme ==> Tokens(s, 0) == [t, END]
  }

  /** Tokens without a space between them are still told apart. */
  ghost predicate Tight(ps: seq<Piece>) {
    forall k :: 0 < k < |ps| ==> ps[k].space || ps[k].tok.tag == RParen || ps[k - 1].tok.tag == LParen
  }

  ghost predicate AllSelf(ps: seq<Piece>) {
    forall k :: 0 <= k < |ps| ==> SelfToken(ps[k].tok) && !Last(ps[k].tok)
  }

  predicate Last(t: Token) {
    t.tag == Eof || t.tag == Invalid
  }

  // ---------- The tokenizer does not look back ----------

  lemma {:induction false} SkipShift(a: string, b: string, i: nat)
    requires i <= |b|
    ensures SkipSpace(a + b, |a| + i) == |a| + SkipSpace(b, i)
    decreases |b| - i
  {
    if i < |b| {
      assert (a + b)[|a| + i] == b[i];
      if IsSpace(b[i]) {
        SkipShift(a, b, i + 1);
      }
    }
  }

  lemma {:induction false} WordShift(a: string, b: string, i: nat)
    requires i <= |b|
    ensures WordEnd(a + b, |a| + i) == |a| + WordEnd(b, i)
    decreases |b| - i
  {
    if i < |b| {
      assert (a + b)[|a| + i] == b[i];
      if !IsSpace(b[i]) && !IsSymbol(b[i]) {
        WordShift(a, b, i + 1);
      }
    }
  }

  lemma {:induction false} QuoteShift(a: string, b: string, i: nat, q: char)
    requires i <= |b|
    ensures QuoteEnd(a + b, |a| + i, q) == |a| + QuoteEnd(b, i, q)
    decreases |b| - i
  {
    if i < |b| {
      assert (a + b)[|a| + i] == b[i];
      if b[i] != q {
        QuoteShift(a, b, i + 1, q);
      }
    }
  }

  lemma {:induction false} SpaceShift(a: string, b: string, i: nat)
    requires i <= |b|
    ensures SpaceEnd(a + b, |a| + i) == |a| + SpaceEnd(b, i)
    decreases |b| - i
  {
    if i < |b| {
      assert (a + b)[|a| + i] == b[i];
      if !IsSpace(b[i]) {
        SpaceShift(a, b, i + 1);
      }
    }
  }

  lemma Slice(a: string, b: string, i: nat, e: nat)
    requires i <= e <= |b|
    ensures (a + b)[|a| + i..|a| + e] == b[i..e]
  {
  }

  lemma CharShift(a: string, b: string, i: nat)
    ensures CharAt(a + b, |a| + i) == CharAt(b, i)
  {
  }

  lemma QuotedShift(a: string, b: string, i: nat)
    requires i < |b| && IsQuote(b[i])
    ensures TokenAt(a + b, |a| + i) == (TokenAt(b, i).0, |a| + TokenAt(b, i).1)
  {
    CharShift(a, b, i);
    CharShift(a, b, i + 1);
    QuoteShift(a, b, i + 1, b[i]);
    if CharAt(b, i + 1) != '\0' && QuoteEnd(b, i + 1, b[i]) < |b| {
      Slice(a, b, i + 1, QuoteEnd(b, i + 1, b[i]));
    } else {
      SpaceShift(a, b, i + 1);
      Slice(a, b, i, SpaceEnd(b, i + 1));
    }
  }

  lemma NamedShift(a: string, b: string, i: nat)
    requires i < |b| && !IsSpace(b[i]) && !IsQuote(b[i])
    ensures !IsSpace((a + b)[|a| + i])
    ensures TokenAt(a + b, |a| + i) == (TokenAt(b, i).0, |a| + TokenAt(b, i).1)
  {
    CharShift(a, b, i);
    CharShift(a, b, i + 1);
    CharShift(a, b, i + 2);
    WordShift(a, b, i);
    Slice(a, b, i, WordEnd(b, i));
  }

  lemma TokenShift(a: string, b: string, i: nat)
    requires i <= |b| && (i < |b| ==> !IsSpace(b[i]))
    ensures |a| + i < |a + b| ==> !IsSpace((a + b)[|a| + i])
    ensures TokenAt(a + b, |a| + i) == (TokenAt(b, i).0, |a| + TokenAt(b, i).1)
  {
    CharShift(a, b, i);
    if i < |b| {
      if IsQuote(b[i]) {
        QuotedShift(a, b, i);
      } else {
        NamedShift(a, b, i);
      }
    }
  }

  lemma TokensUnfold(b: string, i: nat, j: nat, t: Token, e: nat)
    requires i <= |b| && j == SkipSpace(b, i) && e <= |b| && (t, e) == TokenAt(b, j)
    ensures Tokens(b, i) == if Last(t) then [t] else [t] + Tokens(b, e)
  {
  }

  lemma NextShift(a: string, b: string, i: nat) returns (t: Token, e: nat)
    requires i <= |b|
    ensures i <= e <= |b| && (!Last(t) ==> i < e)
    ensures Tokens(b, i) == if Last(t) then [t] else [t] + Tokens(b, e)
    ensures Tokens(a + b, |a| + i) == if Last(t) then [t] else [t] + Tokens(a + b, |a| + e)
  {
    SkipShift(a, b, i);
    var j := SkipSpace(b, i);
    TokenShift(a, b, j);
    t, e := TokenAt(b, j).0, TokenAt(b, j).1;
    TokensUnfold(b, i, j, t, e);
    TokensUnfold(a + b, |a| + i, |a| + j, t, |a| + e);
  }

  lemma {:induction false} TokensShift(a: string, b: string, i: nat)
    requires i <= |b|
    ensures Tokens(a + b, |a| + i) == Tokens(b, i)
    decreases |b| - i
  {
    var t, e := NextShift(a, b, i);
    if !Last(t) {
      TokensShift(a, b, e);
    }
  }

  // ---------- Reading tokens back ----------

  /** What a token that is read as itself looks like to the tokenizer */
  lemma SelfStarts(t: Token)
    requires SelfToken(t) && !Last(t)
    ensures t.lexeme != [] && !IsSpace(t.lexeme[0]) && t.lexeme[0] != '\0' && !IsQuote(t.lexeme[0])
    ensures TokenAt(t.lexeme, 0) == (t, |t.lexeme|)
  {
    var w := t.lexeme;
    var j := SkipSpace(w, 0);
    var r := TokenAt(w, j);
    assert Tokens(w, 0) == [t, END];
    assert Tokens(w, 0)[0] == r.0 == t;
  }

  /** What may follow a token without changing how it is read */
  predicate Seam(t: Token, rest: string) {
    rest == [] || rest[0] == ' ' || rest[0] == ')' || t.tag == LParen
  }

  lemma LexemeStays(t: Token, rest: string)
    requires SelfToken(t) && !Last(t) && Seam(t, rest)
    ensures var w := t.lexeme;
            w != [] && !IsSpace(w[0]) && LexemeEnd(w + rest, 0) == |w| && Named(w) == t
  {
    SelfStarts(t);
    var w := t.lexeme;
    TaggedAs(w, 0);
    assert w[..|w|] == w;
    var e := LexemeEnd(w, 0);
    assert e == |w| && Named(w) == t;
    var b := w + rest;
    assert forall k :: 0 <= k < |w| ==> b[k] == w[k];
    assert rest != [] ==> b[|w|] == rest[0];
    if !IsSymbol(w[0]) && !(w[0] == '2' && CharAt(w, 1) == '>') {
      WordStays(w, rest);
    } else if w[0] == '(' {
      assert |w| == 1;
    }
  }

  lemma WordStays(w: string, rest: string)
    requires WordEnd(w, 0) == |w| && (rest == [] || IsSpace(rest[0]) || IsSymbol(rest[0]))
    ensures WordEnd(w + rest, 0) == |w|
  {
    var b := w + rest;
    assert forall k :: 0 <= k < |w| ==> b[k] == w[k];
    assert rest != [] ==> b[|w|] == rest[0];
  }

  /** The tokenizer reads a token back and goes on behind it. */
  lemma FrontToken(t: Token, rest: string)
    requires SelfToken(t) && !Last(t) && Seam(t, rest)
    ensures Tokens(t.lexeme + rest, 0) == [t] + Tokens(rest, 0)
  {
    SelfStarts(t);
    LexemeStays(t, rest);
    var w, b := t.lexeme, t.lexeme + rest;
    assert b[0] == w[0];
    TaggedAs(b, 0);
    assert b[0..|w|] == w;
    TokensUnfold(b, 0, 0, t, |w|);
    TokensShift(w, rest, 0);
  }

  lemma FrontSpace(s: string)
    ensures Tokens(" " + s, 0) == Tokens(s, 0)
  {
    var b := " " + s;
    assert SkipSpace(b, 0) == SkipSpace(b, 1);
    assert Tokens(b, 0) == Tokens(b, 1);
    TokensShift(" ", s, 0);
  }

  lemma GlueFront(space: bool, t: Token, rest: string)
    requires SelfToken(t) && !Last(t) && Seam(t, rest)
    ensures Tokens((if space then " " else "") + t.lexeme + rest, 0) == [t] + Tokens(rest, 0)
  {
    Spacing(space, t.lexeme, rest);
    FrontToken(t, rest);
    if space {
      FrontSpace(t.lexeme + rest);
    }
  }

  lemma Spacing(space: bool, w: string, rest: string)
    ensures (if space then " " else "") + w + rest == if space then " " + (w + rest) else w + rest
  {
    assert " " + (w + rest) == " " + w + rest;
    assert "" + w + rest == w + rest;
  }

  lemma TailFits(ps: seq<Piece>)
    requires Tight(ps) && AllSelf(ps) && ps != []
    ensures Tight(ps[1..]) && AllSelf(ps[1..]) && TokensOf(ps) == [ps[0].tok] + TokensOf(ps[1..])
  {
  }

  /** Printed text is read back as the tokens it was printed from. */
  lemma {:induction false} ReadBack(ps: seq<Piece>)
    requires Tight(ps) && AllSelf(ps)
    ensures Tokens(Glue(ps), 0) == TokensOf(ps) + [END]
  {
    if ps == [] {
      ReadNothing();
    } else {
      TailFits(ps);
      ReadBack(ps[1..]);
      GlueStarts(ps);
      GlueFront(ps[0].space, ps[0].tok, Glue(ps[1..]));
      OneAndRest(ps[0].tok, TokensOf(ps[1..]), END);
    }
  }

  lemma ReadNothing()
    ensures Tokens("", 0) == [END]
  {
  }

  lemma OneAndRest(t: Token, ts: seq<Token>, e: Token)
    ensures [t] + (ts + [e]) == [t] + ts + [e]
  {
  }

  lemma GlueStarts(ps: seq<Piece>)
    requires Tight(ps) && AllSelf(ps) && ps != []
    ensures Seam(ps[0].tok, Glue(ps[1..]))
  {
    var rest := ps[1..];
    if rest != [] {
      assert rest[0] == ps[1];
      SelfStarts(rest[0].tok);
      if rest[0].tok.tag == RParen {
        TaggedAs(rest[0].tok.lexeme, 0);
        assert rest[0].tok.lexeme[0] == ')';
      }
    }
  }
}

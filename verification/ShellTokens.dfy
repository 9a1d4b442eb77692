/** The tokenizer of user/shell/tokenizer.zig. */
module ShellTokens {
  import opened ShellSyntax

  predicate IsSpace(c: char) {
    c == ' ' || c == '\n' || c == '\t' || c == '\r' || c == 11 as char
  }

  predicate IsSymbol(c: char) {
    c == '<' || c == '|' || c == '>' || c == '&' || c == ';' || c == '(' || c == ')'
  }

  predicate IsQuote(c: char) {
    c == '\'' || c == '"'
  }

  /** The character at i; the buffer ends with a NUL. */
  function CharAt(b: string, i: nat): (c: char) {
    if i < |b| then b[i] else '\0'
  }

  function SkipSpace(b: string, i: nat): (j: nat)
    requires i <= |b|
    ensures i <= j <= |b| && (j < |b| ==> !IsSpace(b[j])) && forall k :: i <= k < j ==> IsSpace(b[k])
    decreases |b| - i
  {
    if i < |b| && IsSpace(b[i]) then SkipSpace(b, i + 1) else i
  }

  function WordEnd(b: string, i: nat): (j: nat)
    requires i <= |b|
    ensures i <= j <= |b| && (j < |b| ==> IsSpace(b[j]) || IsSymbol(b[j]))
    ensures forall k :: i <= k < j ==> !IsSpace(b[k]) && !IsSymbol(b[k])
    decreases |b| - i
  {
    if i < |b| && !IsSpace(b[i]) && !IsSymbol(b[i]) then WordEnd(b, i + 1) else i
  }

  function QuoteEnd(b: string, i: nat, q: char): (j: nat)
    requires i <= |b|
    ensures i <= j <= |b| && (j < |b| ==> b[j] == q) && forall k :: i <= k < j ==> b[k] != q
    decreases |b| - i
  {
    if i < |b| && b[i] != q then QuoteEnd(b, i + 1, q) else i
  }

  function SpaceEnd(b: string, i: nat): (j: nat)
    requires i <= |b|
    ensures i <= j <= |b| && (j < |b| ==> IsSpace(b[j])) && forall k :: i <= k < j ==> !IsSpace(b[k])
    decreases |b| - i
  {
    if i < |b| && !IsSpace(b[i]) then SpaceEnd(b, i + 1) else i
  }

  function SymbolTag(c: char): (t: Tag) {
    if c == '(' then LParen
    else if c == ')' then RParen
    else if c == ';' then Semi
    else if c == '&' then Amp
    else if c == '|' then Bar
    else if c == '<' then In
    else Invalid
  }

  /** The token at position i, where no space is, and where the tokenizer goes on */
  function TokenAt(b: string, i: nat): (r: (Token, nat))
    requires i <= |b| && (i < |b| ==> !IsSpace(b[i]))
    ensures i <= r.1 <= |b| && (r.0.tag != Eof ==> i < r.1)
  {
    var c := CharAt(b, i);
    if c == '\0' then (END, i)
    else if IsQuote(c) then
      if CharAt(b, i + 1) != '\0' && QuoteEnd(b, i + 1, c) < |b| then
        var e := QuoteEnd(b, i + 1, c);
        (Token(Str, b[i + 1..e]), e + 1)
      else
        var e := SpaceEnd(b, i + 1);
        (Token(Invalid, b[i..e]), e)
    else if c == '>' then
      if CharAt(b, i + 1) == '>' then (Token(OutAppend, ">>"), i + 2) else (Token(Out, ">"), i + 1)
    else if IsSymbol(c) then (Token(SymbolTag(c), [c]), i + 1)
    else if c == '2' && CharAt(b, i + 1) == '>' then
      if CharAt(b, i + 2) == '>' then (Token(ErrAppend, "2>>"), i + 3) else (Token(Err, "2>"), i + 2)
    else
      var e := WordEnd(b, i);
      (Token(if b[i..e] == "cd" then Cd else Str, b[i..e]), e)
  }

  /** All tokens from position i on, up to the end of input or the first invalid one */
  function Tokens(b: string, i: nat): (ts: seq<Token>)
    requires i <= |b|
    ensures ts != [] && (ts[|ts| - 1].tag == Eof || ts[|ts| - 1].tag == Invalid)
    ensures forall k :: 0 <= k < |ts| - 1 ==> ts[k].tag != Eof && ts[k].tag != Invalid
    decreases |b| - i
  {
    var r := TokenAt(b, SkipSpace(b, i));
    if r.0.tag == Eof || r.0.tag == Invalid then [r.0] else [r.0] + Tokens(b, r.1)
  }

  class Tokenizer {
    const buffer: string
    var index: nat

    ghost predicate Valid()
      reads this
    {
      index <= |buffer|
    }

    constructor (source: string)
      ensures Valid() && buffer == source && index == 0
    {
      buffer, index := source, 0;
    }

    /** next: skips space and cuts off the next token. */
    method Next() returns (t: Token)
      requires Valid()
      modifies this`index
      ensures Valid() && t == TokenAt(buffer, SkipSpace(buffer, old(index))).0
      ensures index == TokenAt(buffer, SkipSpace(buffer, old(index))).1
    {
      while index < |buffer| && IsSpace(buffer[index])
        invariant Valid() && SkipSpace(buffer, index) == SkipSpace(buffer, old(index))
      {
        index := index + 1;
      }
      var c := CharAt(buffer, index);
      if c == '\0' {
        return END;
      }
      var end;
      if IsQuote(c) {
        if CharAt(buffer, index + 1) != '\0' {
          end := Find(index + 1, c);
          if end < |buffer| {
            t := Token(Str, buffer[index + 1..end]);
            index := end + 1;
            return;
          }
        }
        end := FindSpace(index + 1);
        t := Token(Invalid, buffer[index..end]);
        index := end;
        return;
      }
      if IsSymbol(c) {
        end := if c == '>' && CharAt(buffer, index + 1) == '>' then index + 2 else index + 1;
      } else if c == '2' && CharAt(buffer, index + 1) == '>' {
        end := if CharAt(buffer, index + 2) == '>' then index + 3 else index + 2;
      } else {
        end := FindWordEnd(index);
      }
      t := Named(buffer[index..end]);
      TaggedAs(buffer, index);
      index := end;
    }

    method Find(i: nat, q: char) returns (j: nat)
      requires i <= |buffer|
      ensures j == QuoteEnd(buffer, i, q)
    {
      j := i;
      while j < |buffer| && buffer[j] != q
        invariant i <= j <= |buffer| && QuoteEnd(buffer, j, q) == QuoteEnd(buffer, i, q)
      {
        j := j + 1;
      }
    }

    method FindSpace(i: nat) returns (j: nat)
      requires i <= |buffer|
      ensures j == SpaceEnd(buffer, i)
    {
      j := i;
      while j < |buffer| && !IsSpace(buffer[j])
        invariant i <= j <= |buffer| && SpaceEnd(buffer, j) == SpaceEnd(buffer, i)
      {
        j := j + 1;
      }
    }

    method FindWordEnd(i: nat) returns (j: nat)
      requires i <= |buffer|
      ensures j == WordEnd(buffer, i)
    {
      j := i;
      while j < |buffer| && !IsSpace(buffer[j]) && !IsSymbol(buffer[j])
        invariant i <= j <= |buffer| && WordEnd(buffer, j) == WordEnd(buffer, i)
      {
        j := j + 1;
      }
    }
  }

  /** The tag of an unquoted lexeme: that of a symbol, of a builtin, or string */
  function Named(w: string): (t: Token)
    ensures t.lexeme == w
  {
    Token(if w == "(" then LParen else if w == ")" then RParen else if w == ";" then Semi
          else if w == "&" then Amp else if w == "|" then Bar else if w == "<" then In
          else if w == ">" then Out else if w == ">>" then OutAppend
          else if w == "2>" then Err else if w == "2>>" then ErrAppend
          else if w == "cd" then Cd else Str, w)
  }

  /** Where an unquoted token ends */
  function LexemeEnd(b: string, i: nat): (e: nat)
    requires i < |b| && !IsSpace(b[i])
    ensures i < e <= |b|
  {
    if IsSymbol(b[i]) then (if b[i] == '>' && CharAt(b, i + 1) == '>' then i + 2 else i + 1)
    else if b[i] == '2' && CharAt(b, i + 1) == '>' then (if CharAt(b, i + 2) == '>' then i + 3 else i + 2)
    else WordEnd(b, i)
  }

  lemma SymbolNamed(b: string, i: nat)
    requires i < |b| && IsSymbol(b[i])
    ensures TokenAt(b, i) == (Named(b[i..LexemeEnd(b, i)]), LexemeEnd(b, i))
  {
    var w := b[i..LexemeEnd(b, i)];
    assert w[0] == b[i];
    if b[i] == '>' && CharAt(b, i + 1) == '>' {
      assert w[1] == '>';
      assert w == ">>";
    } else {
      assert w == [b[i]];
    }
  }

  lemma ErrNamed(b: string, i: nat)
    requires i + 1 < |b| && b[i] == '2' && b[i + 1] == '>'
    ensures TokenAt(b, i) == (Named(b[i..LexemeEnd(b, i)]), LexemeEnd(b, i))
  {
    var e := LexemeEnd(b, i);
    if e == i + 3 {
      assert b[i..e] == [b[i], b[i + 1], b[i + 2]] == "2>>";
    } else {
      assert b[i..e] == [b[i], b[i + 1]] == "2>";
    }
  }

  /** A word is none of the symbols. */
  lemma WordNamed(w: string)
    requires w != [] && !IsSymbol(w[0]) && (|w| > 1 ==> !IsSymbol(w[1]))
    ensures Named(w) == Token(if w == "cd" then Cd else Str, w)
  {
  }

  /** Looking a lexeme up gives the tag that its first characters call for. */
  lemma TaggedAs(b: string, i: nat)
    requires i < |b| && b[i] != '\0' && !IsQuote(b[i]) && !IsSpace(b[i])
    ensures TokenAt(b, i) == (Named(b[i..LexemeEnd(b, i)]), LexemeEnd(b, i))
  {
    if IsSymbol(b[i]) {
      SymbolNamed(b, i);
    } else if b[i] == '2' && CharAt(b, i + 1) == '>' {
      ErrNamed(b, i);
    } else {
      WordNamed(b[i..WordEnd(b, i)]);
    }
  }

  lemma TokensStep(b: string, i: nat, ts: seq<Token>)
    requires i <= |b|
    ensures var r := TokenAt(b, SkipSpace(b, i));
            ts + Tokens(b, i) == if r.0.tag == Eof || r.0.tag == Invalid then ts + [r.0]
                else ts + [r.0] + Tokens(b, r.1)
  {
  }

  /** The loop of Ast.parse that collects tokens; an invalid one is an error. */
  method Tokenize(source: string) returns (ts: seq<Token>)
    ensures ts == Tokens(source, 0)
  {
    var t := new Tokenizer(source);
    var done := false;
    ts := [];
    assert ts + Tokens(source, 0) == Tokens(source, 0);
    while !done
      invariant fresh(t) && t.buffer == source && t.Valid()
      invariant Tokens(source, 0) == if done then ts else ts + Tokens(source, t.index)
      decreases !done, |source| - t.index
    {
      TokensStep(source, t.index, ts);
      var tok := t.Next();
      ts := ts + [tok];
      done := tok.tag == Eof || tok.tag == Invalid;
    }
  }
}

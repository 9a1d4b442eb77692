/**
 A tree comes back from its text only if its words and file names are read as
 themselves.  Quotation marks show it: print writes no others than those inside
 lexemes, and the tokenizer drops two for every quoted token, so a tree that comes back
 was read without quoted tokens.
 */
module ShellQuotes {
  import opened Common
  import opened ShellSyntax
  import opened ShellComplete
  import opened ShellNodes
  import opened ShellParser
  import opened ShellTokens
  import opened ShellPrint
  import opened ShellPieces
  import opened ShellRoundTrip
  import opened ShellExact

  // ---------- Counting quotation marks ----------

  function Quotes(s: string): (n: nat) {
    if s == [] then 0 else Quotes(s[..|s| - 1]) + if IsQuote(s[|s| - 1]) then 1 else 0
  }

  lemma {:induction false} QuotesConcat(a: string, b: string)
    ensures Quotes(a + b) == Quotes(a) + Quotes(b)
    decreases |b|
  {
    if b == [] {
      assert a + b == a;
    } else {
      var n := |b| - 1;
      QuotesConcat(a, b[..n]);
      assert (a + b)[..|a + b| - 1] == a + b[..n];
    }
  }

  lemma QuotesOne(c: char)
    ensures Quotes([c]) == if IsQuote(c) then 1 else 0
  {
    assert [c][..0] == [];
  }

  lemma QuotesSplit(b: string, i: nat, j: nat, k: nat)
    requires i <= j <= k <= |b|
    ensures Quotes(b[i..k]) == Quotes(b[i..j]) + Quotes(b[j..k])
  {
    assert b[i..k] == b[i..j] + b[j..k];
    QuotesConcat(b[i..j], b[j..k]);
  }

  lemma {:induction false} NoQuotes(s: string)
    requires forall k :: 0 <= k < |s| ==> !IsQuote(s[k])
    ensures Quotes(s) == 0
  {
    if s != [] {
      NoQuotes(s[..|s| - 1]);
    }
  }

  /** The quotation marks in the lexemes of some tokens */
  function LexQuotes(ts: seq<Token>): (n: nat) {
    if ts == [] then 0 else LexQuotes(ts[..|ts| - 1]) + Quotes(ts[|ts| - 1].lexeme)
  }

  lemma {:induction false} LexConcat(a: seq<Token>, b: seq<Token>)
    ensures LexQuotes(a + b) == LexQuotes(a) + LexQuotes(b)
    decreases |b|
  {
    if b == [] {
      assert a + b == a;
    } else {
      var n := |b| - 1;
      LexConcat(a, b[..n]);
      assert (a + b)[..|a + b| - 1] == a + b[..n];
    }
  }

  lemma LexOne(t: Token)
    ensures LexQuotes([t]) == Quotes(t.lexeme)
  {
    assert [t][..0] == [];
  }

  lemma LexSplit(ts: seq<Token>, i: nat, k: nat, j: nat)
    requires i <= k <= j <= |ts|
    ensures LexQuotes(ts[i..j]) == LexQuotes(ts[i..k]) + LexQuotes(ts[k..j])
  {
    Between(ts, i, k, j);
    LexConcat(ts[i..k], ts[k..j]);
  }

  // ---------- Tokenizing drops two for each quoted token ----------

  predicate Quoted(b: string, i: nat) {
    i < |b| && IsQuote(b[i])
  }

  lemma TokenQuotes(b: string, i: nat)
    requires i <= |b| && (i < |b| ==> !IsSpace(b[i])) && !Last(TokenAt(b, i).0)
    ensures var r := TokenAt(b, i);
            Quotes(b[i..r.1]) == Quotes(r.0.lexeme) + if Quoted(b, i) then 2 else 0
  {
    var r := TokenAt(b, i);
    if Quoted(b, i) {
      var e := QuoteEnd(b, i + 1, b[i]);
      assert b[i..e + 1] == [b[i]] + b[i + 1..e] + [b[e]];
      QuotesConcat([b[i]], b[i + 1..e]);
      QuotesConcat([b[i]] + b[i + 1..e], [b[e]]);
      QuotesOne(b[i]);
      QuotesOne(b[e]);
    } else {
      TaggedAs(b, i);
    }
  }

  /** How many of the tokens from position i on are quoted */
  function QuotedTokens(b: string, i: nat): (n: nat)
    requires i <= |b|
    decreases |b| - i
  {
    var j := SkipSpace(b, i);
    var r := TokenAt(b, j);
    if Last(r.0) then 0 else QuotedTokens(b, r.1) + if Quoted(b, j) then 1 else 0
  }

  /** Where the tokenizer stops: at the end or at the first invalid token */
  function Stop(b: string, i: nat): (j: nat)
    requires i <= |b|
    ensures i <= j <= |b|
    decreases |b| - i
  {
    var j := SkipSpace(b, i);
    var r := TokenAt(b, j);
    if Last(r.0) then j else Stop(b, r.1)
  }

  /** No token from position i on is quoted. */
  predicate Plain(b: string, i: nat)
    requires i <= |b|
  {
    QuotedTokens(b, i) == 0
  }

  function Front(ts: seq<Token>): (r: seq<Token>)
    requires ts != []
  {
    ts[..|ts| - 1]
  }

  lemma FrontMore(t: Token, ts: seq<Token>)
    requires ts != []
    ensures Front([t] + ts) == [t] + Front(ts)
  {
  }

  lemma {:induction false} SpaceQuotes(b: string, i: nat, j: nat)
    requires i <= j <= |b| && forall k :: i <= k < j ==> IsSpace(b[k])
    ensures Quotes(b[i..j]) == 0
    decreases j - i
  {
    if i < j {
      SpaceQuotes(b, i, j - 1);
      assert b[i..j][..j - i - 1] == b[i..j - 1];
    }
  }

  /** Of the quotation marks it passes, the tokenizer drops two for every quoted token and keeps the rest. */
  lemma {:induction false} TokensQuotes(b: string, i: nat)
    requires i <= |b|
    ensures Quotes(b[i..Stop(b, i)]) == LexQuotes(Front(Tokens(b, i))) + 2 * QuotedTokens(b, i)
    decreases |b| - i
  {
    var j := SkipSpace(b, i);
    var t, e := TokenAt(b, j).0, TokenAt(b, j).1;
    TokensUnfold(b, i, j, t, e);
    SpaceQuotes(b, i, j);
    if Last(t) {
      assert Front([t]) == [];
    } else {
      TokensQuotes(b, e);
      FrontMore(t, Tokens(b, e));
      LexConcat([t], Front(Tokens(b, e)));
      LexOne(t);
      QuotesSplit(b, i, j, Stop(b, i));
      QuotesSplit(b, j, e, Stop(b, i));
      TokenQuotes(b, j);
    }
  }

  /** An unquoted token is read as itself. */
  lemma PlainToken(b: string, i: nat)
    requires i < |b| && !IsSpace(b[i]) && !Quoted(b, i) && !Last(TokenAt(b, i).0)
    ensures SelfToken(TokenAt(b, i).0)
  {
    TaggedAs(b, i);
    var w := b[i..LexemeEnd(b, i)];
    assert forall k :: 0 <= k < |w| ==> w[k] == b[i + k];
    OneSymbol(w);
  }

  lemma {:induction false} PlainSelf(b: string, i: nat, k: nat)
    requires i <= |b| && Plain(b, i) && k < |Front(Tokens(b, i))|
    ensures SelfToken(Tokens(b, i)[k])
    decreases |b| - i
  {
    var j := SkipSpace(b, i);
    var t, e := TokenAt(b, j).0, TokenAt(b, j).1;
    TokensUnfold(b, i, j, t, e);
    if k == 0 {
      PlainToken(b, j);
    } else {
      PlainSelf(b, e, k - 1);
    }
  }

  // ---------- Printing adds none ----------

  function NamesQuotes(fs: seq<string>): (n: nat) {
    if fs == [] then 0 else NamesQuotes(fs[..|fs| - 1]) + Quotes(fs[|fs| - 1])
  }

  function KindsQuotes(files: seq<seq<string>>, n: nat): (r: nat)
    requires n <= |files|
  {
    if n == 0 then 0 else KindsQuotes(files, n - 1) + NamesQuotes(files[n - 1])
  }

  /** The quotation marks in the lexemes of a tree */
  function TreeQuotes(c: Cmd): (n: nat)
    decreases c, 0
  {
    match c
    case Exec(words) => LexQuotes(words)
    case Back(e) => TreeQuotes(e)
    case Piped(a, b) => TreeQuotes(a) + TreeQuotes(b)
    case Redir(e, files, _) => TreeQuotes(e) + if |files| == KINDS then KindsQuotes(files, KINDS) else 0
    case List(cs) => AllQuotes(cs, |cs|)
  }

  function AllQuotes(cs: seq<Cmd>, n: nat): (r: nat)
    requires n <= |cs|
    decreases cs, n
  {
    if n == 0 then 0 else AllQuotes(cs, n - 1) + TreeQuotes(cs[n - 1])
  }

  lemma {:induction false} QuotesRest(cs: seq<Cmd>, n: nat)
    requires 0 < n <= |cs|
    ensures AllQuotes(cs, n) == TreeQuotes(cs[0]) + AllQuotes(cs[1..], n - 1)
  {
    if n > 1 {
      QuotesRest(cs, n - 1);
    }
  }

  lemma QuotesThree(a: string, b: string, c: string)
    requires forall k :: 0 <= k < |b| ==> !IsQuote(b[k])
    ensures Quotes(a + b + c) == Quotes(a) + Quotes(c)
  {
    QuotesConcat(a, b);
    QuotesConcat(a + b, c);
    NoQuotes(b);
  }

  lemma {:induction false} WordsQuotes(words: seq<Token>)
    ensures Quotes(WordsText(words)) == LexQuotes(words)
  {
    if |words| == 1 {
      assert words == [words[0]];
      LexOne(words[0]);
    } else if words != [] {
      var n := |words| - 1;
      WordsQuotes(words[..n]);
      QuotesThree(WordsText(words[..n]), " ", words[n].lexeme);
    }
  }

  lemma {:induction false} FilesQuotes(kind: nat, fs: seq<string>)
    requires kind < KINDS
    ensures Quotes(FilesText(kind, fs)) == NamesQuotes(fs)
  {
    if fs != [] {
      var n := |fs| - 1;
      FilesQuotes(kind, fs[..n]);
      var x := FilesText(kind, fs[..n]);
      QuotesThree(x, " ", Symbol(kind));
      NoQuotes(Symbol(kind));
      QuotesThree(x + " " + Symbol(kind), " ", fs[n]);
    }
  }

  lemma {:induction false} KindsTextQuotes(files: seq<seq<string>>, n: nat)
    requires n <= KINDS && n <= |files|
    ensures Quotes(KindsText(files, n)) == KindsQuotes(files, n)
  {
    if n > 0 {
      var a, b := KindsText(files, n - 1), FilesText(n - 1, files[n - 1]);
      assert KindsText(files, n) == a + b;
      KindsTextQuotes(files, n - 1);
      FilesQuotes(n - 1, files[n - 1]);
      QuotesConcat(a, b);
    }
  }

  lemma {:induction false} TextQuotes(c: Cmd)
    ensures Quotes(Text(c)) == TreeQuotes(c)
    decreases c, 0
  {
    match c
    case Exec(words) => WordsQuotes(words);
    case Back(e) =>
      TextQuotes(e);
      QuotesConcat(Text(e), " &");
      NoQuotes(" &");
    case Piped(a, b) =>
      TextQuotes(a);
      TextQuotes(b);
      QuotesThree(Text(a), " | ", Text(b));
    case Redir(e, files, _) =>
      TextQuotes(e);
      if |files| == KINDS {
        KindsTextQuotes(files, KINDS);
        QuotesConcat(Text(e), KindsText(files, KINDS));
      } else {
        assert Text(e) + "" == Text(e);
      }
    case List(cs) =>
      ListQuotes(cs, |cs|);
      QuotesConcat("(", ListText(cs, |cs|));
      QuotesThree("(" + ListText(cs, |cs|), ")", "");
      NoQuotes("(");
      assert "(" + ListText(cs, |cs|) + ")" + "" == Text(c);
  }

  lemma {:induction false} ListQuotes(cs: seq<Cmd>, n: nat)
    requires n <= |cs|
    ensures Quotes(ListText(cs, n)) == AllQuotes(cs, n)
    decreases cs, n
  {
    if n > 0 {
      TextQuotes(cs[n - 1]);
      if n > 1 {
        ListQuotes(cs, n - 1);
        QuotesThree(ListText(cs, n - 1), Separator(cs[n - 2]), Text(cs[n - 1]));
      } else {
        assert AllQuotes(cs, 0) == 0;
      }
    }
  }

  // ---------- The tokens of a sentence hold all lexemes of its tree ----------

  lemma {:induction false} NamesConcat(a: seq<string>, b: seq<string>)
    ensures NamesQuotes(a + b) == NamesQuotes(a) + NamesQuotes(b)
    decreases |b|
  {
    if b == [] {
      assert a + b == a;
    } else {
      var n := |b| - 1;
      NamesConcat(a, b[..n]);
      assert (a + b)[..|a + b| - 1] == a + b[..n];
    }
  }

  ghost function FileSum(s: seq<Token>, n: nat): (r: nat)
    requires Redirections(s)
  {
    if n == 0 then 0 else FileSum(s, n - 1) + NamesQuotes(FilesOf(s, n - 1))
  }

  lemma {:induction false} FirstSum(s: seq<Token>, n: nat)
    requires Redirections(s) && s != []
    ensures FileSum(s, n) == FileSum(s[2..], n) + if Kind(s[0].tag) < n then Quotes(s[1].lexeme) else 0
  {
    if n > 0 {
      var f := if Kind(s[0].tag) == n - 1 then [s[1].lexeme] else [];
      FirstSum(s, n - 1);
      NamesConcat(f, FilesOf(s[2..], n - 1));
      NameOne(s[1].lexeme);
    }
  }

  lemma NameOne(f: string)
    ensures NamesQuotes([f]) == Quotes(f)
  {
    assert [f][..0] == [];
  }

  lemma {:induction false} FileSumBound(s: seq<Token>, n: nat)
    requires Redirections(s)
    ensures FileSum(s, n) <= LexQuotes(s)
    decreases |s|
  {
    if s == [] {
      NoSum(n);
    } else {
      FileSumBound(s[2..], n);
      FirstSum(s, n);
      assert s == [s[0], s[1]] + s[2..];
      LexConcat([s[0], s[1]], s[2..]);
      assert [s[0], s[1]] == [s[0]] + [s[1]];
      LexConcat([s[0]], [s[1]]);
      LexOne(s[1]);
    }
  }

  lemma {:induction false} NoSum(n: nat)
    ensures FileSum([], n) == 0
  {
    if n > 0 {
      NoSum(n - 1);
    }
  }

  lemma {:induction false} SumIsKinds(s: seq<Token>, files: seq<seq<string>>, n: nat)
    requires AllFiles(s, files) && n <= KINDS
    ensures KindsQuotes(files, n) == FileSum(s, n)
  {
    if n > 0 {
      SumIsKinds(s, files, n - 1);
    }
  }

  /** The words among the tokens are read as themselves. */
  ghost predicate SelfWords(ts: seq<Token>) {
    forall k :: 0 <= k < |ts| && IsWord(ts[k].tag) ==> SelfToken(ts[k])
  }

  lemma {:induction false} FilesSelf(s: seq<Token>, t: nat, k: nat)
    requires Redirections(s) && SelfWords(s) && k < |FilesOf(s, t)|
    ensures SelfToken(Token(Str, FilesOf(s, t)[k]))
  {
    var f := if Kind(s[0].tag) == t then [s[1].lexeme] else [];
    if k < |f| {
      assert s[1] == Token(Str, s[1].lexeme);
    } else {
      assert forall l :: 0 <= l < |s| - 2 ==> s[2..][l] == s[l + 2];
      FilesSelf(s[2..], t, k - |f|);
    }
  }

  /** SelfWords, if self; behind a quantifier to keep it folded */
  ghost predicate SelfIf(self: bool, ts: seq<Token>) {
    forall us :: self && us == ts ==> SelfWords(us)
  }

  lemma AllFilesSelf(ts: seq<Token>, m: nat, j: nat, files: seq<seq<string>>, self: bool)
    requires m <= j <= |ts| && AllFiles(ts[m..j], files) && SelfIf(self, ts)
    ensures self ==> NamesOk(files)
  {
    if self {
      assert SelfWords(ts);
      var s := ts[m..j];
      assert forall l :: 0 <= l < |s| ==> s[l] == ts[m + l];
      forall t, k | 0 <= t < KINDS && 0 <= k < |files[t]|
        ensures SelfToken(Token(Str, files[t][k]))
      {
        FilesSelf(s, t, k);
      }
    }
  }

  lemma WordsSelf(ts: seq<Token>, i: nat, j: nat, self: bool)
    requires i < j <= |ts| && SelfIf(self, ts) && forall k :: i <= k < j ==> IsWord(ts[k].tag)
    ensures self ==> WordsOk(ts[i..j])
  {
    if self {
      assert SelfWords(ts);
      var words := ts[i..j];
      assert forall k :: 0 <= k < |words| ==> words[k] == ts[i + k];
    }
  }

  /** What the tokens of c say about c */
  ghost predicate Yields(lex: nat, quotes: nat, self: bool, printable: bool) {
    lex >= quotes && (self ==> printable)
  }

  lemma {:induction false} CommandYields(c: Cmd, ts: seq<Token>, i: nat, j: nat, self: bool)
    requires i <= j <= |ts| && CommandAt(c, ts, i, j) && SelfIf(self, ts)
    ensures Yields(LexQuotes(ts[i..j]), TreeQuotes(c), self, Printable(c))
    decreases j - i, 0
  {
    CommandParts(c, ts, i, j);
    if ts[i].tag == LParen {
      LexSplit(ts, i, i + 1, j);
      LexSplit(ts, i + 1, j - 1, j);
      LineYields(c, ts, i + 1, j - 1, self);
    } else {
      WordsSelf(ts, i, j, self);
    }
  }

  lemma {:induction false} LineYields(c: Cmd, ts: seq<Token>, i: nat, j: nat, self: bool)
    requires i <= j <= |ts| && LineAt(c, ts, i, j) && SelfIf(self, ts)
    ensures Yields(LexQuotes(ts[i..j]), TreeQuotes(c), self, Printable(c))
    decreases j - i, 4
  {
    var cs := LineParts(c, ts, i, j);
    ListYields(cs, ts, i, j, self);
    if |cs| == 1 {
      assert AllQuotes(cs, 1) == AllQuotes(cs, 0) + TreeQuotes(cs[0]);
    }
  }

  lemma {:induction false} RedirectionYields(c: Cmd, ts: seq<Token>, i: nat, j: nat, piped: bool, self: bool)
    requires i <= j <= |ts| && RedirectionAt(c, ts, i, j, piped) && SelfIf(self, ts)
    ensures Yields(LexQuotes(ts[i..j]), TreeQuotes(c), self, Printable(c))
    decreases j - i, 1
  {
    var bare, m := RedirectionParts(c, ts, i, j, piped);
    if bare {
      CommandYields(c, ts, i, j, self);
    } else {
      CommandYields(c.cmd, ts, i, m, self);
      LexSplit(ts, i, m, j);
      SumIsKinds(ts[m..j], c.files, KINDS);
      FileSumBound(ts[m..j], KINDS);
      AllFilesSelf(ts, m, j, c.files, self);
    }
  }

  lemma {:induction false} PipelineYields(c: Cmd, ts: seq<Token>, i: nat, j: nat, self: bool)
    requires i <= j <= |ts| && PipelineAt(c, ts, i, j) && SelfIf(self, ts)
    ensures Yields(LexQuotes(ts[i..j]), TreeQuotes(c), self, Printable(c))
    decreases j - i, 2
  {
    var one, m := PipelineParts(c, ts, i, j);
    if one {
      RedirectionYields(c, ts, i, j, false, self);
    } else {
      RedirectionYields(c.left, ts, i, m, true, self);
      PipelineYields(c.right, ts, m + 1, j, self);
      LexSplit(ts, i, m, j);
      LexSplit(ts, m, m + 1, j);
    }
  }

  lemma {:induction false} ListYields(cs: seq<Cmd>, ts: seq<Token>, i: nat, j: nat, self: bool)
    requires i <= j <= |ts| && ListAt(cs, ts, i, j) && SelfIf(self, ts)
    ensures Yields(LexQuotes(ts[i..j]), AllQuotes(cs, |cs|), self, AllPrintable(cs))
    decreases j - i, 3
  {
    var last, c, m := ListParts(cs, ts, i, j);
    if last {
      PipelineYields(c, ts, i, j, self);
      FirstYields(cs, c, LexQuotes(ts[i..j]), 0, self);
    } else {
      PipelineYields(c, ts, i, m, self);
      LexSplit(ts, i, m, j);
      LexSplit(ts, m, m + 1, j);
      if |cs| > 1 {
        ListYields(cs[1..], ts, m + 1, j, self);
      }
      FirstYields(cs, c, LexQuotes(ts[i..m]), LexQuotes(ts[m + 1..j]), self);
    }
  }

  lemma FirstYields(cs: seq<Cmd>, c: Cmd, first: nat, others: nat, self: bool)
    requires cs != [] && (cs[0] == c || cs[0] == Back(c)) && Yields(first, TreeQuotes(c), self, Printable(c))
    requires |cs| > 1 ==> Yields(others, AllQuotes(cs[1..], |cs| - 1), self, AllPrintable(cs[1..]))
    ensures Yields(first + others, AllQuotes(cs, |cs|), self, AllPrintable(cs))
  {
    QuotesRest(cs, |cs|);
    if self {
      forall k | 0 <= k < |cs|
        ensures Printable(cs[k])
      {
        assert k > 0 ==> cs[k] == cs[1..][k - 1];
      }
    }
  }

  // ---------- Which trees come back ----------

  lemma PlainWords(b: string)
    requires Plain(b, 0)
    ensures SelfWords(Tokens(b, 0))
  {
    var ts := Tokens(b, 0);
    forall k | 0 <= k < |ts| && IsWord(ts[k].tag)
      ensures SelfToken(ts[k])
    {
      PlainSelf(b, 0, k);
    }
  }

  /** Nothing was quoted if the text has no other quotation marks than the lexemes of the sentence. */
  lemma NoneQuoted(cs: seq<Cmd>, b: string, ts: seq<Token>)
    requires ts == Tokens(b, 0) && ListAt(cs, ts, 0, |ts| - 1) && Quotes(b) == AllQuotes(cs, |cs|)
    ensures AllPrintable(cs)
  {
    var self := Plain(b, 0);
    if self {
      PlainWords(b);
    }
    ListYields(cs, ts, 0, |ts| - 1, self);
    assert ts[0..|ts| - 1] == Front(ts);
    TokensQuotes(b, 0);
    QuotesSplit(b, 0, Stop(b, 0), |b|);
    assert b[0..|b|] == b;
  }

  lemma ParsedAt(ts: seq<Token>, cs: seq<Cmd>)
    requires Input(ts) && Parse(ts) == Some(cs)
    ensures ListAt(cs, ts, 0, |ts| - 1)
  {
    ParseExact(ts, cs);
    assert ts[0..|ts| - 1] == ts[..|ts| - 1];
  }

  lemma ComesBackPrintable(cs: seq<Cmd>, b: string, ts: seq<Token>)
    requires b == ListText(cs, |cs|) && ts == Tokens(b, 0) && Input(ts) && Parse(ts) == Some(cs)
    ensures AllPrintable(cs)
  {
    ParsedAt(ts, cs);
    ListQuotes(cs, |cs|);
    NoneQuoted(cs, b, ts);
  }

  // ---------- Words, in characters ----------

  /** No space and no symbol anywhere, and no quotation mark and no NUL at the start */
  predicate PlainWord(w: string) {
    && w != [] && w[0] != '\0' && !IsQuote(w[0])
    && (forall k :: 0 <= k < |w| ==> !IsSpace(w[k]) && !IsSymbol(w[k]))
  }

  /** Which words are read as themselves */
  lemma SelfWord(t: Token)
    requires IsWord(t.tag)
    ensures SelfToken(t) <==> PlainWord(t.lexeme) && t.tag == if t.lexeme == "cd" then Cd else Str
  {
    var w := t.lexeme;
    if SelfToken(t) {
      SelfStarts(t);
      TaggedAs(w, 0);
      assert w[0..|w|] == w;
      SelfPlain(t);
    }
    if PlainWord(w) {
      assert WordEnd(w, 0) == |w|;
      WordNamed(w);
      OneSymbol(w);
    }
  }

  lemma SelfPlain(t: Token)
    requires IsWord(t.tag) && t.lexeme != [] && !IsSpace(t.lexeme[0]) && t.lexeme[0] != '\0' && !IsQuote(t.lexeme[0])
    requires TokenAt(t.lexeme, 0) == (t, |t.lexeme|)
    ensures PlainWord(t.lexeme) && t.tag == if t.lexeme == "cd" then Cd else Str
  {
    assert WordEnd(t.lexeme, 0) == |t.lexeme|;
    assert t.lexeme[0..|t.lexeme|] == t.lexeme;
  }

  /**
   Quotation marks are lost: a quoted word with a space in it, which the parser builds, is
   printed without them, and the text is parsed as two words.
   */
  lemma QuotesLost(a: string, b: string)
    requires PlainWord(a) && PlainWord(b) && a != "cd" && b != "cd" && '\'' !in a && '\'' !in b
    ensures var lost, found := [Exec([Token(Str, a + " " + b)])], [Exec([Token(Str, a), Token(Str, b)])];
            var built, read := Tokens("'" + (a + " " + b) + "'", 0), Tokens(ListText(lost, 1), 0);
            && Input(built) && Parse(built) == Some(lost)
            && Input(read) && Parse(read) == Some(found) && found != lost
  {
    var w := a + " " + b;
    assert '\'' !in w;
    QuotedWord(w);
    OneWordParsed(Token(Str, w));
    OneWordText(Token(Str, w));
    TwoWordsParsed(a, b, w);
  }

  lemma OneWordText(t: Token)
    ensures ListText([Exec([t])], 1) == t.lexeme
  {
  }

  lemma TwoWordsParsed(a: string, b: string, w: string)
    requires PlainWord(a) && PlainWord(b) && a != "cd" && b != "cd" && w == a + " " + b
    ensures var ts := Tokens(w, 0); Input(ts) && Parse(ts) == Some([Exec([Token(Str, a), Token(Str, b)])])
  {
    var words := [Token(Str, a), Token(Str, b)];
    SelfWord(words[0]);
    SelfWord(words[1]);
    assert words[..1] == [words[0]];
    assert WordsText(words) == w;
    ExecParsed(words);
  }

  lemma ExecParsed(words: seq<Token>)
    requires WordsOk(words)
    ensures var ts := Tokens(WordsText(words), 0); Input(ts) && Parse(ts) == Some([Exec(words)])
  {
    var cs := [Exec(words)];
    assert CommandOk(cs[0]) && PipelineOk(cs[0]) && ItemOk(cs[0]);
    assert ListText(cs, |cs|) == WordsText(words);
    RoundTrip(cs);
  }

  /** A quoted text is one word. */
  lemma QuotedWord(w: string)
    requires w != [] && w[0] != '\0' && '\'' !in w
    ensures Tokens("'" + w + "'", 0) == [Token(Str, w), END]
  {
    var s := "'" + w + "'";
    assert forall k :: 0 <= k < |w| ==> s[1 + k] == w[k];
    assert QuoteEnd(s, 1, '\'') == |w| + 1 by {
      assert s[|w| + 1] == '\'';
      assert forall k :: 1 <= k < |w| + 1 ==> s[k] == w[k - 1];
    }
    assert s[1..|w| + 1] == w;
    TokensUnfold(s, 0, 0, Token(Str, w), |s|);
  }

  lemma OneWordParsed(t: Token)
    requires IsWord(t.tag)
    ensures Input([t, END]) && Parse([t, END]) == Some([Exec([t])])
  {
    var ts := [t, END];
    assert ts[..|ts| - 1] == [t];
    assert IsCommand(Exec([t]), [t]);
    PipeOne(Exec([t]), [t]);
    ListOne(Exec([t]), [t]);
    ParseExact(ts, [Exec([t])]);
  }

  /**
   A tree comes back from its text exactly if its words and file names are read as
   themselves and no command in it needs parentheses of its own.
   */
  lemma ComesBack(cs: seq<Cmd>)
    ensures var ts := Tokens(ListText(cs, |cs|), 0);
            (Input(ts) && Parse(ts) == Some(cs)) <==> ItemsOk(cs)
  {
    var ts := Tokens(ListText(cs, |cs|), 0);
    if ItemsOk(cs) {
      RoundTrip(cs);
    } else if Input(ts) && Parse(ts) == Some(cs) {
      ComesBackPrintable(cs, ListText(cs, |cs|), ts);
      RoundTripExact(cs);
    }
  }

  // ---------- The same for the code ----------

  lemma {:induction false} FilesUnique(ts: seq<Token>, nodes: seq<Node>, extra: seq<nat>, n: nat, x: seq<string>,
                                       y: seq<string>)
    requires FilesAt(ts, nodes, extra, n, x) && FilesAt(ts, nodes, extra, n, y)
    ensures x == y
  {
    if x != [] && y != [] {
      forall m | 0 <= m < |x|
        ensures x[m] == y[m]
      {
        assert FileAt(ts, extra, nodes[n].lhs + m, x[m]) && FileAt(ts, extra, nodes[n].lhs + m, y[m]);
      }
    }
  }

  /** A node stands for one tree. */
  lemma {:induction false} AtUnique(ts: seq<Token>, nodes: seq<Node>, extra: seq<nat>, n: nat, c: Cmd, d: Cmd)
    requires At(ts, nodes, extra, n, c) && At(ts, nodes, extra, n, d)
    ensures c == d
    decreases c
  {
    var e := nodes[n];
    match c
    case Exec(_) =>
    case Back(x) => AtUnique(ts, nodes, extra, e.lhs, x, d.cmd);
    case Piped(x, y) =>
      AtUnique(ts, nodes, extra, e.lhs, x, d.left);
      AtUnique(ts, nodes, extra, e.rhs, y, d.right);
    case List(cs) =>
      forall k | 0 <= k < |cs|
        ensures cs[k] == d.cmds[k]
      {
        AtUnique(ts, nodes, extra, extra[e.lhs + k], cs[k], d.cmds[k]);
      }
    case Redir(x, files, _) =>
      AtUnique(ts, nodes, extra, e.lhs, x, d.cmd);
      forall t | 0 <= t < KINDS
        ensures files[t] == d.files[t]
      {
        FilesUnique(ts, nodes, extra, extra[e.rhs + t], files[t], d.files[t]);
      }
  }

  lemma RootUnique(ts: seq<Token>, nodes: seq<Node>, extra: seq<nat>, cs: seq<Cmd>, ds: seq<Cmd>)
    requires RootAt(ts, nodes, extra, cs) && RootAt(ts, nodes, extra, ds)
    ensures cs == ds
  {
    var items := extra[nodes[0].lhs..nodes[0].rhs];
    forall k | 0 <= k < |cs|
      ensures cs[k] == ds[k]
    {
      AtUnique(ts, nodes, extra, items[k], cs[k], ds[k]);
    }
  }

  /** Printing the nodes, and tokenizing and parsing the text: which nodes come back. */
  method PrintAndParse(ts: seq<Token>, nodes: seq<Node>, extra: seq<nat>, ghost cs: seq<Cmd>)
    returns (p: Parser?, accepted: bool)
    requires RootAt(ts, nodes, extra, cs)
    ensures accepted ==> p != null
    ensures accepted && RootAt(p.ts, p.nodes, p.extra, cs) <==> ItemsOk(cs)
  {
    var text := Print(ts, nodes, extra, cs);
    var tokens := Tokenize(text);
    ComesBack(cs);
    p, accepted := null, false;
    if tokens[|tokens| - 1].tag == Eof {
      p := new Parser(tokens);
      accepted := p.ParseRoot();
      if accepted && RootAt(p.ts, p.nodes, p.extra, cs) {
        RootUnique(p.ts, p.nodes, p.extra, cs, Parse(tokens).value);
      }
    }
  }
}

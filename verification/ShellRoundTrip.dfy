/**
 Printing a tree and parsing the text gives the tree back, for trees whose lexemes are
 read as themselves and whose parentheses hold lists of two or more commands.
 */
module ShellRoundTrip {
  import opened Common
  import opened ShellSyntax
  import opened ShellComplete
  import opened ShellParser
  import opened ShellTokens
  import opened ShellPrint
  import opened ShellPieces

  // ---------- Trees that can be printed ----------

  ghost predicate WordsOk(words: seq<Token>) {
    words != [] && forall k :: 0 <= k < |words| ==> IsWord(words[k].tag) && SelfToken(words[k])
  }

  ghost predicate FilesOk(files: seq<seq<string>>) {
    |files| == KINDS && (exists t :: 0 <= t < KINDS && files[t] != []) && NamesOk(files)
  }

  ghost predicate NamesOk(files: seq<seq<string>>)
    requires |files| == KINDS
  {
    forall t, k :: 0 <= t < KINDS && 0 <= k < |files[t]| ==> SelfToken(Token(Str, files[t][k]))
  }

  ghost predicate CommandOk(c: Cmd)
    decreases c, 0
  {
    (c.Exec? && WordsOk(c.words)) || (c.List? && |c.cmds| > 1 && ItemsOk(c.cmds))
  }

  ghost predicate RedirectionOk(c: Cmd, piped: bool)
    decreases c, 1
  {
    if c.Redir? then c.piped == piped && FilesOk(c.files) && CommandOk(c.cmd) else CommandOk(c)
  }

  ghost predicate PipelineOk(c: Cmd)
    decreases c, 2
  {
    if c.Piped? then RedirectionOk(c.left, true) && PipelineOk(c.right) else RedirectionOk(c, false)
  }

  ghost predicate ItemOk(c: Cmd)
    decreases c, 3
  {
    if c.Back? then PipelineOk(c.cmd) else PipelineOk(c)
  }

  ghost predicate ItemsOk(cs: seq<Cmd>)
    decreases cs, 0
  {
    cs != [] && forall k :: 0 <= k < |cs| ==> ItemOk(cs[k])
  }

  /** Words and file names are all read as themselves, and no list is empty. */
  ghost predicate Printable(c: Cmd)
    decreases c, 0
  {
    match c
    case Exec(words) => WordsOk(words)
    case Back(e) => Printable(e)
    case Piped(a, b) => Printable(a) && Printable(b)
    case Redir(e, files, _) => Printable(e) && (|files| == KINDS ==> NamesOk(files))
    case List(cs) => AllPrintable(cs)
  }

  ghost predicate AllPrintable(cs: seq<Cmd>)
    decreases cs, 0
  {
    cs != [] && forall k :: 0 <= k < |cs| ==> Printable(cs[k])
  }

  lemma {:induction false} CommandPrintable(c: Cmd)
    requires CommandOk(c)
    ensures Printable(c)
    decreases c, 0
  {
    if c.List? {
      ItemsPrintable(c.cmds);
    }
  }

  lemma {:induction false} RedirectionPrintable(c: Cmd, piped: bool)
    requires RedirectionOk(c, piped)
    ensures Printable(c)
    decreases c, 1
  {
    CommandPrintable(if c.Redir? then c.cmd else c);
  }

  lemma {:induction false} PipelinePrintable(c: Cmd)
    requires PipelineOk(c)
    ensures Printable(c)
    decreases c, 2
  {
    if c.Piped? {
      RedirectionPrintable(c.left, true);
      PipelinePrintable(c.right);
    } else {
      RedirectionPrintable(c, false);
    }
  }

  lemma {:induction false} ItemPrintable(c: Cmd)
    requires ItemOk(c)
    ensures Printable(c)
    decreases c, 3
  {
    PipelinePrintable(if c.Back? then c.cmd else c);
  }

  lemma {:induction false} ItemsPrintable(cs: seq<Cmd>)
    requires ItemsOk(cs)
    ensures AllPrintable(cs)
    decreases cs, 0
  {
    forall k | 0 <= k < |cs|
      ensures Printable(cs[k])
    {
      ItemPrintable(cs[k]);
    }
  }

  // ---------- The tokens of printed text ----------

  const BAR := Token(Bar, "|")
  const AMP := Token(Amp, "&")
  const SEMI := Token(Semi, ";")
  const LEFT := Token(LParen, "(")
  const RIGHT := Token(RParen, ")")

  function SymbolToken(kind: nat): (t: Token)
    requires kind < KINDS
    ensures IsRedir(t.tag) && Kind(t.tag) == kind && t.lexeme == Symbol(kind)
  {
    Token(if kind == 0 then In else if kind == 1 then Out else if kind == 2 then OutAppend else if kind == 3
        then Err else ErrAppend,
          Symbol(kind))
  }

  /** The tokens that print adds by itself */
  predicate Added(t: Token) {
    t == BAR || t == AMP || t == SEMI || t == LEFT || t == RIGHT
  }

  lemma AddedReads(t: Token)
    requires Added(t)
    ensures SelfToken(t) && !Last(t)
  {
    OneSymbol(t.lexeme);
    assert Named(t.lexeme) == t;
  }

  /** A symbol by itself is one token. */
  lemma OneSymbol(w: string)
    requires w != [] && w[0] != '\0' && !IsQuote(w[0]) && !IsSpace(w[0]) && LexemeEnd(w, 0) == |w|
    ensures SelfToken(Named(w)) || Last(Named(w))
  {
    TaggedAs(w, 0);
    assert w[0..|w|] == w;
    TokensUnfold(w, 0, 0, Named(w), |w|);
    assert Tokens(w, |w|) == [END];
  }

  lemma SymbolTokenReads(kind: nat)
    requires kind < KINDS
    ensures SelfToken(SymbolToken(kind)) && !Last(SymbolToken(kind))
  {
    OneSymbol(Symbol(kind));
    assert Named(Symbol(kind)) == SymbolToken(kind);
  }

  function WordPieces(words: seq<Token>): (ps: seq<Piece>) {
    if words == [] then [] else if |words| == 1 then [Piece(false, words[0])]
    else WordPieces(words[..|words| - 1]) + [Piece(true, words[|words| - 1])]
  }

  function FilePieces(kind: nat, fs: seq<string>): (ps: seq<Piece>)
    requires kind < KINDS
  {
    if fs == [] then []
    else FilePieces(kind, fs[..|fs| - 1]) + [Piece(true, SymbolToken(kind)), Piece(true, Token(Str, fs[|fs| - 1]))]
  }

  function KindPieces(files: seq<seq<string>>, n: nat): (ps: seq<Piece>)
    requires n <= KINDS && n <= |files|
  {
    if n == 0 then [] else KindPieces(files, n - 1) + FilePieces(n - 1, files[n - 1])
  }

  /** With a space before the first */
  function Spaced(ps: seq<Piece>): (qs: seq<Piece>) {
    if ps == [] then [] else [Piece(true, ps[0].tok)] + ps[1..]
  }

  function Pieces(c: Cmd): (ps: seq<Piece>)
    decreases c, 0
  {
    match c
    case Exec(words) => WordPieces(words)
    case Back(e) => Pieces(e) + [Piece(true, AMP)]
    case Piped(a, b) => Pieces(a) + [Piece(true, BAR)] + Spaced(Pieces(b))
    case Redir(e, files, _) => Pieces(e) + if |files| == KINDS then KindPieces(files, KINDS) else []
    case List(cs) => [Piece(false, LEFT)] + ListPieces(cs, |cs|) + [Piece(false, RIGHT)]
  }

  function ListPieces(cs: seq<Cmd>, n: nat): (ps: seq<Piece>)
    requires n <= |cs|
    decreases cs, n
  {
    if n == 0 then []
    else if n == 1 then Pieces(cs[0])
    else ListPieces(cs, n - 1) + (if cs[n - 2].Back? then [] else [Piece(true, SEMI)]) + Spaced(Pieces(cs[n - 1]))
  }

  // ---------- The pieces make up the text ----------

  /** Pieces that read back as they are, beginning without a space */
  ghost predicate Whole(ps: seq<Piece>) {
    ps != [] && !ps[0].space && Tight(ps) && AllSelf(ps)
  }

  /** Pieces that may follow others */
  ghost predicate Behind(ps: seq<Piece>) {
    (ps != [] ==> ps[0].space) && Tight(ps) && AllSelf(ps)
  }

  lemma WholeBehind(a: seq<Piece>, b: seq<Piece>)
    requires Whole(a) && Behind(b)
    ensures Whole(a + b)
  {
  }

  lemma BehindBehind(a: seq<Piece>, b: seq<Piece>)
    requires Behind(a) && Behind(b)
    ensures Behind(a + b)
  {
  }

  lemma SpacedGlue(ps: seq<Piece>)
    requires Whole(ps)
    ensures Glue(Spaced(ps)) == " " + Glue(ps)
  {
    var w, rest := ps[0].tok.lexeme, ps[1..];
    GlueCons(ps, "" + w, rest);
    GlueCons(Spaced(ps), " " + w, rest);
    Associates(" ", w, Glue(rest));
    assert "" + w == w;
  }

  lemma SpacedBehind(ps: seq<Piece>)
    requires Whole(ps)
    ensures Behind(Spaced(ps)) && Glue(Spaced(ps)) == " " + Glue(ps) && TokensOf(Spaced(ps)) == TokensOf(ps)
  {
    SpacedGlue(ps);
    SpacedKeeps(ps, Spaced(ps));
    SameTokens(ps, Spaced(ps));
  }

  lemma SpacedKeeps(ps: seq<Piece>, qs: seq<Piece>)
    requires ps != [] && qs == Spaced(ps)
    ensures |qs| == |ps| && forall k :: 0 <= k < |ps| ==> qs[k] == if k == 0 then Piece(true, ps[0].tok) else ps[k]
    ensures Tight(ps) ==> Tight(qs)
    ensures AllSelf(ps) ==> AllSelf(qs)
  {
    assert forall k :: 0 <= k < |ps| ==> qs[k].tok == ps[k].tok;
  }

  lemma SameTokens(ps: seq<Piece>, qs: seq<Piece>)
    requires |qs| == |ps| && forall k :: 0 <= k < |ps| ==> qs[k] == if k == 0 then Piece(true, ps[0].tok) else ps[k]
    ensures TokensOf(qs) == TokensOf(ps)
  {
    assert forall k :: 0 <= k < |ps| ==> TokensOf(qs)[k] == TokensOf(ps)[k];
  }

  lemma OneBehind(t: Token)
    requires SelfToken(t) && !Last(t)
    ensures Behind([Piece(true, t)]) && Glue([Piece(true, t)]) == " " + t.lexeme
  {
    var ps := [Piece(true, t)];
    assert ps[1..] == [];
  }

  lemma {:induction false} WordsWhole(words: seq<Token>)
    requires WordsOk(words)
    ensures Whole(WordPieces(words)) && Glue(WordPieces(words)) == WordsText(words)
    ensures TokensOf(WordPieces(words)) == words
  {
    if |words| == 1 {
      OneWord(words[0]);
      assert words == [words[0]];
    } else {
      var front, t := words[..|words| - 1], words[|words| - 1];
      WordsWhole(front);
      NextWord(WordPieces(front), t);
      PiecesUnfold(words, front, t);
      TextUnfold(words, front, t);
    }
  }

  lemma PiecesUnfold(words: seq<Token>, front: seq<Token>, t: Token)
    requires |words| > 1 && front == words[..|words| - 1] && t == words[|words| - 1]
    ensures WordPieces(words) == WordPieces(front) + [Piece(true, t)] && words == front + [t]
  {
  }

  lemma TextUnfold(words: seq<Token>, front: seq<Token>, t: Token)
    requires |words| > 1 && front == words[..|words| - 1] && t == words[|words| - 1]
    ensures WordsText(words) == WordsText(front) + (" " + t.lexeme)
  {
    Joins(WordsText(front), t.lexeme);
  }

  lemma Joins(a: string, b: string)
    ensures a + " " + b == a + (" " + b)
  {
  }

  lemma OneWord(t: Token)
    requires SelfToken(t) && !Last(t)
    ensures Whole([Piece(false, t)]) && Glue([Piece(false, t)]) == t.lexeme && TokensOf([Piece(false, t)]) == [t]
  {
    var ps := [Piece(false, t)];
    GlueCons(ps, "" + t.lexeme, []);
    assert "" + t.lexeme + "" == t.lexeme;
  }

  lemma NextWord(a: seq<Piece>, t: Token)
    requires Whole(a) && SelfToken(t) && !Last(t)
    ensures var ps := a + [Piece(true, t)];
            Whole(ps) && Glue(ps) == Glue(a) + (" " + t.lexeme) && TokensOf(ps) == TokensOf(a) + [t]
  {
    OneBehind(t);
    WholeBehind(a, [Piece(true, t)]);
    GlueConcat(a, [Piece(true, t)]);
    TokensConcat(a, [Piece(true, t)]);
    assert TokensOf([Piece(true, t)]) == [t];
  }

  lemma {:induction false} FilesBehind(kind: nat, fs: seq<string>)
    requires kind < KINDS && forall k :: 0 <= k < |fs| ==> SelfToken(Token(Str, fs[k]))
    ensures Behind(FilePieces(kind, fs)) && Glue(FilePieces(kind, fs)) == FilesText(kind, fs)
  {
    if fs != [] {
      var n := |fs| - 1;
      var s, f := SymbolToken(kind), Token(Str, fs[n]);
      FilesBehind(kind, fs[..n]);
      SymbolTokenReads(kind);
      OneBehind(s);
      OneBehind(f);
      var a, b, c := FilePieces(kind, fs[..n]), [Piece(true, s)], [Piece(true, f)];
      BehindBehind(b, c);
      BehindBehind(a, b + c);
      GlueConcat(b, c);
      GlueConcat(a, b + c);
      assert b + c == [Piece(true, s), Piece(true, f)];
      assert FilePieces(kind, fs) == a + (b + c);
      FileText(FilesText(kind, fs[..n]), Symbol(kind), fs[n]);
    }
  }

  lemma FileText(x: string, y: string, z: string)
    ensures x + (" " + y + (" " + z)) == x + " " + y + " " + z
  {
  }

  lemma {:induction false} KindsBehind(files: seq<seq<string>>, n: nat)
    requires n <= KINDS == |files| && NamesOk(files)
    ensures Behind(KindPieces(files, n)) && Glue(KindPieces(files, n)) == KindsText(files, n)
  {
    if n > 0 {
      KindsBehind(files, n - 1);
      FilesBehind(n - 1, files[n - 1]);
      BehindBehind(KindPieces(files, n - 1), FilePieces(n - 1, files[n - 1]));
      GlueConcat(KindPieces(files, n - 1), FilePieces(n - 1, files[n - 1]));
    }
  }

  /** The pieces of a command are its text. */
  ghost predicate Printed(ps: seq<Piece>, s: string) {
    Whole(ps) && Glue(ps) == s
  }

  lemma PrintedMore(a: seq<Piece>, s: string, b: seq<Piece>, t: string)
    requires Printed(a, s) && Behind(b) && Glue(b) == t
    ensures Printed(a + b, s + t)
  {
    WholeBehind(a, b);
    GlueConcat(a, b);
  }

  lemma {:induction false} CmdPrinted(c: Cmd)
    requires Printable(c)
    ensures Printed(Pieces(c), Text(c))
    decreases c, 0
  {
    match c
    case Exec(words) => WordsWhole(words);
    case Back(e) =>
      CmdPrinted(e);
      AmpPrinted(Pieces(e), Text(e));
    case Piped(a, b) =>
      CmdPrinted(a);
      CmdPrinted(b);
      PipePrinted(Pieces(a), Text(a), Pieces(b), Text(b));
    case Redir(e, files, _) =>
      CmdPrinted(e);
      FilesPrinted(Pieces(e), Text(e), files);
    case List(cs) =>
      ListPrinted(cs, |cs|);
      ParensPrinted(ListPieces(cs, |cs|), ListText(cs, |cs|));
  }

  lemma {:induction false} ListPrinted(cs: seq<Cmd>, n: nat)
    requires AllPrintable(cs) && 0 < n <= |cs|
    ensures Printed(ListPieces(cs, n), ListText(cs, n))
    decreases cs, n
  {
    CmdPrinted(cs[n - 1]);
    if n > 1 {
      ListPrinted(cs, n - 1);
      NextPrinted(ListPieces(cs, n - 1), ListText(cs, n - 1), cs[n - 2].Back?, Pieces(cs[n - 1]), Text(cs[n - 1]));
    }
  }

  lemma AmpPrinted(a: seq<Piece>, s: string)
    requires Printed(a, s)
    ensures Printed(a + [Piece(true, AMP)], s + " &")
  {
    AddedReads(AMP);
    OneBehind(AMP);
    PrintedMore(a, s, [Piece(true, AMP)], " &");
  }

  lemma FilesPrinted(a: seq<Piece>, s: string, files: seq<seq<string>>)
    requires Printed(a, s) && (|files| == KINDS ==> NamesOk(files))
    ensures Printed(a + (if |files| == KINDS then KindPieces(files, KINDS) else []),
                    s + if |files| == KINDS then KindsText(files, KINDS) else "")
  {
    if |files| == KINDS {
      KindsBehind(files, KINDS);
      PrintedMore(a, s, KindPieces(files, KINDS), KindsText(files, KINDS));
    } else {
      assert a + [] == a && s + "" == s;
    }
  }

  lemma ParensPrinted(ps: seq<Piece>, s: string)
    requires Printed(ps, s)
    ensures Printed([Piece(false, LEFT)] + ps + [Piece(false, RIGHT)], "(" + s + ")")
  {
    AddedReads(LEFT);
    AddedReads(RIGHT);
    var l, r := [Piece(false, LEFT)], [Piece(false, RIGHT)];
    GlueConcat(l, ps);
    GlueConcat(l + ps, r);
    assert l[1..] == [] && r[1..] == [];
    assert Glue(l) == "(" && Glue(r) == ")";
  }

  lemma PipePrinted(a: seq<Piece>, s: string, b: seq<Piece>, t: string)
    requires Printed(a, s) && Printed(b, t)
    ensures Printed(a + [Piece(true, BAR)] + Spaced(b), s + " | " + t)
  {
    AddedReads(BAR);
    OneBehind(BAR);
    PrintedMore(a, s, [Piece(true, BAR)], " |");
    SpacedBehind(b);
    PrintedMore(a + [Piece(true, BAR)], s + " |", Spaced(b), " " + t);
    assert s + " |" + (" " + t) == s + " | " + t;
  }

  lemma NextPrinted(a: seq<Piece>, s: string, back: bool, b: seq<Piece>, t: string)
    requires Printed(a, s) && Printed(b, t)
    ensures Printed(a + (if back then [] else [Piece(true, SEMI)]) + Spaced(b), s + (if back then " " else " ; ") + t)
  {
    SpacedBehind(b);
    if back {
      PrintedMore(a, s, Spaced(b), " " + t);
      assert a + [] == a && s + (" " + t) == s + " " + t;
    } else {
      AddedReads(SEMI);
      OneBehind(SEMI);
      PrintedMore(a, s, [Piece(true, SEMI)], " ;");
      PrintedMore(a + [Piece(true, SEMI)], s + " ;", Spaced(b), " " + t);
      assert s + " ;" + (" " + t) == s + " ; " + t;
    }
  }

  // ---------- The tokens are a sentence ----------

  lemma {:induction false} FilesConcat(a: seq<Token>, b: seq<Token>, kind: nat)
    requires Redirections(a) && Redirections(b)
    ensures Redirections(a + b) && FilesOf(a + b, kind) == FilesOf(a, kind) + FilesOf(b, kind)
  {
    if a == [] {
      assert a + b == b;
    } else {
      FilesConcat(a[2..], b, kind);
      FirstOfTwo(a, b);
      NamesRegroup(if Kind(a[0].tag) == kind then [a[1].lexeme] else [], FilesOf(a[2..], kind), FilesOf(b, kind));
    }
  }

  lemma FirstOfTwo(a: seq<Token>, b: seq<Token>)
    requires |a| >= 2
    ensures (a + b)[2..] == a[2..] + b && (a + b)[0] == a[0] && (a + b)[1] == a[1]
  {
  }

  lemma NamesRegroup(a: seq<string>, b: seq<string>, c: seq<string>)
    ensures a + b + c == a + (b + c)
  {
  }

  /** s is redirections, and their files of kind t are fs; behind a quantifier to keep both folded */
  ghost predicate FilesAre(s: seq<Token>, t: nat, fs: seq<string>) {
    forall w :: w == s ==> Redirections(w) && FilesOf(w, t) == fs
  }

  lemma {:induction false} FileSentence(kind: nat, fs: seq<string>, t: nat)
    requires kind < KINDS
    ensures FilesAre(TokensOf(FilePieces(kind, fs)), t, if t == kind then fs else [])
  {
    if fs == [] {
      assert TokensOf(FilePieces(kind, fs)) == [];
    } else {
      var n := |fs| - 1;
      FileSentence(kind, fs[..n], t);
      OneFile(kind, fs[n], t);
      assert fs == fs[..n] + [fs[n]];
      JoinFiles(FilePieces(kind, fs[..n]), [Piece(true, SymbolToken(kind)), Piece(true, Token(Str, fs[n]))], t,
                if t == kind then fs[..n] else [], if t == kind then [fs[n]] else [], if t == kind then fs else []);
    }
  }

  lemma OneFile(kind: nat, f: string, t: nat)
    requires kind < KINDS
    ensures FilesAre(TokensOf([Piece(true, SymbolToken(kind)), Piece(true, Token(Str, f))]), t, if t == kind
            then [f] else [])
  {
    var w := TokensOf([Piece(true, SymbolToken(kind)), Piece(true, Token(Str, f))]);
    assert w[2..] == [] && Redirections(w[2..]);
  }

  lemma {:induction false} KindSentence(files: seq<seq<string>>, n: nat, t: nat)
    requires n <= KINDS == |files| && t < KINDS
    ensures FilesAre(TokensOf(KindPieces(files, n)), t, if t < n then files[t] else [])
  {
    if n == 0 {
      assert TokensOf(KindPieces(files, n)) == [];
    } else {
      KindSentence(files, n - 1, t);
      FileSentence(n - 1, files[n - 1], t);
      JoinFiles(KindPieces(files, n - 1), FilePieces(n - 1, files[n - 1]), t, if t < n - 1 then files[t] else [],
                if t == n - 1 then files[n - 1] else [], if t < n then files[t] else []);
    }
  }

  lemma JoinFiles(a: seq<Piece>, b: seq<Piece>, t: nat, x: seq<string>, y: seq<string>, z: seq<string>)
    requires FilesAre(TokensOf(a), t, x) && FilesAre(TokensOf(b), t, y) && z == x + y
    ensures FilesAre(TokensOf(a + b), t, z)
  {
    TokensConcat(a, b);
    assert Redirections(TokensOf(a)) && Redirections(TokensOf(b));
    FilesConcat(TokensOf(a), TokensOf(b), t);
  }

  lemma KindsSentence(files: seq<seq<string>>)
    requires FilesOk(files)
    ensures AllFiles(TokensOf(KindPieces(files, KINDS)), files) && KindPieces(files, KINDS) != []
  {
    var s := TokensOf(KindPieces(files, KINDS));
    KindSentence(files, KINDS, 0);
    assert Redirections(s);
    forall t | 0 <= t < KINDS
      ensures files[t] == FilesOf(s, t)
    {
      KindSentence(files, KINDS, t);
    }
    var t :| 0 <= t < KINDS && files[t] != [];
    assert FilesOf(s, t) != [];
  }

  lemma {:induction false} CommandSentence(c: Cmd)
    requires CommandOk(c)
    ensures IsCommand(c, TokensOf(Pieces(c)))
    decreases c, 0
  {
    if c.Exec? {
      WordsWhole(c.words);
    } else {
      var ps := ListPieces(c.cmds, |c.cmds|);
      ItemsSentence(c.cmds, |c.cmds|);
      assert c.cmds[..|c.cmds|] == c.cmds;
      TokensConcat([Piece(false, LEFT)], ps);
      TokensConcat([Piece(false, LEFT)] + ps, [Piece(false, RIGHT)]);
      assert TokensOf([Piece(false, LEFT)]) == [LEFT] && TokensOf([Piece(false, RIGHT)]) == [RIGHT];
      CommandInParens(c, LEFT, TokensOf(ps), RIGHT);
    }
  }

  lemma {:induction false} RedirectionSentence(c: Cmd, piped: bool)
    requires RedirectionOk(c, piped)
    ensures IsRedirection(c, TokensOf(Pieces(c)), piped)
    decreases c, 1
  {
    if c.Redir? {
      var a, b := Pieces(c.cmd), KindPieces(c.files, KINDS);
      CommandSentence(c.cmd);
      CommandOpens(c.cmd, TokensOf(a));
      KindsSentence(c.files);
      TokensConcat(a, b);
      WithFiles(c.cmd, TokensOf(a), TokensOf(b), c.files, piped);
    } else {
      CommandSentence(c);
    }
  }

  lemma {:induction false} PipelineSentence(c: Cmd)
    requires PipelineOk(c)
    ensures IsPipeline(c, TokensOf(Pieces(c)))
    decreases c, 2
  {
    if c.Piped? {
      var a, b := Pieces(c.left), Pieces(c.right);
      RedirectionSentence(c.left, true);
      PipelineSentence(c.right);
      RedirectionOpens(c.left, TokensOf(a), true);
      PipelinePrintable(c.right);
      CmdPrinted(c.right);
      SpacedBehind(b);
      TokensConcat(a, [Piece(true, BAR)]);
      TokensConcat(a + [Piece(true, BAR)], Spaced(b));
      assert TokensOf([Piece(true, BAR)]) == [BAR];
      PipeJoin(c.left, TokensOf(a), BAR, c.right, TokensOf(b));
    } else {
      RedirectionSentence(c, false);
      PipeOne(c, TokensOf(Pieces(c)));
    }
  }

  /** The separator that print puts after a command that is not the last */
  function SeparatorTokens(c: Cmd): (s: seq<Token>) {
    if c.Back? then [] else [SEMI]
  }

  /** A command of a list, with the separator after it, is an item. */
  lemma {:induction false} ItemSentence(c: Cmd)
    requires ItemOk(c)
    ensures IsItem(c, TokensOf(Pieces(c)) + SeparatorTokens(c))
    ensures IsList([c], TokensOf(Pieces(c))) && Pieces(c) != []
    decreases c, 3
  {
    var s := TokensOf(Pieces(c));
    if c.Back? {
      PipelineSentence(c.cmd);
      TokensConcat(Pieces(c.cmd), [Piece(true, AMP)]);
      assert TokensOf([Piece(true, AMP)]) == [AMP];
      ItemMade(c.cmd, TokensOf(Pieces(c.cmd)), AMP);
      assert s + [] == s;
    } else {
      PipelineSentence(c);
      PipelineOpens(c, s);
      ItemMade(c, s, SEMI);
    }
    ListOne(c, s);
  }

  /** A row of items */
  ghost predicate AllItems(cs: seq<Cmd>, s: seq<Token>)
    decreases |cs|
  {
    if cs == [] then s == [] else exists k :: 0 < k <= |s| && ItemsSplit(cs, s, k)
  }

  ghost predicate ItemsSplit(cs: seq<Cmd>, s: seq<Token>, k: nat)
    requires cs != [] && 0 < k <= |s|
    decreases |cs|, 0
  {
    IsItem(cs[0], s[..k]) && AllItems(cs[1..], s[k..])
  }

  lemma {:induction false} ItemsMore(cs: seq<Cmd>, s: seq<Token>, c: Cmd, x: seq<Token>)
    requires AllItems(cs, s) && IsItem(c, x)
    ensures AllItems(cs + [c], s + x)
    decreases |cs|
  {
    var ds, w := cs + [c], s + x;
    if cs == [] {
      assert w == x && x[..|x|] == x && x[|x|..] == [] && ds[1..] == [];
      assert ItemsSplit(ds, w, |x|);
    } else {
      var k :| 0 < k <= |s| && ItemsSplit(cs, s, k);
      ItemsMore(cs[1..], s[k..], c, x);
      assert w[..k] == s[..k] && w[k..] == s[k..] + x && ds[1..] == cs[1..] + [c] && ds[0] == cs[0];
      assert ItemsSplit(ds, w, k);
    }
  }

  lemma {:induction false} ItemsAndLast(cs: seq<Cmd>, s: seq<Token>, c: Cmd, x: seq<Token>)
    requires AllItems(cs, s) && IsList([c], x) && x != []
    ensures IsList(cs + [c], s + x)
    decreases |cs|
  {
    if cs == [] {
      assert s + x == x && cs + [c] == [c];
    } else {
      var k :| 0 < k <= |s| && ItemsSplit(cs, s, k);
      ItemsAndLast(cs[1..], s[k..], c, x);
      ListJoin(cs[0], s[..k], cs[1..] + [c], s[k..] + x);
      assert s[..k] + (s[k..] + x) == s + x && [cs[0]] + (cs[1..] + [c]) == cs + [c];
    }
  }

  /** AllItems, behind a quantifier to keep it folded */
  ghost predicate RowAt(cs: seq<Cmd>, row: seq<Token>) {
    forall s :: s == row ==> AllItems(cs, s)
  }

  lemma RowMore(cs: seq<Cmd>, row: seq<Token>, c: Cmd, x: seq<Token>, ds: seq<Cmd>, w: seq<Token>)
    requires RowAt(cs, row) && ds == cs + [c] && w == row + x
    requires forall s :: s == x ==> IsItem(c, s)
    ensures RowAt(ds, w)
  {
    assert AllItems(cs, row) && IsItem(c, x);
    ItemsMore(cs, row, c, x);
  }

  /** The first n commands, each with the separator after it */
  lemma {:induction false} ItemsRow(cs: seq<Cmd>, n: nat)
    requires ItemsOk(cs) && 0 < n <= |cs|
    ensures RowAt(cs[..n], TokensOf(ListPieces(cs, n)) + SeparatorTokens(cs[n - 1]))
    decreases cs, n, 0
  {
    var c := cs[n - 1];
    var x := TokensOf(Pieces(c)) + SeparatorTokens(c);
    ItemAt(c, x);
    ItemsPrintable(cs);
    TakeMore(cs, n);
    RowTokens(cs, n, x);
    var w := TokensOf(ListPieces(cs, n)) + SeparatorTokens(c);
    if n == 1 {
      RowMore([], [], c, x, cs[..n], w);
    } else {
      ItemsRow(cs, n - 1);
      RowMore(cs[..n - 1], TokensOf(ListPieces(cs, n - 1)) + SeparatorTokens(cs[n - 2]), c, x, cs[..n], w);
    }
  }

  lemma TakeMore(cs: seq<Cmd>, n: nat)
    requires 0 < n <= |cs|
    ensures cs[..n] == cs[..n - 1] + [cs[n - 1]]
  {
  }

  lemma RowTokens(cs: seq<Cmd>, n: nat, x: seq<Token>)
    requires AllPrintable(cs) && 0 < n <= |cs| && x == TokensOf(Pieces(cs[n - 1])) + SeparatorTokens(cs[n - 1])
    ensures var row := if n == 1 then [] else TokensOf(ListPieces(cs, n - 1)) + SeparatorTokens(cs[n - 2]);
            TokensOf(ListPieces(cs, n)) + SeparatorTokens(cs[n - 1]) == row + x
  {
    if n > 1 {
      ListTokens(cs, n);
      Regroup(TokensOf(ListPieces(cs, n - 1)) + SeparatorTokens(cs[n - 2]), TokensOf(Pieces(cs[n - 1])),
          SeparatorTokens(cs[n - 1]));
    }
  }

  lemma Regroup(a: seq<Token>, b: seq<Token>, c: seq<Token>)
    ensures a + b + c == a + (b + c)
  {
  }

  lemma {:induction false} ItemAt(c: Cmd, x: seq<Token>)
    requires ItemOk(c) && x == TokensOf(Pieces(c)) + SeparatorTokens(c)
    ensures forall s :: s == x ==> IsItem(c, s)
    decreases c, 4
  {
    ItemSentence(c);
  }

  lemma ListTokens(cs: seq<Cmd>, n: nat)
    requires AllPrintable(cs) && 1 < n <= |cs|
    ensures TokensOf(ListPieces(cs, n)) ==
            TokensOf(ListPieces(cs, n - 1)) + SeparatorTokens(cs[n - 2]) + TokensOf(Pieces(cs[n - 1]))
  {
    CmdPrinted(cs[n - 1]);
    SpacedBehind(Pieces(cs[n - 1]));
    var a, b := ListPieces(cs, n - 1), if cs[n - 2].Back? then [] else [Piece(true, SEMI)];
    TokensConcat(a, b);
    TokensConcat(a + b, Spaced(Pieces(cs[n - 1])));
    assert TokensOf(b) == SeparatorTokens(cs[n - 2]);
  }

  lemma {:induction false} ItemsSentence(cs: seq<Cmd>, n: nat)
    requires ItemsOk(cs) && 0 < n <= |cs|
    ensures IsList(cs[..n], TokensOf(ListPieces(cs, n)))
    decreases cs, n, 1
  {
    LastAt(cs[n - 1], TokensOf(Pieces(cs[n - 1])));
    TakeMore(cs, n);
    if n == 1 {
      OneSentence(cs[0], TokensOf(ListPieces(cs, n)), cs[..n]);
    } else {
      ItemsRow(cs, n - 1);
      LastSentence(cs, n);
    }
  }

  /** A list of one command, behind a quantifier to keep it folded */
  ghost predicate OneAt(c: Cmd, x: seq<Token>) {
    forall cs, s :: cs == [c] && s == x ==> IsList(cs, s)
  }

  lemma {:induction false} LastAt(c: Cmd, x: seq<Token>)
    requires ItemOk(c) && x == TokensOf(Pieces(c))
    ensures x != [] && OneAt(c, x)
    decreases c, 4
  {
    ItemSentence(c);
  }

  lemma OneSentence(c: Cmd, x: seq<Token>, cs: seq<Cmd>)
    requires cs == [c] && OneAt(c, x)
    ensures IsList(cs, x)
  {
  }

  lemma LastSentence(cs: seq<Cmd>, n: nat)
    requires ItemsOk(cs) && 1 < n <= |cs|
    requires RowAt(cs[..n - 1], TokensOf(ListPieces(cs, n - 1)) + SeparatorTokens(cs[n - 2]))
    requires Pieces(cs[n - 1]) != [] && OneAt(cs[n - 1], TokensOf(Pieces(cs[n - 1])))
    ensures IsList(cs[..n], TokensOf(ListPieces(cs, n)))
  {
    var row, last := TokensOf(ListPieces(cs, n - 1)) + SeparatorTokens(cs[n - 2]), TokensOf(Pieces(cs[n - 1]));
    ItemsPrintable(cs);
    ListTokens(cs, n);
    TakeMore(cs, n);
    RowAndLast(cs[..n - 1], row, cs[n - 1], last, cs[..n], TokensOf(ListPieces(cs, n)));
  }

  lemma RowAndLast(cs: seq<Cmd>, row: seq<Token>, c: Cmd, last: seq<Token>, ds: seq<Cmd>, w: seq<Token>)
    requires RowAt(cs, row) && last != [] && ds == cs + [c] && w == row + last && OneAt(c, last)
    ensures IsList(ds, w)
  {
    assert AllItems(cs, row) && IsList([c], last);
    ItemsAndLast(cs, row, c, last);
  }

  /** Tokenizing and parsing the printed text gives the same commands. */
  lemma RoundTrip(cs: seq<Cmd>)
    requires ItemsOk(cs)
    ensures var ts := Tokens(ListText(cs, |cs|), 0);
            Input(ts) && Parse(ts) == Some(cs)
  {
    var ps := ListPieces(cs, |cs|);
    ItemsPrintable(cs);
    ListPrinted(cs, |cs|);
    ReadBack(ps);
    ItemsSentence(cs, |cs|);
    assert cs[..|cs|] == cs;
    var ts := TokensOf(ps) + [END];
    assert ts[..|ts| - 1] == TokensOf(ps);
    ParseExact(ts, cs);
  }
}

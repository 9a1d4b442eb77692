/**
 When printing a tree and parsing the text gives the tree back, exactly: parentheses
 around a single command are not in the tree, so a tree comes back only if none of its
 commands needs them.  Printed text has one "(" for each list in the tree; a derivation
 has one more for each command in parentheses of its own.
 */
module ShellExact {
  import opened Common
  import opened ShellSyntax
  import opened ShellComplete
  import opened ShellParser
  import opened ShellTokens
  import opened ShellPrint
  import opened ShellPieces
  import opened ShellRoundTrip

  // ---------- Counting parentheses ----------

  function Parens(s: seq<Token>): (n: nat) {
    if s == [] then 0 else Parens(s[..|s| - 1]) + if s[|s| - 1].tag == LParen then 1 else 0
  }

  lemma {:induction false} ParensConcat(a: seq<Token>, b: seq<Token>)
    ensures Parens(a + b) == Parens(a) + Parens(b)
    decreases |b|
  {
    if b == [] {
      assert a + b == a;
    } else {
      var n := |b| - 1;
      ParensConcat(a, b[..n]);
      assert (a + b)[..|a + b| - 1] == a + b[..n];
    }
  }

  lemma ParensSplit(ts: seq<Token>, i: nat, k: nat, j: nat)
    requires i <= k <= j <= |ts|
    ensures Parens(ts[i..j]) == Parens(ts[i..k]) + Parens(ts[k..j])
  {
    Between(ts, i, k, j);
    ParensConcat(ts[i..k], ts[k..j]);
  }

  lemma ParensApart(ts: seq<Token>, i: nat, k: nat, j: nat)
    requires i <= k < j <= |ts| && ts[k].tag != LParen
    ensures Parens(ts[i..j]) == Parens(ts[i..k]) + Parens(ts[k + 1..j])
  {
    ParensSplit(ts, i, k, j);
    ParensSplit(ts, k, k + 1, j);
    NoParens(ts[k..k + 1]);
  }

  lemma {:induction false} NoParens(s: seq<Token>)
    requires forall k :: 0 <= k < |s| ==> s[k].tag != LParen
    ensures Parens(s) == 0
  {
    if s != [] {
      NoParens(s[..|s| - 1]);
    }
  }

  /** The lists in a tree */
  function Lists(c: Cmd): (n: nat)
    decreases c, 0
  {
    match c
    case Exec(_) => 0
    case Back(e) => Lists(e)
    case Piped(a, b) => Lists(a) + Lists(b)
    case Redir(e, _, _) => Lists(e)
    case List(cs) => 1 + AllLists(cs, |cs|)
  }

  function AllLists(cs: seq<Cmd>, n: nat): (r: nat)
    requires n <= |cs|
    decreases cs, n
  {
    if n == 0 then 0 else AllLists(cs, n - 1) + Lists(cs[n - 1])
  }

  lemma {:induction false} ListsRest(cs: seq<Cmd>, n: nat)
    requires 0 < n <= |cs|
    ensures AllLists(cs, n) == Lists(cs[0]) + AllLists(cs[1..], n - 1)
  {
    if n > 1 {
      ListsRest(cs, n - 1);
    }
  }

  // ---------- Printed text has one for each list ----------

  lemma {:induction false} FileParens(kind: nat, fs: seq<string>)
    requires kind < KINDS
    ensures Parens(TokensOf(FilePieces(kind, fs))) == 0
  {
    if fs == [] {
      assert TokensOf(FilePieces(kind, fs)) == [];
    } else {
      var n := |fs| - 1;
      var last := [Piece(true, SymbolToken(kind)), Piece(true, Token(Str, fs[n]))];
      FileParens(kind, fs[..n]);
      TokensConcat(FilePieces(kind, fs[..n]), last);
      NoParens(TokensOf(last));
      ParensConcat(TokensOf(FilePieces(kind, fs[..n])), TokensOf(last));
    }
  }

  lemma {:induction false} KindParens(files: seq<seq<string>>, n: nat)
    requires n <= KINDS && n <= |files|
    ensures Parens(TokensOf(KindPieces(files, n))) == 0
  {
    if n == 0 {
      assert TokensOf(KindPieces(files, n)) == [];
    } else {
      KindParens(files, n - 1);
      FileParens(n - 1, files[n - 1]);
      JoinedParens(KindPieces(files, n - 1), FilePieces(n - 1, files[n - 1]));
    }
  }

  lemma JoinedParens(a: seq<Piece>, b: seq<Piece>)
    ensures Parens(TokensOf(a + b)) == Parens(TokensOf(a)) + Parens(TokensOf(b))
  {
    TokensConcat(a, b);
    ParensConcat(TokensOf(a), TokensOf(b));
  }

  lemma OneParens(p: Piece)
    ensures Parens(TokensOf([p])) == if p.tok.tag == LParen then 1 else 0
  {
    assert TokensOf([p]) == [p.tok] && [p.tok][..0] == [];
  }

  lemma {:induction false} PiecesParens(c: Cmd)
    requires Printable(c)
    ensures Parens(TokensOf(Pieces(c))) == Lists(c)
    decreases c, 0
  {
    match c
    case Exec(words) =>
      WordsWhole(words);
      NoParens(words);
    case Back(e) =>
      PiecesParens(e);
      OneParens(Piece(true, AMP));
      JoinedParens(Pieces(e), [Piece(true, AMP)]);
    case Piped(a, b) =>
      PiecesParens(a);
      PiecesParens(b);
      CmdPrinted(b);
      ThreeParens(Pieces(a), Piece(true, BAR), Pieces(b));
    case Redir(e, files, _) =>
      PiecesParens(e);
      FilesParens(Pieces(e), files);
    case List(cs) =>
      ListParens(cs, |cs|);
      AroundParens(ListPieces(cs, |cs|));
  }

  lemma ThreeParens(a: seq<Piece>, p: Piece, b: seq<Piece>)
    requires Whole(b) && p.tok.tag != LParen
    ensures Parens(TokensOf(a + [p] + Spaced(b))) == Parens(TokensOf(a)) + Parens(TokensOf(b))
  {
    SpacedBehind(b);
    OneParens(p);
    JoinedParens(a, [p]);
    JoinedParens(a + [p], Spaced(b));
  }

  lemma FilesParens(a: seq<Piece>, files: seq<seq<string>>)
    ensures Parens(TokensOf(a + if |files| == KINDS then KindPieces(files, KINDS) else [])) == Parens(TokensOf(a))
  {
    if |files| == KINDS {
      KindParens(files, KINDS);
      JoinedParens(a, KindPieces(files, KINDS));
    } else {
      assert a + [] == a;
    }
  }

  lemma AroundParens(ps: seq<Piece>)
    ensures Parens(TokensOf([Piece(false, LEFT)] + ps + [Piece(false, RIGHT)])) == 1 + Parens(TokensOf(ps))
  {
    var l, r := Piece(false, LEFT), Piece(false, RIGHT);
    OneParens(l);
    OneParens(r);
    JoinedParens([l], ps);
    JoinedParens([l] + ps, [r]);
  }

  lemma {:induction false} ListParens(cs: seq<Cmd>, n: nat)
    requires AllPrintable(cs) && n <= |cs|
    ensures Parens(TokensOf(ListPieces(cs, n))) == AllLists(cs, n)
    decreases cs, n
  {
    if n == 0 {
      assert TokensOf(ListPieces(cs, n)) == [];
    } else {
      PiecesParens(cs[n - 1]);
      if n > 1 {
        ListParens(cs, n - 1);
        CmdPrinted(cs[n - 1]);
        NextParens(ListPieces(cs, n - 1), cs[n - 2].Back?, Pieces(cs[n - 1]));
      }
    }
  }

  lemma NextParens(a: seq<Piece>, back: bool, b: seq<Piece>)
    requires Whole(b)
    ensures Parens(TokensOf(a + (if back then [] else [Piece(true, SEMI)]) + Spaced(b))) ==
            Parens(TokensOf(a)) + Parens(TokensOf(b))
  {
    if back {
      SpacedBehind(b);
      assert a + [] == a;
      JoinedParens(a, Spaced(b));
    } else {
      ThreeParens(a, Piece(true, SEMI), b);
    }
  }

  // ---------- A derivation has no fewer, and no more only if each command stands for itself ----------

  /** What a derivation of c with n parentheses says about c, where ok tells that c needs no other parentheses */
  ghost predicate Bounded(n: nat, lists: nat, printable: bool, ok: bool) {
    n >= lists && (n == lists && printable ==> ok)
  }

  lemma {:induction false} CommandBound(c: Cmd, ts: seq<Token>, i: nat, j: nat)
    requires i <= j <= |ts| && CommandAt(c, ts, i, j)
    ensures Bounded(Parens(ts[i..j]), Lists(c), Printable(c), CommandOk(c))
    decreases j - i, 0
  {
    CommandParts(c, ts, i, j);
    if ts[i].tag == LParen {
      InnerParens(ts, i, j);
      LineBound(c, ts, i + 1, j - 1);
    }
  }

  lemma InnerParens(ts: seq<Token>, i: nat, j: nat)
    requires i + 2 <= j <= |ts| && ts[i].tag == LParen && ts[j - 1].tag == RParen
    ensures Parens(ts[i..j]) == 1 + Parens(ts[i + 1..j - 1])
  {
    var a, b := [ts[i]], [ts[j - 1]];
    assert ts[i..j] == a + ts[i + 1..j - 1] + b;
    ParensConcat(a, ts[i + 1..j - 1]);
    ParensConcat(a + ts[i + 1..j - 1], b);
    assert a[..0] == [] && b[..0] == [];
  }

  lemma {:induction false} LineBound(c: Cmd, ts: seq<Token>, i: nat, j: nat)
    requires i <= j <= |ts| && LineAt(c, ts, i, j)
    ensures Bounded(1 + Parens(ts[i..j]), Lists(c), Printable(c), CommandOk(c))
    decreases j - i, 4
  {
    var cs := LineParts(c, ts, i, j);
    ListBound(cs, ts, i, j);
    if |cs| == 1 {
      assert AllLists(cs, 1) == AllLists(cs, 0) + Lists(cs[0]);
    }
  }

  lemma {:induction false} RedirectionBound(c: Cmd, ts: seq<Token>, i: nat, j: nat, piped: bool)
    requires i <= j <= |ts| && RedirectionAt(c, ts, i, j, piped)
    ensures Bounded(Parens(ts[i..j]), Lists(c), Printable(c), RedirectionOk(c, piped))
    decreases j - i, 1
  {
    var bare, m := RedirectionParts(c, ts, i, j, piped);
    if bare {
      CommandBound(c, ts, i, j);
    } else {
      CommandBound(c.cmd, ts, i, m);
      ParensSplit(ts, i, m, j);
      SomeFile(ts[m..j], c.files);
    }
  }

  lemma SomeFile(s: seq<Token>, files: seq<seq<string>>)
    requires s != [] && AllFiles(s, files)
    ensures |files| == KINDS && exists t :: 0 <= t < KINDS && files[t] != []
  {
    var t := Kind(s[0].tag);
    assert files[t] == FilesOf(s, t);
  }

  lemma NotPiped(c: Cmd)
    ensures CommandOk(c) ==> c.Exec? || c.List?
    ensures RedirectionOk(c, false) ==> !c.Piped? && !c.Back? && PipelineOk(c)
    ensures PipelineOk(c) ==> !c.Back?
  {
  }

  lemma {:induction false} PipelineBound(c: Cmd, ts: seq<Token>, i: nat, j: nat)
    requires i <= j <= |ts| && PipelineAt(c, ts, i, j)
    ensures Bounded(Parens(ts[i..j]), Lists(c), Printable(c), PipelineOk(c))
    decreases j - i, 2
  {
    var one, m := PipelineParts(c, ts, i, j);
    if one {
      RedirectionBound(c, ts, i, j, false);
      NotPiped(c);
    } else {
      RedirectionBound(c.left, ts, i, m, true);
      PipelineBound(c.right, ts, m + 1, j);
      ParensApart(ts, i, m, j);
    }
  }

  lemma {:induction false} ListBound(cs: seq<Cmd>, ts: seq<Token>, i: nat, j: nat)
    requires i <= j <= |ts| && ListAt(cs, ts, i, j)
    ensures Bounded(Parens(ts[i..j]), AllLists(cs, |cs|), AllPrintable(cs), ItemsOk(cs))
    decreases j - i, 3
  {
    var last, c, m := ListParts(cs, ts, i, j);
    if last {
      PipelineBound(c, ts, i, j);
      FirstBound(cs, c, Parens(ts[i..j]), 0);
    } else {
      PipelineBound(c, ts, i, m);
      ParensApart(ts, i, m, j);
      if |cs| > 1 {
        ListBound(cs[1..], ts, m + 1, j);
      }
      FirstBound(cs, c, Parens(ts[i..m]), Parens(ts[m + 1..j]));
    }
  }

  /** The first command of a list and the others */
  lemma FirstBound(cs: seq<Cmd>, c: Cmd, first: nat, others: nat)
    requires cs != [] && (cs[0] == c || cs[0] == Back(c)) && Bounded(first, Lists(c), Printable(c), PipelineOk(c))
    requires |cs| > 1 ==> Bounded(others, AllLists(cs[1..], |cs| - 1), AllPrintable(cs[1..]), ItemsOk(cs[1..]))
    ensures Bounded(first + others, AllLists(cs, |cs|), AllPrintable(cs), ItemsOk(cs))
  {
    ListsRest(cs, |cs|);
    if first + others == AllLists(cs, |cs|) && AllPrintable(cs) {
      assert Printable(cs[0]);
      forall k | 0 <= k < |cs|
        ensures ItemOk(cs[k])
      {
        if k == 0 {
          NotPiped(c);
        } else {
          assert cs[k] == cs[1..][k - 1];
          assert forall l :: 0 <= l < |cs| - 1 ==> Printable(cs[1..][l]);
        }
      }
    }
  }

  // ---------- Which trees come back ----------

  /**
   A tree of lexemes that are read as themselves comes back from its text exactly if no
   command in it needs parentheses of its own.
   */
  lemma RoundTripExact(cs: seq<Cmd>)
    requires AllPrintable(cs)
    ensures var ts := Tokens(ListText(cs, |cs|), 0);
            Input(ts) && (Parse(ts) == Some(cs) <==> ItemsOk(cs))
  {
    var ps := ListPieces(cs, |cs|);
    var ts := TokensOf(ps) + [END];
    ListPrinted(cs, |cs|);
    ReadBack(ps);
    if ItemsOk(cs) {
      RoundTrip(cs);
    } else if Parse(ts) == Some(cs) {
      ParseExact(ts, cs);
      ListParens(cs, |cs|);
      assert ts[0..|ps|] == ts[..|ts| - 1] == TokensOf(ps);
      ListBound(cs, ts, 0, |ps|);
    }
  }

  // ---------- Trees that do not come back ----------

  /** The parser does build a redirection of a whole pipeline, from a pipeline in parentheses. */
  lemma ParensBuilt(a: Cmd, b: Cmd, files: seq<seq<string>>) returns (ts: seq<Token>)
    requires RedirectionOk(a, true) && CommandOk(b) && FilesOk(files)
    ensures Input(ts) && Parse(ts) == Some([Redir(Piped(a, b), files, false)])
  {
    var c := Piped(a, b);
    var x, f := Pieces(c), KindPieces(files, KINDS);
    assert PipelineOk(b) && PipelineOk(c);
    PipelinePrintable(c);
    CmdPrinted(c);
    KindsBehind(files, KINDS);
    PipelineSentence(c);
    ListOne(c, TokensOf(x));
    CommandInParens(c, LEFT, TokensOf(x), RIGHT);
    KindsSentence(files);
    var s := [LEFT] + TokensOf(x) + [RIGHT];
    WithFiles(c, s, TokensOf(f), files, false);
    PipeOne(Redir(c, files, false), s + TokensOf(f));
    ListOne(Redir(c, files, false), s + TokensOf(f));
    ts := s + TokensOf(f) + [END];
    NoEnd(x, f);
    assert ts[..|ts| - 1] == s + TokensOf(f);
    ParseExact(ts, [Redir(c, files, false)]);
  }

  lemma NoEnd(x: seq<Piece>, f: seq<Piece>)
    requires AllSelf(x) && AllSelf(f)
    ensures Input([LEFT] + TokensOf(x) + [RIGHT] + TokensOf(f) + [END])
  {
    assert forall k :: 0 <= k < |x| ==> TokensOf(x)[k].tag != Eof;
    assert forall k :: 0 <= k < |f| ==> TokensOf(f)[k].tag != Eof;
  }

  /**
   Parentheses around a single pipeline are not in the tree, so they are lost: a
   redirection of a whole pipeline, which the parser builds, is printed like one of its
   last command, and the text is parsed as that.
   */
  lemma ParensLost(a: Cmd, b: Cmd, files: seq<seq<string>>) returns (built: seq<Token>)
    requires RedirectionOk(a, true) && CommandOk(b) && FilesOk(files)
    ensures var lost, found := [Redir(Piped(a, b), files, false)], [Piped(a, Redir(b, files, false))];
            var ts := Tokens(ListText(lost, 1), 0);
            && found != lost && Input(built) && Parse(built) == Some(lost)
            && Input(ts) && Parse(ts) == Some(found)
  {
    var found := [Piped(a, Redir(b, files, false))];
    built := ParensBuilt(a, b, files);
    SameText(a, b, files);
    assert PipelineOk(found[0].right);
    assert PipelineOk(found[0]);
    RoundTrip(found);
  }

  lemma SameText(a: Cmd, b: Cmd, files: seq<seq<string>>)
    requires |files| == KINDS
    ensures ListText([Redir(Piped(a, b), files, false)], 1) == ListText([Piped(a, Redir(b, files, false))], 1)
  {
    var x, y, k := Text(a), Text(b), KindsText(files, KINDS);
    var lost, found := Redir(Piped(a, b), files, false), Piped(a, Redir(b, files, false));
    assert Text(lost.cmd) == x + " | " + y && Text(lost) == Text(lost.cmd) + k;
    assert Text(found.right) == y + k && Text(found) == x + " | " + Text(found.right);
    assert x + " | " + y + k == x + " | " + (y + k);
  }
}

/**
 The command language of user/shell: tokens, command trees, the grammar stated in
 Parser.zig as a relation between trees and token sequences, and a recursive-descent
 parser on values that accepts exactly the sentences of the grammar.
 */
module ShellSyntax {
  import opened Common

  /** In the order of the source, which sorting redirections relies on */
  datatype Tag = Eof | Invalid | Cd | Str | LParen | RParen | Semi | Amp | Bar | In | Out | OutAppend | Err | ErrAppend

  datatype Token = Token(tag: Tag, lexeme: string)

  /** The token at the end of input */
  const END := Token(Eof, "\\n")

  datatype Cmd =
    | Exec(words: seq<Token>)
    | Redir(cmd: Cmd, files: seq<seq<string>>, piped: bool)   // piped: a '|' follows
    | Piped(left: Cmd, right: Cmd)
    | Back(cmd: Cmd)
    | List(cmds: seq<Cmd>)

  predicate IsWord(t: Tag) {
    t == Str || t == Cd
  }

  predicate IsRedir(t: Tag) {
    t == In || t == Out || t == OutAppend || t == Err || t == ErrAppend
  }

  const KINDS: nat := 5

  /** The redirections' kinds, in their order */
  function Kind(t: Tag): (k: nat)
    requires IsRedir(t)
    ensures k < KINDS
  {
    match t
    case In => 0
    case Out => 1
    case OutAppend => 2
    case Err => 3
    case ErrAppend => 4
  }

  // ---------- The grammar ----------

  /** ("<" | ">" | ">>" | "2>" | "2>>") file, any number of times */
  ghost predicate Redirections(s: seq<Token>) {
    s == [] || (|s| >= 2 && IsRedir(s[0].tag) && s[1].tag == Str && Redirections(s[2..]))
  }

  /** The files of one kind, in source order */
  ghost function FilesOf(s: seq<Token>, kind: nat): (fs: seq<string>)
    requires Redirections(s)
  {
    if s == [] then [] else (if Kind(s[0].tag) == kind then [s[1].lexeme] else []) + FilesOf(s[2..], kind)
  }

  ghost predicate AllFiles(s: seq<Token>, files: seq<seq<string>>) {
    Redirections(s) && |files| == KINDS && forall t :: 0 <= t < KINDS ==> files[t] == FilesOf(s, t)
  }

  /** command -> string+ | "(" commandline ")" */
  ghost predicate IsCommand(c: Cmd, s: seq<Token>)
    decreases |s|, 0
  {
    || (c.Exec? && c.words == s && s != [] && forall k :: 0 <= k < |s| ==> IsWord(s[k].tag))
    || (|s| >= 2 && s[0].tag == LParen && s[|s| - 1].tag == RParen && IsLine(c, s[1..|s| - 1]))
  }

  /** redirection -> command (redirections)*; piped tells whether a '|' follows */
  ghost predicate IsRedirection(c: Cmd, s: seq<Token>, piped: bool)
    decreases |s|, 1
  {
    || IsCommand(c, s)
    || (c.Redir? && c.piped == piped && exists k :: 0 < k < |s| && RedirSplit(c, s, k))
  }

  ghost predicate RedirSplit(c: Cmd, s: seq<Token>, k: nat)
    requires c.Redir? && 0 < k < |s|
    decreases |s|, 0
  {
    IsCommand(c.cmd, s[..k]) && AllFiles(s[k..], c.files)
  }

  /** pipeline -> redirection ("|" redirection)* */
  ghost predicate IsPipeline(c: Cmd, s: seq<Token>)
    decreases |s|, 3
  {
    || IsRedirection(c, s, false)
    || (c.Piped? && exists k :: 0 < k < |s| && PipeSplit(c, s, k))
  }

  ghost predicate PipeSplit(c: Cmd, s: seq<Token>, k: nat)
    requires c.Piped? && 0 < k < |s|
    decreases |s|, 2
  {
    s[k].tag == Bar && IsRedirection(c.left, s[..k], true) && IsPipeline(c.right, s[k + 1..])
  }

  /** One pipeline of a list, with its separator at the end */
  ghost predicate IsItem(c: Cmd, s: seq<Token>)
    decreases |s|, 4
  {
    && s != []
    && ((s[|s| - 1].tag == Semi && IsPipeline(c, s[..|s| - 1]))
        || (s[|s| - 1].tag == Amp && c.Back? && IsPipeline(c.cmd, s[..|s| - 1])))
  }

  /** list -> pipeline ((";" | "&") pipeline)*, and for a commandline one more separator */
  ghost predicate IsList(cs: seq<Cmd>, s: seq<Token>)
    decreases |s|, 6
  {
    && cs != []
    && if |cs| == 1 then IsPipeline(cs[0], s) || IsItem(cs[0], s)
       else exists k :: 0 < k < |s| && ListSplit(cs, s, k)
  }

  ghost predicate ListSplit(cs: seq<Cmd>, s: seq<Token>, k: nat)
    requires |cs| > 1 && 0 < k < |s|
    decreases |s|, 5
  {
    IsItem(cs[0], s[..k]) && IsList(cs[1..], s[k..])
  }

  /** A commandline in parentheses: a list of one command is that command. */
  ghost predicate IsLine(c: Cmd, s: seq<Token>)
    decreases |s|, 7
  {
    IsList([c], s) || (c.List? && |c.cmds| > 1 && IsList(c.cmds, s))
  }

  // ---------- The parser ----------

  /** Tokens end with the only end of input. */
  ghost predicate Input(ts: seq<Token>) {
    |ts| > 0 && ts[|ts| - 1].tag == Eof && forall k :: 0 <= k < |ts| - 1 ==> ts[k].tag != Eof
  }

  function WordsEnd(ts: seq<Token>, i: nat): (j: nat)
    requires i < |ts| && Input(ts)
    ensures i <= j < |ts| && !IsWord(ts[j].tag) && forall k :: i <= k < j ==> IsWord(ts[k].tag)
    decreases |ts| - i
  {
    if IsWord(ts[i].tag) then WordsEnd(ts, i + 1) else i
  }

  function FilesEnd(ts: seq<Token>, i: nat): (r: Option<nat>)
    requires i < |ts| && Input(ts)
    ensures r.Some? ==> i <= r.value < |ts| && !IsRedir(ts[r.value].tag)
    decreases |ts| - i
  {
    if !IsRedir(ts[i].tag) then Some(i)
    else if ts[i + 1].tag == Str then FilesEnd(ts, i + 2)
    else None
  }

  lemma {:induction false} FilesEndIs(ts: seq<Token>, i: nat)
    requires i < |ts| && Input(ts) && FilesEnd(ts, i).Some?
    ensures Redirections(ts[i..FilesEnd(ts, i).value])
    decreases |ts| - i
  {
    if IsRedir(ts[i].tag) {
      FilesEndIs(ts, i + 2);
      var j := FilesEnd(ts, i).value;
      assert ts[i..j][2..] == ts[i + 2..j];
    }
  }

  ghost function FileLists(s: seq<Token>): (files: seq<seq<string>>)
    requires Redirections(s)
    ensures AllFiles(s, files)
  {
    seq(KINDS, t requires 0 <= t < KINDS => FilesOf(s, t))
  }

  /** What a parsing function returns: a tree and where it ends */
  datatype Parsed<T> = Fail | Ok(tree: T, end: nat)

  ghost function ParseCommand(ts: seq<Token>, i: nat): (r: Parsed<Cmd>)
    requires i < |ts| && Input(ts)
    ensures r.Ok? ==> i < r.end < |ts|
    decreases |ts| - i, 0
  {
    if ts[i].tag == LParen then
      var line := ParseLine(ts, i + 1);
      if line.Ok? && ts[line.end].tag == RParen then Ok(line.tree, line.end + 1) else Fail
    else if IsWord(ts[i].tag) then
      var j := WordsEnd(ts, i + 1);
      Ok(Exec(ts[i..j]), j)
    else Fail
  }

  ghost function ParseRedirection(ts: seq<Token>, i: nat): (r: Parsed<Cmd>)
    requires i < |ts| && Input(ts)
    ensures r.Ok? ==> i < r.end < |ts|
    decreases |ts| - i, 1
  {
    var c := ParseCommand(ts, i);
    if c.Fail? then Fail
    else
      var j := FilesEnd(ts, c.end);
      if j == None then Fail
      else if j.value == c.end then c
      else
        FilesEndIs(ts, c.end);
        Ok(Redir(c.tree, FileLists(ts[c.end..j.value]), ts[j.value].tag == Bar), j.value)
  }

  ghost function ParsePipeline(ts: seq<Token>, i: nat): (r: Parsed<Cmd>)
    requires i < |ts| && Input(ts)
    ensures r.Ok? ==> i < r.end < |ts|
    decreases |ts| - i, 2
  {
    var a := ParseRedirection(ts, i);
    if a.Fail? || ts[a.end].tag != Bar then a
    else
      var b := ParsePipeline(ts, a.end + 1);
      if b.Fail? then Fail else Ok(Piped(a.tree, b.tree), b.end)
  }

  /** An unexpected token after a pipeline ends the list without that pipeline. */
  ghost function ParseList(ts: seq<Token>, i: nat): (r: Parsed<seq<Cmd>>)
    requires i < |ts| && Input(ts)
    ensures r.Ok? ==> i <= r.end < |ts|
    decreases |ts| - i, 3
  {
    if Closes(ts[i].tag) then Ok([], i)
    else
      var c := ParsePipeline(ts, i);
      if c.Fail? then Fail
      else if Closes(ts[c.end].tag) then Ok([c.tree], c.end)
      else if ts[c.end].tag == Semi || ts[c.end].tag == Amp then
        var rest := ParseList(ts, c.end + 1);
        if rest.Fail? then Fail
        else Ok([if ts[c.end].tag == Amp then Back(c.tree) else c.tree] + rest.tree, rest.end)
      else Ok([], c.end)
  }

  predicate Closes(t: Tag) {
    t == Eof || t == RParen
  }

  ghost function ParseLine(ts: seq<Token>, i: nat): (r: Parsed<Cmd>)
    requires i < |ts| && Input(ts)
    ensures r.Ok? ==> i <= r.end < |ts|
    decreases |ts| - i, 4
  {
    var cs := ParseList(ts, i);
    if cs.Fail? || cs.tree == [] then Fail
    else Ok(if |cs.tree| == 1 then cs.tree[0] else List(cs.tree), cs.end)
  }

  /** The whole input: its commands, if it is accepted */
  ghost function Parse(ts: seq<Token>): (r: Option<seq<Cmd>>)
    requires Input(ts)
  {
    var cs := ParseList(ts, 0);
    if cs.Ok? && cs.tree != [] && ts[cs.end].tag == Eof then Some(cs.tree) else None
  }

  // ---------- Putting sentences together ----------

  lemma Around(ts: seq<Token>, i: nat, k: nat, j: nat)
    requires i <= k < j <= |ts|
    ensures ts[i..j] == ts[i..k] + [ts[k]] + ts[k + 1..j]
  {
  }

  lemma Between(ts: seq<Token>, i: nat, k: nat, j: nat)
    requires i <= k <= j <= |ts|
    ensures ts[i..j] == ts[i..k] + ts[k..j]
  {
  }

  lemma Within(ts: seq<Token>, i: nat, j: nat)
    requires i < j < |ts|
    ensures ts[i..j + 1] == [ts[i]] + ts[i + 1..j] + [ts[j]]
  {
  }

  lemma CommandInParens(c: Cmd, l: Token, s: seq<Token>, r: Token)
    requires l.tag == LParen && r.tag == RParen && IsLine(c, s)
    ensures IsCommand(c, [l] + s + [r])
  {
    var w := [l] + s + [r];
    assert w[1..|w| - 1] == s;
  }

  lemma WithFiles(c: Cmd, s: seq<Token>, f: seq<Token>, files: seq<seq<string>>, piped: bool)
    requires IsCommand(c, s) && s != [] && f != [] && AllFiles(f, files)
    ensures IsRedirection(Redir(c, files, piped), s + f, piped)
  {
    var w, k := s + f, |s|;
    assert w[..k] == s && w[k..] == f;
    assert RedirSplit(Redir(c, files, piped), w, k);
  }

  lemma PipeJoin(a: Cmd, x: seq<Token>, bar: Token, b: Cmd, y: seq<Token>)
    requires IsRedirection(a, x, true) && x != [] && bar.tag == Bar && IsPipeline(b, y)
    ensures IsPipeline(Piped(a, b), x + [bar] + y)
  {
    var w, k := x + [bar] + y, |x|;
    assert w[..k] == x && w[k + 1..] == y;
    assert PipeSplit(Piped(a, b), w, k);
  }

  lemma ItemMade(c: Cmd, s: seq<Token>, sep: Token)
    requires IsPipeline(c, s) && (sep.tag == Semi || sep.tag == Amp)
    ensures IsItem(if sep.tag == Amp then Back(c) else c, s + [sep])
  {
    var w := s + [sep];
    assert w[..|w| - 1] == s;
  }

  lemma ListJoin(c: Cmd, x: seq<Token>, cs: seq<Cmd>, y: seq<Token>)
    requires IsItem(c, x) && IsList(cs, y) && y != []
    ensures IsList([c] + cs, x + y)
  {
    var w, k, ds := x + y, |x|, [c] + cs;
    assert w[..k] == x && w[k..] == y && ds[1..] == cs;
    assert ListSplit(ds, w, k);
  }

  lemma ListOne(c: Cmd, s: seq<Token>)
    requires IsPipeline(c, s) || IsItem(c, s)
    ensures IsList([c], s)
  {
  }

  // ---------- Every accepted input is a sentence ----------

  lemma {:induction false} CommandSound(ts: seq<Token>, i: nat)
    requires i < |ts| && Input(ts)
    ensures ParseCommand(ts, i).Ok? ==> IsCommand(ParseCommand(ts, i).tree, ts[i..ParseCommand(ts, i).end])
    decreases |ts| - i, 0
  {
    if ts[i].tag == LParen {
      LineSound(ts, i + 1);
      var line := ParseLine(ts, i + 1);
      if line.Ok? && ts[line.end].tag == RParen {
        CommandInParens(line.tree, ts[i], ts[i + 1..line.end], ts[line.end]);
        Within(ts, i, line.end);
      }
    }
  }

  /**
   The parsed part of the input is a redirection.  The grammar is behind a quantifier, so
   that a sentence is taken apart only where it is asserted.
   */
  ghost predicate RedirectionFound(r: Parsed<Cmd>, ts: seq<Token>, i: nat) {
    r.Ok? && i <= r.end < |ts| ==>
      forall s, piped :: s == ts[i..r.end] && piped == (ts[r.end].tag == Bar) ==> IsRedirection(r.tree, s, piped)
  }

  lemma {:induction false} RedirectionSound(ts: seq<Token>, i: nat)
    requires i < |ts| && Input(ts)
    ensures RedirectionFound(ParseRedirection(ts, i), ts, i)
    decreases |ts| - i, 1
  {
    CommandSound(ts, i);
    var c, r := ParseCommand(ts, i), ParseRedirection(ts, i);
    if r.Ok? && r.end != c.end {
      WithFiles(c.tree, ts[i..c.end], ts[c.end..r.end], r.tree.files, r.tree.piped);
      Between(ts, i, c.end, r.end);
    }
  }

  /** The parsed part of the input is a pipeline. */
  ghost predicate PipelineFound(r: Parsed<Cmd>, ts: seq<Token>, i: nat) {
    r.Ok? && i <= r.end <= |ts| ==> forall s :: s == ts[i..r.end] ==> IsPipeline(r.tree, s)
  }

  lemma {:induction false} PipelineSound(ts: seq<Token>, i: nat)
    requires i < |ts| && Input(ts)
    ensures PipelineFound(ParsePipeline(ts, i), ts, i)
    decreases |ts| - i, 2
  {
    RedirectionSound(ts, i);
    var a := ParseRedirection(ts, i);
    if a.Ok? && ts[a.end].tag == Bar {
      PipelineSound(ts, a.end + 1);
      PipeMore(ts, i, a, ParsePipeline(ts, a.end + 1));
    } else if a.Ok? {
      PipelineEnds(ts, i, a);
    }
  }

  lemma PipelineEnds(ts: seq<Token>, i: nat, a: Parsed<Cmd>)
    requires a.Ok? && i <= a.end < |ts| && ts[a.end].tag != Bar && RedirectionFound(a, ts, i)
    ensures PipelineFound(a, ts, i)
  {
    assert IsRedirection(a.tree, ts[i..a.end], false);
    PipeOne(a.tree, ts[i..a.end]);
  }

  lemma PipeOne(c: Cmd, s: seq<Token>)
    requires IsRedirection(c, s, false)
    ensures IsPipeline(c, s)
  {
  }

  lemma PipeMore(ts: seq<Token>, i: nat, a: Parsed<Cmd>, b: Parsed<Cmd>)
    requires a.Ok? && i < a.end < |ts| && ts[a.end].tag == Bar && RedirectionFound(a, ts, i)
    requires b.Ok? ==> a.end + 1 < b.end < |ts|
    requires PipelineFound(b, ts, a.end + 1)
    ensures b.Ok? ==> PipelineFound(Ok(Piped(a.tree, b.tree), b.end), ts, i)
  {
    if b.Ok? {
      Around(ts, i, a.end, b.end);
      PipeWhole(a.tree, ts[i..a.end], ts[a.end], b.tree, ts[a.end + 1..b.end], ts[i..b.end]);
    }
  }

  /** PipeJoin, with what it is given and what it shows kept behind a quantifier */
  lemma PipeWhole(a: Cmd, x: seq<Token>, bar: Token, b: Cmd, y: seq<Token>, w: seq<Token>)
    requires w == x + [bar] + y && x != [] && bar.tag == Bar
    requires forall s, piped :: s == x && piped == (bar.tag == Bar) ==> IsRedirection(a, s, piped)
    requires forall s :: s == y ==> IsPipeline(b, s)
    ensures forall s :: s == w ==> IsPipeline(Piped(a, b), s)
  {
    assert IsRedirection(a, x, true) && IsPipeline(b, y);
    PipeJoin(a, x, bar, b, y);
  }

  /** The parsed part of the input is a list, or nothing; hidden in the same way. */
  ghost predicate ListFound(r: Parsed<seq<Cmd>>, ts: seq<Token>, i: nat) {
    r.Ok? && i <= r.end < |ts| && Closes(ts[r.end].tag) ==>
      if r.tree == [] then r.end == i else r.end > i && forall s :: s == ts[i..r.end] ==> IsList(r.tree, s)
  }

  lemma {:induction false} ListSound(ts: seq<Token>, i: nat)
    requires i < |ts| && Input(ts)
    ensures ListFound(ParseList(ts, i), ts, i)
    decreases |ts| - i, 3
  {
    if !Closes(ts[i].tag) {
      var c := ParsePipeline(ts, i);
      if c.Ok? {
        PipelineSound(ts, i);
        if ts[c.end].tag == Semi || ts[c.end].tag == Amp {
          ListSound(ts, c.end + 1);
          ListMore(ts, i, c, ParseList(ts, c.end + 1));
        } else {
          ListLast(c.tree, ts[i..c.end]);
        }
      }
    }
  }

  lemma ListMore(ts: seq<Token>, i: nat, c: Parsed<Cmd>, rest: Parsed<seq<Cmd>>)
    requires c.Ok? && i < c.end && c.end + 1 < |ts| && (ts[c.end].tag == Semi || ts[c.end].tag == Amp)
    requires PipelineFound(c, ts, i) && (rest.Ok? ==> c.end < rest.end < |ts|) && ListFound(rest, ts, c.end + 1)
    ensures rest.Ok? ==> ListFound(Ok([if ts[c.end].tag == Amp then Back(c.tree) else c.tree] + rest.tree, rest.end),
            ts, i)
  {
    if rest.Ok? && Closes(ts[rest.end].tag) {
      Around(ts, i, c.end, rest.end);
      var d := if ts[c.end].tag == Amp then Back(c.tree) else c.tree;
      ItemThen(c.tree, ts[i..c.end], ts[c.end], d, rest.tree, ts[c.end + 1..rest.end], ts[i..rest.end],
          [d] + rest.tree);
    }
  }

  lemma ListLast(c: Cmd, x: seq<Token>)
    requires forall s :: s == x ==> IsPipeline(c, s)
    ensures forall s :: s == x ==> IsList([c], s)
  {
    assert IsPipeline(c, x);
    ListOne(c, x);
  }

  /** A pipeline and what ends it, in front of a list that may be empty */
  lemma ItemThen(c: Cmd, x: seq<Token>, sep: Token, d: Cmd, cs: seq<Cmd>, y: seq<Token>, w: seq<Token>, ds: seq<Cmd>)
    requires w == x + [sep] + y && (sep.tag == Semi || sep.tag == Amp)
    requires d == (if sep.tag == Amp then Back(c) else c) && ds == [d] + cs
    requires forall s :: s == x ==> IsPipeline(c, s)
    requires if cs == [] then y == [] else y != [] && forall s :: s == y ==> IsList(cs, s)
    ensures forall s :: s == w ==> IsList(ds, s)
  {
    assert IsItem(d, x + [sep]) by {
      assert IsPipeline(c, x);
      ItemMade(c, x, sep);
    }
    if cs == [] {
      ListOne(d, x + [sep]);
      assert w == x + [sep] && ds == [d];
    } else {
      assert IsList(cs, y);
      ListJoin(d, x + [sep], cs, y);
    }
  }

  lemma {:induction false} LineSound(ts: seq<Token>, i: nat)
    requires i < |ts| && Input(ts)
    ensures var r := ParseLine(ts, i);
            r.Ok? && Closes(ts[r.end].tag) ==> IsLine(r.tree, ts[i..r.end])
    decreases |ts| - i, 4
  {
    ListSound(ts, i);
    var cs := ParseList(ts, i);
    assert cs.Ok? && Closes(ts[cs.end].tag) && cs.tree != [] ==> IsList(cs.tree, ts[i..cs.end]);
    if cs.Ok? && |cs.tree| == 1 {
      assert cs.tree == [cs.tree[0]];
    }
  }

  /** What the parser accepts is a list of the grammar, up to the end of the input. */
  lemma ParseSound(ts: seq<Token>)
    requires Input(ts) && Parse(ts).Some?
    ensures IsList(Parse(ts).value, ts[..|ts| - 1])
  {
    ListSound(ts, 0);
    assert IsList(Parse(ts).value, ts[0..|ts| - 1]);
  }
}

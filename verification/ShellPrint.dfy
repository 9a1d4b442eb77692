/** print of user/shell/Ast.zig, on trees and on their flat form. */
module ShellPrint {
  import opened ShellSyntax
  import opened ShellNodes

  function WordsText(words: seq<Token>): (s: string) {
    if words == [] then "" else if |words| == 1 then words[0].lexeme
    else WordsText(words[..|words| - 1]) + " " + words[|words| - 1].lexeme
  }

  function Symbol(kind: nat): (s: string)
    requires kind < KINDS
  {
    if kind == 0 then "<" else if kind == 1 then ">" else if kind == 2 then ">>" else if kind == 3 then "2>" else "2>>"
  }

  function FilesText(kind: nat, fs: seq<string>): (s: string)
    requires kind < KINDS
  {
    if fs == [] then "" else FilesText(kind, fs[..|fs| - 1]) + " " + Symbol(kind) + " " + fs[|fs| - 1]
  }

  /** The redirections of the first n kinds */
  function KindsText(files: seq<seq<string>>, n: nat): (s: string)
    requires n <= KINDS && n <= |files|
  {
    if n == 0 then "" else KindsText(files, n - 1) + FilesText(n - 1, files[n - 1])
  }

  function Separator(c: Cmd): (s: string) {
    if c.Back? then " " else " ; "
  }

  /** The text of a command; a list is in parentheses. */
  function Text(c: Cmd): (s: string)
    decreases c, 0
  {
    match c
    case Exec(words) => WordsText(words)
    case Back(e) => Text(e) + " &"
    case Piped(a, b) => Text(a) + " | " + Text(b)
    case Redir(e, files, _) => Text(e) + if |files| == KINDS then KindsText(files, KINDS) else ""
    case List(cs) => "(" + ListText(cs, |cs|) + ")"
  }

  /** The first n commands of a list */
  function ListText(cs: seq<Cmd>, n: nat): (s: string)
    requires n <= |cs|
    decreases cs, n
  {
    if n == 0 then ""
    else if n == 1 then Text(cs[0])
    else ListText(cs, n - 1) + Separator(cs[n - 2]) + Text(cs[n - 1])
  }

  // ---------- print on nodes ----------

  method PrintWords(ts: seq<Token>, lhs: nat, rhs: nat) returns (s: string)
    requires lhs < rhs <= |ts|
    ensures s == WordsText(ts[lhs..rhs])
  {
    var words := ts[lhs..rhs];
    s := words[0].lexeme;
    for k := 1 to |words|
      invariant s == WordsText(words[..k])
    {
      assert words[..k + 1][..k] == words[..k];
      s := s + " " + words[k].lexeme;
    }
    assert words[..|words|] == words;
  }

  method PrintFiles(ts: seq<Token>, nodes: seq<Node>, extra: seq<nat>, n: nat, kind: nat, ghost fs: seq<string>)
    returns (s: string)
    requires FilesAt(ts, nodes, extra, n, fs) && kind < KINDS
    ensures s == FilesText(kind, fs)
  {
    s := "";
    if n != 0 {
      var from := nodes[n].lhs;
      var count := nodes[n].rhs - from;
      for m := 0 to count
        invariant s == FilesText(kind, fs[..m])
      {
        assert FileAt(ts, extra, from + m, fs[m]);
        assert fs[..m + 1][..m] == fs[..m];
        s := s + " " + Symbol(kind) + " " + ts[extra[from + m]].lexeme;
      }
      assert fs[..count] == fs;
    }
  }

  method PrintKinds(ts: seq<Token>, nodes: seq<Node>, extra: seq<nat>, at: nat, ghost files: seq<seq<string>>)
    returns (s: string)
    requires at + KINDS <= |extra| && |files| == KINDS
    requires forall t :: 0 <= t < KINDS ==> FilesAt(ts, nodes, extra, extra[at + t], files[t])
    ensures s == KindsText(files, KINDS)
  {
    s := "";
    for t := 0 to KINDS
      invariant s == KindsText(files, t)
    {
      var more := PrintFiles(ts, nodes, extra, extra[at + t], t, files[t]);
      s := s + more;
    }
  }

  /** print of a node other than the root */
  method PrintNode(ts: seq<Token>, nodes: seq<Node>, extra: seq<nat>, n: nat, ghost c: Cmd) returns (s: string)
    requires At(ts, nodes, extra, n, c)
    ensures s == Text(c)
    decreases c, 0
  {
    var d := nodes[n];
    match d.tag
    case NList =>
      assert c.List?;
      var t := PrintList(ts, nodes, extra, d.lhs, d.rhs, c.cmds);
      s := "(" + t + ")";
    case NBack =>
      var t := PrintNode(ts, nodes, extra, d.lhs, c.cmd);
      s := t + " &";
    case NPipe =>
      var l := PrintNode(ts, nodes, extra, d.lhs, c.left);
      var r := PrintNode(ts, nodes, extra, d.rhs, c.right);
      s := l + " | " + r;
    case NFiles => s := "";
    case NExec => s := PrintWords(ts, d.lhs, d.rhs);
    case NBuiltin => s := PrintWords(ts, d.lhs, d.rhs);
    case NRedir =>
      var t := PrintNode(ts, nodes, extra, d.lhs, c.cmd);
      var r := PrintKinds(ts, nodes, extra, d.rhs, c.files);
      s := t + r;
    case NRedirPipe =>
      var t := PrintNode(ts, nodes, extra, d.lhs, c.cmd);
      var r := PrintKinds(ts, nodes, extra, d.rhs, c.files);
      s := t + r;
  }

  /** What print looks at to choose the separator */
  lemma BackTag(ts: seq<Token>, nodes: seq<Node>, extra: seq<nat>, items: seq<nat>, cs: seq<Cmd>, k: nat)
    requires AllAt(ts, nodes, extra, items, cs) && k < |cs|
    ensures items[k] < |nodes| && (nodes[items[k]].tag == NBack <==> cs[k].Back?)
  {
    assert At(ts, nodes, extra, items[k], cs[k]);
  }

  method PrintItem(ts: seq<Token>, nodes: seq<Node>, extra: seq<nat>, items: seq<nat>, ghost cs: seq<Cmd>, k: nat)
    returns (s: string)
    requires AllAt(ts, nodes, extra, items, cs) && k < |cs|
    ensures s == Text(cs[k])
    decreases cs, 0
  {
    assert At(ts, nodes, extra, items[k], cs[k]);
    s := PrintNode(ts, nodes, extra, items[k], cs[k]);
  }

  method PrintList(ts: seq<Token>, nodes: seq<Node>, extra: seq<nat>, lhs: nat, rhs: nat, ghost cs: seq<Cmd>)
    returns (s: string)
    requires lhs <= rhs <= |extra| && AllAt(ts, nodes, extra, extra[lhs..rhs], cs)
    ensures s == ListText(cs, |cs|)
    decreases cs, 1
  {
    var items := extra[lhs..rhs];
    s := "";
    for k := 0 to |items|
      invariant s == ListText(cs, k)
    {
      var t := PrintItem(ts, nodes, extra, items, cs, k);
      if k > 0 {
        BackTag(ts, nodes, extra, items, cs, k - 1);
        s := s + (if nodes[items[k - 1]].tag == NBack then " " else " ; ") + t;
      } else {
        s := t;
      }
    }
  }

  /** print of the root: the commands without parentheses */
  method Print(ts: seq<Token>, nodes: seq<Node>, extra: seq<nat>, ghost cs: seq<Cmd>) returns (s: string)
    requires RootAt(ts, nodes, extra, cs)
    ensures s == ListText(cs, |cs|)
  {
    s := PrintList(ts, nodes, extra, nodes[0].lhs, nodes[0].rhs, cs);
  }
}

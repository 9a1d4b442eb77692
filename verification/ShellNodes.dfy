/**
 The flat form of command trees in user/shell/Ast.zig: nodes that refer to each other
 by index, lists of indices in extra_data, and token indices for words and files.
 */
module ShellNodes {
  import opened ShellSyntax

  datatype NodeTag = NList | NBack | NPipe | NRedir | NRedirPipe | NFiles | NExec | NBuiltin

  datatype Node = Node(tag: NodeTag, lhs: nat, rhs: nat)

  /** Node n, or its absence, stands for the files fs. */
  ghost predicate FilesAt(ts: seq<Token>, nodes: seq<Node>, extra: seq<nat>, n: nat, fs: seq<string>) {
    if fs == [] then n == 0
    else
      && 0 < n < |nodes| && nodes[n].tag == NFiles && nodes[n].lhs <= nodes[n].rhs <= |extra|
      && nodes[n].rhs - nodes[n].lhs == |fs|
      && forall m :: 0 <= m < |fs| ==> FileAt(ts, extra, nodes[n].lhs + m, fs[m])
  }

  ghost predicate FileAt(ts: seq<Token>, extra: seq<nat>, p: nat, f: string) {
    p < |extra| && extra[p] < |ts| && ts[extra[p]].lexeme == f
  }

  /** The node with index n, with all below it, is the tree c. */
  ghost predicate At(ts: seq<Token>, nodes: seq<Node>, extra: seq<nat>, n: nat, c: Cmd)
    decreases c
  {
    && 0 < n < |nodes|
    && var d := nodes[n];
    match c
    case Exec(words) =>
      && words != [] && d.tag == (if words[0].tag == Cd then NBuiltin else NExec)
      && d.lhs <= d.rhs <= |ts| && ts[d.lhs..d.rhs] == words
    case Back(e) => d.tag == NBack && At(ts, nodes, extra, d.lhs, e)
    case Piped(a, b) => d.tag == NPipe && At(ts, nodes, extra, d.lhs, a) && At(ts, nodes, extra, d.rhs, b)
    case List(cs) =>
      && d.tag == NList && d.lhs <= d.rhs <= |extra| && d.rhs - d.lhs == |cs|
      && forall k :: 0 <= k < |cs| ==> At(ts, nodes, extra, extra[d.lhs + k], cs[k])
    case Redir(e, files, piped) =>
      && d.tag == (if piped then NRedirPipe else NRedir) && At(ts, nodes, extra, d.lhs, e)
      && d.rhs + KINDS <= |extra| && |files| == KINDS
      && forall t :: 0 <= t < KINDS ==> FilesAt(ts, nodes, extra, extra[d.rhs + t], files[t])
  }

  /** Nodes and lists that are there keep their meaning when more are added. */
  lemma {:induction false} AtStays(ts: seq<Token>, nodes: seq<Node>, extra: seq<nat>, nodes': seq<Node>,
                                   extra': seq<nat>, n: nat, c: Cmd)
    requires At(ts, nodes, extra, n, c) && nodes <= nodes' && extra <= extra'
    ensures At(ts, nodes', extra', n, c)
    decreases c
  {
    var d := nodes[n];
    match c
    case Exec(_) =>
    case Back(e) => AtStays(ts, nodes, extra, nodes', extra', d.lhs, e);
    case Piped(a, b) =>
      AtStays(ts, nodes, extra, nodes', extra', d.lhs, a);
      AtStays(ts, nodes, extra, nodes', extra', d.rhs, b);
    case List(cs) =>
      forall k | 0 <= k < |cs|
        ensures At(ts, nodes', extra', extra'[d.lhs + k], cs[k])
      {
        assert At(ts, nodes, extra, extra[d.lhs + k], cs[k]);
        AtStays(ts, nodes, extra, nodes', extra', extra[d.lhs + k], cs[k]);
      }
    case Redir(e, files, _) =>
      AtStays(ts, nodes, extra, nodes', extra', d.lhs, e);
      forall t | 0 <= t < KINDS
        ensures FilesAt(ts, nodes', extra', extra'[d.rhs + t], files[t])
      {
        FilesStay(ts, nodes, extra, nodes', extra', extra[d.rhs + t], files[t]);
      }
  }

  /** At, kept behind a quantifier */
  ghost predicate Holds(ts: seq<Token>, nodes: seq<Node>, extra: seq<nat>, n: nat, c: Cmd) {
    forall d :: d == c ==> At(ts, nodes, extra, n, d)
  }

  lemma HoldsStays(ts: seq<Token>, nodes: seq<Node>, extra: seq<nat>, nodes': seq<Node>, extra': seq<nat>, n: nat,
                   c: Cmd)
    requires Holds(ts, nodes, extra, n, c) && nodes <= nodes' && extra <= extra'
    ensures Holds(ts, nodes', extra', n, c)
  {
    assert At(ts, nodes, extra, n, c);
    AtStays(ts, nodes, extra, nodes', extra', n, c);
  }

  lemma FilesStay(ts: seq<Token>, nodes: seq<Node>, extra: seq<nat>, nodes': seq<Node>, extra': seq<nat>, n: nat,
                  fs: seq<string>)
    requires FilesAt(ts, nodes, extra, n, fs) && nodes <= nodes' && extra <= extra'
    ensures FilesAt(ts, nodes', extra', n, fs)
  {
    if fs != [] {
      forall m | 0 <= m < |fs|
        ensures FileAt(ts, extra', nodes'[n].lhs + m, fs[m])
      {
        assert FileAt(ts, extra, nodes[n].lhs + m, fs[m]);
      }
    }
  }

  /** The nodes listed by items are the trees cs. */
  ghost predicate AllAt(ts: seq<Token>, nodes: seq<Node>, extra: seq<nat>, items: seq<nat>, cs: seq<Cmd>) {
    |items| == |cs| && forall k :: 0 <= k < |cs| ==> At(ts, nodes, extra, items[k], cs[k])
  }

  lemma AllStay(ts: seq<Token>, nodes: seq<Node>, extra: seq<nat>, nodes': seq<Node>, extra': seq<nat>,
                items: seq<nat>, cs: seq<Cmd>)
    requires AllAt(ts, nodes, extra, items, cs) && nodes <= nodes' && extra <= extra'
    ensures AllAt(ts, nodes', extra', items, cs)
  {
    forall k | 0 <= k < |cs|
      ensures At(ts, nodes', extra', items[k], cs[k])
    {
      AtStays(ts, nodes, extra, nodes', extra', items[k], cs[k]);
    }
  }

  lemma AllMore(ts: seq<Token>, nodes: seq<Node>, extra: seq<nat>, items: seq<nat>, cs: seq<Cmd>, n: nat, c: Cmd)
    requires AllAt(ts, nodes, extra, items, cs) && At(ts, nodes, extra, n, c)
    ensures AllAt(ts, nodes, extra, items + [n], cs + [c])
  {
  }

  /** The root, node 0, is in no tree, so it may be filled in last. */
  lemma {:induction false} AtWithRoot(ts: seq<Token>, nodes: seq<Node>, extra: seq<nat>, root: Node, n: nat, c: Cmd)
    requires At(ts, nodes, extra, n, c)
    ensures At(ts, nodes[0 := root], extra, n, c)
    decreases c
  {
    var d := nodes[n];
    match c
    case Exec(_) =>
    case Back(e) => AtWithRoot(ts, nodes, extra, root, d.lhs, e);
    case Piped(a, b) =>
      AtWithRoot(ts, nodes, extra, root, d.lhs, a);
      AtWithRoot(ts, nodes, extra, root, d.rhs, b);
    case List(cs) =>
      forall k | 0 <= k < |cs|
        ensures At(ts, nodes[0 := root], extra, extra[d.lhs + k], cs[k])
      {
        assert At(ts, nodes, extra, extra[d.lhs + k], cs[k]);
        AtWithRoot(ts, nodes, extra, root, extra[d.lhs + k], cs[k]);
      }
    case Redir(e, files, _) =>
      AtWithRoot(ts, nodes, extra, root, d.lhs, e);
      forall t | 0 <= t < KINDS
        ensures FilesAt(ts, nodes[0 := root], extra, extra[d.rhs + t], files[t])
      {
        assert FilesAt(ts, nodes, extra, extra[d.rhs + t], files[t]);
      }
  }

  /** The root stands for the commands cs. */
  ghost predicate RootAt(ts: seq<Token>, nodes: seq<Node>, extra: seq<nat>, cs: seq<Cmd>) {
    && |nodes| > 0 && nodes[0].tag == NList && nodes[0].lhs <= nodes[0].rhs <= |extra|
    && AllAt(ts, nodes, extra, extra[nodes[0].lhs..nodes[0].rhs], cs)
  }
}

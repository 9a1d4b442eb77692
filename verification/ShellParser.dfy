/**
 The parser of user/shell/Parser.zig, which builds the flat form of trees in shared,
 growing arrays: what it accepts, and the tree it builds, are those of ShellSyntax.
 */
module ShellParser {
  import opened Common
  import opened ShellSyntax
  import opened ShellNodes
  import opened ShellFiles

  class Parser {
    const ts: seq<Token>
    var tokI: nat
    var nodes: seq<Node>
    var extra: seq<nat>
    var scratch: seq<nat>

    ghost predicate Valid()
      reads this
    {
      Input(ts) && tokI < |ts| && |nodes| > 0
    }

    constructor (tokens: seq<Token>)
      requires Input(tokens)
      ensures Valid() && ts == tokens && tokI == 0 && |nodes| == 1 && extra == [] && scratch == []
    {
      ts, tokI := tokens, 0;
      nodes, extra, scratch := [Node(NList, 0, 0)], [], [];   // the root is node 0
    }

    /** Nodes and lists were only added. */
    twostate predicate Grew()
      reads this
    {
      old(nodes) <= nodes && old(extra) <= extra && scratch == old(scratch)
    }

    /** The parse went as r says, and built its tree as node n. */
    ghost predicate Built(r: Parsed<Cmd>, ok: bool, n: nat)
      reads this
    {
      ok == r.Ok? && (ok ==> tokI == r.end && forall c :: c == r.tree ==> At(ts, nodes, extra, n, c))
    }

    method AddNode(d: Node) returns (n: nat)
      modifies this`nodes
      ensures n == |old(nodes)| && nodes == old(nodes) + [d]
    {
      n := |nodes|;
      nodes := nodes + [d];
    }

    /** listToSpan: the items go to the end of extra_data. */
    method ListToSpan(items: seq<nat>) returns (start: nat, end: nat)
      modifies this`extra
      ensures extra == old(extra) + items && start == |old(extra)| && end == |extra|
    {
      extra := extra + items;
      start, end := |extra| - |items|, |extra|;
    }

    /** parseFiles' loop: the files' tokens go onto scratch. */
    method CollectFiles() returns (ok: bool)
      requires Valid()
      modifies this`tokI, this`scratch
      ensures Valid() && ok == FilesEnd(ts, old(tokI)).Some? && old(scratch) <= scratch
      ensures ok ==> tokI == FilesEnd(ts, old(tokI)).value && scratch == old(scratch) + FileTokens(old(tokI), tokI)
    {
      ghost var i := tokI;
      while IsRedir(ts[tokI].tag)
        invariant Valid() && i <= tokI && (tokI - i) % 2 == 0
        invariant FilesEnd(ts, i) == FilesEnd(ts, tokI)
        invariant scratch == old(scratch) + FileTokens(i, tokI)
        decreases |ts| - tokI
      {
        tokI := tokI + 1;
        if ts[tokI].tag != Str {
          return false;
        }
        FileTokensMore(i, tokI - 1);
        scratch := scratch + [tokI];
        tokI := tokI + 1;
      }
      ok := true;
    }

    /** parseFiles: the files' tokens, sorted by kind, go to the end of extra_data. */
    method ParseFiles() returns (ok: bool, start: nat, end: nat, ghost sorted: seq<nat>)
      requires Valid()
      modifies this`tokI, this`extra, this`scratch
      ensures Valid() && scratch == old(scratch) && ok == FilesEnd(ts, old(tokI)).Some?
      ensures ok ==> tokI == FilesEnd(ts, old(tokI)).value && Stable(ts, sorted, FileTokens(old(tokI), tokI))
      ensures ok ==> extra == old(extra) + sorted && start <= end && end - start == |sorted|
      ensures ok && sorted != [] ==> start == |old(extra)| && end == |extra|
      ensures !ok ==> extra == old(extra)
    {
      var top := |scratch|;
      sorted, start, end := [], 0, 0;
      ok := CollectFiles();
      var items := scratch[top..];
      scratch := scratch[..top];
      if ok {
        FilesEndIs(ts, old(tokI));
        FileTokensAre(ts, old(tokI), tokI);
        var r := Sort(ts, items);
        sorted := r;
        if |items| > 0 {
          start, end := ListToSpan(r);
        }
      }
    }

    /** The end of the run of files of kind t that begins at position from of extra_data */
    method KindEnd(t: nat, from: nat, end: nat) returns (to: nat)
      requires from <= end <= |extra| && forall p :: from <= p < end ==> IsFile(ts, extra[p])
      ensures from <= to <= end && forall p :: from <= p < to ==> KindOf(ts, extra[p]) == t
      ensures to < end ==> KindOf(ts, extra[to]) != t
    {
      to := from;
      while to < end && KindOf(ts, extra[to]) == t
        invariant from <= to <= end && forall p :: from <= p < to ==> KindOf(ts, extra[p]) == t
      {
        to := to + 1;
      }
    }

    /** A node for the files of kind t, if there are any */
    method KindNode(t: nat, start: nat, at: nat, end: nat, ghost sorted: seq<nat>) returns (n: nat, to: nat)
      requires |nodes| > 0 && start <= at <= end == |extra| && extra[start..] == sorted && AllFile(ts, sorted)
      requires SortedByKind(ts, sorted)
      requires forall k :: 0 <= k < at - start ==> KindOf(ts, sorted[k]) < t
      requires forall k :: at - start <= k < |sorted| ==> KindOf(ts, sorted[k]) >= t
      modifies this`nodes
      ensures old(nodes) <= nodes && at <= to <= end
      ensures forall k :: 0 <= k < to - start ==> KindOf(ts, sorted[k]) < t + 1
      ensures forall k :: to - start <= k < |sorted| ==> KindOf(ts, sorted[k]) >= t + 1
      ensures FilesAt(ts, nodes, extra, n, Lexemes(ts, OfKind(ts, sorted, t)))
    {
      assert forall p :: start <= p < end ==> extra[p] == sorted[p - start];
      to := KindEnd(t, at, end);
      KindRange(ts, sorted, at - start, to - start, t);
      n := 0;
      if to > at {
        n := AddNode(Node(NFiles, at, to));
      }
      RangeFiles(ts, nodes, extra, start, at, to, sorted, n);
    }

    /** parseRedir's loop over the kinds: five nodes, or 0 where there are no files of a kind */
    method KindNodes(start: nat, end: nat, ghost sorted: seq<nat>)
      requires |nodes| > 0 && start <= end == |extra| && extra[start..] == sorted && AllFile(ts, sorted)
      requires SortedByKind(ts, sorted)
      modifies this`nodes, this`scratch
      ensures old(nodes) <= nodes && |scratch| == |old(scratch)| + KINDS && old(scratch) <= scratch
      ensures forall t :: 0 <= t < KINDS ==>
              FilesAt(ts, nodes, extra, scratch[|old(scratch)| + t], Lexemes(ts, OfKind(ts, sorted, t)))
    {
      var at := start;
      ghost var top := |scratch|;
      for t := 0 to KINDS
        invariant |nodes| > 0 && old(nodes) <= nodes && |scratch| == top + t && old(scratch) <= scratch
        invariant start <= at <= end
        invariant forall k :: 0 <= k < at - start ==> KindOf(ts, sorted[k]) < t
        invariant forall k :: at - start <= k < |sorted| ==> KindOf(ts, sorted[k]) >= t
        invariant forall u :: 0 <= u < t ==>
                  FilesAt(ts, nodes, extra, scratch[top + u], Lexemes(ts, OfKind(ts, sorted, u)))
      {
        ghost var was := nodes;
        var n;
        n, at := KindNode(t, start, at, end, sorted);
        forall u | 0 <= u < t
          ensures FilesAt(ts, nodes, extra, scratch[top + u], Lexemes(ts, OfKind(ts, sorted, u)))
        {
          FilesStay(ts, was, extra, nodes, extra, scratch[top + u], Lexemes(ts, OfKind(ts, sorted, u)));
        }
        scratch := scratch + [n];
      }
    }

    // ---------- The recursive descent ----------

    method ParseExec() returns (ok: bool, n: nat)
      requires Valid()
      modifies this
      ensures Valid() && Grew() && Built(ParseCommand(ts, old(tokI)), ok, n)
      decreases |ts| - tokI, 0
    {
      n := 0;
      if ts[tokI].tag == LParen {
        tokI := tokI + 1;
        ok, n := ParseBlock();
        return;
      }
      if !IsWord(ts[tokI].tag) {
        return false, 0;
      }
      var start := tokI;
      tokI := tokI + 1;
      while IsWord(ts[tokI].tag)
        invariant start < tokI && Valid() && Grew() && nodes == old(nodes) && extra == old(extra)
        invariant WordsEnd(ts, start + 1) == WordsEnd(ts, tokI)
        decreases |ts| - tokI
      {
        tokI := tokI + 1;
      }
      n := AddNode(Node(if ts[start].tag == Cd then NBuiltin else NExec, start, tokI));
      ok := true;
    }

    /** After "(": a commandline and ")" */
    method ParseBlock() returns (ok: bool, n: nat)
      requires Valid() && tokI > 0 && ts[tokI - 1].tag == LParen
      modifies this
      ensures Valid() && Grew() && Built(ParseCommand(ts, old(tokI) - 1), ok, n)
      decreases |ts| - tokI, 7
    {
      ok, n := ParseCmdLine();
      if ok {
        if ts[tokI].tag != RParen {
          return false, n;
        }
        tokI := tokI + 1;
      }
    }

    method ParseCmdLine() returns (ok: bool, n: nat)
      requires Valid()
      modifies this
      ensures Valid() && Grew() && Built(ParseLine(ts, old(tokI)), ok, n)
      decreases |ts| - tokI, 6
    {
      var start, end;
      ghost var cs;
      n := 0;
      ok, start, end, cs := ParseItems();
      if ok {
        if end == start {
          return false, 0;
        }
        if end - start == 1 {
          n := extra[|extra| - 1];
          ghost var was := extra;
          extra := extra[..|extra| - 1];
          assert At(ts, nodes, was[..start], was[start], cs[0]);
          assert extra == was[..start];
        } else {
          ListNode(start, end, cs);
          n := AddNode(Node(NList, start, end));
        }
      }
    }

    /** A list node for the range just added */
    lemma ListNode(start: nat, end: nat, cs: seq<Cmd>)
      requires start <= end == |extra| && |nodes| > 0 && AllAt(ts, nodes, extra[..start], extra[start..], cs)
      ensures At(ts, nodes + [Node(NList, start, end)], extra, |nodes|, List(cs))
    {
      var nodes' := nodes + [Node(NList, start, end)];
      forall k | 0 <= k < |cs|
        ensures At(ts, nodes', extra, extra[start + k], cs[k])
      {
        assert At(ts, nodes, extra[..start], extra[start..][k], cs[k]);
        AtStays(ts, nodes, extra[..start], nodes', extra, extra[start + k], cs[k]);
      }
    }

    /** parseList */
    method ParseItems() returns (ok: bool, start: nat, end: nat, ghost cs: seq<Cmd>)
      requires Valid()
      modifies this
      ensures Valid() && Grew() && ok == ParseList(ts, old(tokI)).Ok?
      ensures ok ==> tokI == ParseList(ts, old(tokI)).end && cs == ParseList(ts, old(tokI)).tree
      ensures ok ==>
                start <= end == |extra| && |old(extra)| <= start && AllAt(ts, nodes, extra[..start], extra[start..], cs)
      decreases |ts| - tokI, 5
    {
      var top := |scratch|;
      start, end := 0, 0;
      ok, cs := ListLoop();
      var items := scratch[top..];
      scratch := scratch[..top];
      if ok {
        start, end := ListToSpan(items);
        assert extra[start..] == items;
      }
    }

    /** parseList's loop: the items' nodes go onto scratch. */
    method ListLoop() returns (ok: bool, ghost cs: seq<Cmd>)
      requires Valid()
      modifies this
      ensures Valid() && old(nodes) <= nodes && old(extra) <= extra && old(scratch) <= scratch
      ensures ok == ParseList(ts, old(tokI)).Ok?
      ensures ok ==> tokI == ParseList(ts, old(tokI)).end && cs == ParseList(ts, old(tokI)).tree
      ensures ok ==> AllAt(ts, nodes, extra, scratch[|old(scratch)|..], cs)
      decreases |ts| - tokI, 4
    {
      ghost var whole, top := ParseList(ts, tokI), |scratch|;
      cs := [];
      NothingYet(whole, ts, tokI);
      var more := true;
      while more
        invariant Valid() && old(nodes) <= nodes && old(extra) <= extra && old(scratch) <= scratch && old(tokI) <= tokI
        invariant AllAt(ts, nodes, extra, scratch[top..], cs)
        invariant if more then Remains(whole, cs, ts, tokI) else whole == Ok(cs, tokI)
        decreases more, |ts| - tokI
      {
        ok, more, cs := ListRound(whole, top, cs);
        if !ok {
          return;
        }
      }
      ok := true;
    }

    /** One round of parseList's loop */
    method ListRound(ghost whole: Parsed<seq<Cmd>>, ghost top: nat, ghost cs: seq<Cmd>)
      returns (ok: bool, more: bool, ghost cs': seq<Cmd>)
      requires Valid() && top <= |scratch| && AllAt(ts, nodes, extra, scratch[top..], cs)
      requires Remains(whole, cs, ts, tokI)
      modifies this
      ensures Valid() && old(nodes) <= nodes && old(extra) <= extra && old(scratch) <= scratch
      ensures !ok ==> whole == Fail
      ensures ok ==> old(tokI) <= tokI && AllAt(ts, nodes, extra, scratch[top..], cs')
      ensures ok && more ==> old(tokI) < tokI && Remains(whole, cs', ts, tokI)
      ensures ok && !more ==> whole == Ok(cs', tokI)
      decreases |ts| - tokI, 3
    {
      ok, more, cs' := true, false, cs;
      if Closes(ts[tokI].tag) {
        RoundStops(whole, cs, ts, tokI);
        return;
      }
      ghost var j, nodes1, extra1 := tokI, nodes, extra;
      var n;
      ok, n := ParsePipe();
      ghost var p := ParsePipeline(ts, j);
      RoundEnds(whole, cs, ts, j, p);
      if ok {
        AllStay(ts, nodes1, extra1, nodes, extra, scratch[top..], cs);
        more, cs' := AfterPipe(whole, j, p, n, top, cs);
      }
    }

    /** The rest of a round, after the pipeline p that began at j */
    method AfterPipe(ghost whole: Parsed<seq<Cmd>>, ghost j: nat, ghost p: Parsed<Cmd>, n: nat, ghost top: nat,
                     ghost cs: seq<Cmd>) returns (more: bool, ghost cs': seq<Cmd>)
      requires Valid() && top <= |scratch| && AllAt(ts, nodes, extra, scratch[top..], cs)
      requires p.Ok? && tokI == p.end && Holds(ts, nodes, extra, n, p.tree) && j < tokI
      requires !Closes(ts[j].tag) && Remains(whole, cs, ts, j) && PipedFrom(ts, j, p) && Round(whole, cs, ts, p)
      modifies this`tokI, this`nodes, this`scratch
      ensures Valid() && old(nodes) <= nodes && old(scratch) <= scratch && old(tokI) <= tokI
      ensures AllAt(ts, nodes, extra, scratch[top..], cs')
      ensures if more then Remains(whole, cs', ts, tokI) else whole == Ok(cs', tokI)
    {
      more, cs' := Separator(n, p.tree, top, cs);
      if more {
        RoundGoesOn(whole, cs, ts, j, p, cs'[|cs|], cs');
      }
    }

    /** What follows a pipeline in a list decides whether it is an item, and whether the list goes on. */
    method Separator(n: nat, ghost c: Cmd, ghost top: nat, ghost cs: seq<Cmd>) returns (more: bool, ghost cs': seq<Cmd>)
      requires Valid() && top <= |scratch| && AllAt(ts, nodes, extra, scratch[top..], cs)
      requires forall d :: d == c ==> At(ts, nodes, extra, n, d)
      modifies this`tokI, this`nodes, this`scratch
      ensures Valid() && old(nodes) <= nodes && old(scratch) <= scratch && AllAt(ts, nodes, extra, scratch[top..], cs')
      ensures more <==> ts[old(tokI)].tag == Semi || ts[old(tokI)].tag == Amp
      ensures tokI == if more then old(tokI) + 1 else old(tokI)
      ensures cs' == if Closes(ts[old(tokI)].tag) || ts[old(tokI)].tag == Semi then cs + [c]
                     else if ts[old(tokI)].tag == Amp then cs + [Back(c)] else cs
    {
      more, cs' := false, cs;
      if Closes(ts[tokI].tag) {
        cs' := Append(n, c, top, cs);
      } else if ts[tokI].tag == Semi {
        cs' := Append(n, c, top, cs);
        tokI, more := tokI + 1, true;
      } else if ts[tokI].tag == Amp {
        var m := BackNode(n, c, top, cs);
        cs' := Append(m, Back(c), top, cs);
        tokI, more := tokI + 1, true;
      }
    }

    method Append(n: nat, ghost c: Cmd, ghost top: nat, ghost cs: seq<Cmd>) returns (ghost cs': seq<Cmd>)
      requires top <= |scratch| && AllAt(ts, nodes, extra, scratch[top..], cs)
      requires forall d :: d == c ==> At(ts, nodes, extra, n, d)
      modifies this`scratch
      ensures old(scratch) <= scratch && AllAt(ts, nodes, extra, scratch[top..], cs') && cs' == cs + [c]
    {
      assert At(ts, nodes, extra, n, c);
      AllMore(ts, nodes, extra, scratch[top..], cs, n, c);
      assert (scratch + [n])[top..] == scratch[top..] + [n];
      scratch := scratch + [n];
      cs' := cs + [c];
    }

    method BackNode(m: nat, ghost c: Cmd, ghost top: nat, ghost cs: seq<Cmd>) returns (n: nat)
      requires |nodes| > 0 && top <= |scratch| && AllAt(ts, nodes, extra, scratch[top..], cs)
      requires forall d :: d == c ==> At(ts, nodes, extra, m, d)
      modifies this`nodes
      ensures old(nodes) <= nodes && AllAt(ts, nodes, extra, scratch[top..], cs)
      ensures forall d :: d == Back(c) ==> At(ts, nodes, extra, n, d)
    {
      assert At(ts, nodes, extra, m, c);
      n := AddNode(Node(NBack, m, 0));
      AllStay(ts, old(nodes), extra, nodes, extra, scratch[top..], cs);
      AtStays(ts, old(nodes), extra, nodes, extra, m, c);
    }

    method ParsePipe() returns (ok: bool, n: nat)
      requires Valid()
      modifies this
      ensures Valid() && Grew() && Built(ParsePipeline(ts, old(tokI)), ok, n)
      decreases |ts| - tokI, 2
    {
      ghost var i := tokI;
      ok, n := ParseRedir();
      if ok && ts[tokI].tag == Bar {
        tokI := tokI + 1;
        ok, n := ParseRight(n, ParseRedirection(ts, i).tree);
      }
    }

    /** The rest of a pipeline, after "|" */
    method ParseRight(left: nat, ghost a: Cmd) returns (ok: bool, n: nat)
      requires Valid() && forall c :: c == a ==> At(ts, nodes, extra, left, c)
      modifies this
      ensures Valid() && Grew() && ok == ParsePipeline(ts, old(tokI)).Ok?
      ensures ok ==> tokI == ParsePipeline(ts, old(tokI)).end
      ensures ok ==> forall c :: c == Piped(a, ParsePipeline(ts, old(tokI)).tree) ==> At(ts, nodes, extra, n, c)
      decreases |ts| - tokI, 3
    {
      ghost var i, nodes1, extra1 := tokI, nodes, extra;
      var m;
      n := 0;
      ok, m := ParsePipe();
      if ok {
        HoldsStays(ts, nodes1, extra1, nodes, extra, left, a);
        n := PipeNode(left, m, a, ParsePipeline(ts, i).tree);
      }
    }

    method PipeNode(l: nat, r: nat, ghost a: Cmd, ghost b: Cmd) returns (n: nat)
      requires |nodes| > 0 && Holds(ts, nodes, extra, l, a) && Holds(ts, nodes, extra, r, b)
      modifies this`nodes
      ensures old(nodes) <= nodes && At(ts, nodes, extra, n, Piped(a, b))
    {
      n := AddNode(Node(NPipe, l, r));
      HoldsStays(ts, old(nodes), extra, nodes, extra, l, a);
      HoldsStays(ts, old(nodes), extra, nodes, extra, r, b);
      assert At(ts, nodes, extra, l, a) && At(ts, nodes, extra, r, b);
    }

    method ParseRedir() returns (ok: bool, n: nat)
      requires Valid()
      modifies this
      ensures Valid() && Grew() && Built(ParseRedirection(ts, old(tokI)), ok, n)
      decreases |ts| - tokI, 1
    {
      ghost var tokI0 := tokI;
      ok, n := ParseExec();
      if ok {
        ghost var c, nodes1, extra1 := ParseCommand(ts, tokI0), nodes, extra;
        var start, end;
        ghost var sorted;
        ok, start, end, sorted := ParseFiles();
        if ok {
          HoldsStays(ts, nodes1, extra1, nodes, extra, n, c.tree);
          FilesEndIs(ts, c.end);
          if end == start {
            NoFileTokens(ts, c.end, tokI);
          } else {
            assert extra[start..] == sorted;
            n := RedirNode(n, start, end, c.tree, c.end, sorted);
          }
        }
      }
    }

    /** The node of a redirection whose files, sorted, are at the end of extra_data */
    method RedirNode(exec: nat, start: nat, end: nat, ghost c: Cmd, ghost k: nat, ghost sorted: seq<nat>)
      returns (n: nat)
      requires Valid() && Holds(ts, nodes, extra, exec, c) && k <= tokI && Redirections(ts[k..tokI])
      requires start <= end == |extra| && extra[start..] == sorted && Stable(ts, sorted, FileTokens(k, tokI))
      modifies this`nodes, this`extra, this`scratch
      ensures Valid() && Grew()
      ensures Holds(ts, nodes, extra, n, Redir(c, FileLists(ts[k..tokI]), ts[tokI].tag == Bar))
    {
      var top := |scratch|;
      KindNodes(start, end, sorted);
      var items := scratch[top..];
      scratch := scratch[..top];
      ghost var nodes1, extra1 := nodes, extra;
      var rs, re := ListToSpan(items);
      n := AddNode(Node(if ts[tokI].tag == Bar then NRedirPipe else NRedir, exec, rs));
      HoldsStays(ts, old(nodes), old(extra), nodes, extra, exec, c);
      ghost var files := FileLists(ts[k..tokI]);
      forall t | 0 <= t < KINDS
        ensures FilesAt(ts, nodes, extra, extra[rs + t], files[t])
      {
        SortedNames(ts, k, tokI, sorted, t);
        FilesStay(ts, nodes1, extra1, nodes, extra, items[t], files[t]);
      }
      RedirHolds(ts, nodes, extra, n, exec, rs, c, files, ts[tokI].tag == Bar);
    }

    /**
     parseRoot on a fresh parser.  An empty list is a parse error, and input left over
     after the list fails an assertion; everything else is accepted.
     */
    method ParseRoot() returns (accepted: bool)
      requires Valid() && tokI == 0
      modifies this
      ensures accepted == Parse(ts).Some?
      ensures accepted ==> RootAt(ts, nodes, extra, Parse(ts).value)
    {
      var ok, start, end;
      ghost var cs;
      ok, start, end, cs := ParseItems();
      accepted := ok && end != start && ts[tokI].tag == Eof;
      if accepted {
        FillRoot(start, end, cs);
      }
    }

    method FillRoot(start: nat, end: nat, ghost cs: seq<Cmd>)
      requires Valid() && start <= end == |extra| && AllAt(ts, nodes, extra[..start], extra[start..], cs)
      modifies this`nodes
      ensures RootAt(ts, nodes, extra, cs)
    {
      ghost var was, root := nodes, Node(NList, start, end);
      AllStay(ts, nodes, extra[..start], nodes, extra, extra[start..], cs);
      nodes := nodes[0 := Node(NList, start, end)];
      forall k | 0 <= k < |cs|
        ensures At(ts, nodes, extra, extra[start..][k], cs[k])
      {
        AtWithRoot(ts, was, extra, root, extra[start..][k], cs[k]);
      }
      assert extra[start..end] == extra[start..];
    }
  }

  /** The whole list is what was collected so far and then the rest. */
  ghost predicate Continues(whole: Parsed<seq<Cmd>>, cs: seq<Cmd>, rest: Parsed<seq<Cmd>>) {
    whole == if rest.Fail? then Fail else Ok(cs + rest.tree, rest.end)
  }

  /** What parseList still has to parse, from j on; behind a quantifier to keep ParseList folded */
  ghost predicate Remains(whole: Parsed<seq<Cmd>>, cs: seq<Cmd>, ts: seq<Token>, j: nat) {
    forall us :: us == ts ==> RemainsIn(whole, cs, us, j)
  }

  ghost predicate RemainsIn(whole: Parsed<seq<Cmd>>, cs: seq<Cmd>, ts: seq<Token>, j: nat) {
    j < |ts| && Input(ts) && Continues(whole, cs, ParseList(ts, j))
  }

  lemma NothingYet(whole: Parsed<seq<Cmd>>, ts: seq<Token>, j: nat)
    requires j < |ts| && Input(ts) && whole == ParseList(ts, j)
    ensures Remains(whole, [], ts, j)
  {
    if whole.Ok? {
      assert [] + whole.tree == whole.tree;
    }
  }

  lemma OneMore(whole: Parsed<seq<Cmd>>, cs: seq<Cmd>, d: Cmd, rest: Parsed<seq<Cmd>>)
    requires Continues(whole, cs, if rest.Fail? then Fail else Ok([d] + rest.tree, rest.end))
    ensures Continues(whole, cs + [d], rest)
  {
    if rest.Ok? {
      assert cs + ([d] + rest.tree) == cs + [d] + rest.tree;
    }
  }

  /** What the pipeline p makes of the round that parsed it */
  ghost predicate Round(whole: Parsed<seq<Cmd>>, cs: seq<Cmd>, ts: seq<Token>, p: Parsed<Cmd>) {
    && (p.Fail? ==> whole == Fail)
    && (p.Ok? ==> p.end < |ts|)
    && (p.Ok? && Closes(ts[p.end].tag) ==> whole == Ok(cs + [p.tree], p.end))
    && (p.Ok? && !Closes(ts[p.end].tag) && ts[p.end].tag != Semi && ts[p.end].tag != Amp ==> whole == Ok(cs, p.end))
  }

  /** p is the pipeline at j; behind a quantifier to keep ParsePipeline folded */
  ghost predicate PipedFrom(ts: seq<Token>, j: nat, p: Parsed<Cmd>) {
    forall us :: us == ts ==> PipedIn(us, j, p)
  }

  ghost predicate PipedIn(ts: seq<Token>, j: nat, p: Parsed<Cmd>) {
    j < |ts| && Input(ts) && p == ParsePipeline(ts, j)
  }

  lemma RoundStops(whole: Parsed<seq<Cmd>>, cs: seq<Cmd>, ts: seq<Token>, j: nat)
    requires j < |ts| && Input(ts) && Closes(ts[j].tag) && Remains(whole, cs, ts, j)
    ensures whole == Ok(cs, j)
  {
    assert RemainsIn(whole, cs, ts, j);
    assert cs + [] == cs;
  }

  /** A round of parseList's loop that finds a separator */
  lemma RoundGoesOn(whole: Parsed<seq<Cmd>>, cs: seq<Cmd>, ts: seq<Token>, j: nat, p: Parsed<Cmd>, d: Cmd,
                    cs': seq<Cmd>)
    requires j < |ts| && Input(ts) && !Closes(ts[j].tag) && Remains(whole, cs, ts, j)
    requires PipedFrom(ts, j, p) && p.Ok? && p.end < |ts| && cs' == cs + [d]
    requires || (ts[p.end].tag == Semi && d == p.tree) || (ts[p.end].tag == Amp && d == Back(p.tree))
    ensures Remains(whole, cs', ts, p.end + 1)
  {
    var rest := Unfolds(whole, cs, ts, j, p, d);
    OneMore(whole, cs, d, rest);
    Folds(whole, cs', ts, p.end + 1, rest);
  }

  ghost predicate ParsedFrom(ts: seq<Token>, j: nat, rest: Parsed<seq<Cmd>>) {
    forall us :: us == ts ==> ParsedIn(us, j, rest)
  }

  ghost predicate ParsedIn(ts: seq<Token>, j: nat, rest: Parsed<seq<Cmd>>) {
    j < |ts| && Input(ts) && rest == ParseList(ts, j)
  }

  lemma Unfolds(whole: Parsed<seq<Cmd>>, cs: seq<Cmd>, ts: seq<Token>, j: nat, p: Parsed<Cmd>, d: Cmd)
    returns (rest: Parsed<seq<Cmd>>)
    requires j < |ts| && Input(ts) && !Closes(ts[j].tag) && Remains(whole, cs, ts, j)
    requires PipedFrom(ts, j, p) && p.Ok? && p.end < |ts|
    requires || (ts[p.end].tag == Semi && d == p.tree) || (ts[p.end].tag == Amp && d == Back(p.tree))
    ensures ParsedFrom(ts, p.end + 1, rest)
    ensures Continues(whole, cs, if rest.Fail? then Fail else Ok([d] + rest.tree, rest.end))
  {
    assert RemainsIn(whole, cs, ts, j) && PipedIn(ts, j, p);
    rest := ParseList(ts, p.end + 1);
    ListUnfold(ts, j, d);
  }

  lemma Folds(whole: Parsed<seq<Cmd>>, cs: seq<Cmd>, ts: seq<Token>, j: nat, rest: Parsed<seq<Cmd>>)
    requires ParsedFrom(ts, j, rest) && Continues(whole, cs, rest)
    ensures Remains(whole, cs, ts, j)
  {
    assert ParsedIn(ts, j, rest);
  }

  lemma ListUnfold(ts: seq<Token>, j: nat, d: Cmd)
    requires j < |ts| && Input(ts) && !Closes(ts[j].tag) && ParsePipeline(ts, j).Ok?
    requires var p := ParsePipeline(ts, j);
             || (ts[p.end].tag == Semi && d == p.tree) || (ts[p.end].tag == Amp && d == Back(p.tree))
    ensures var rest := ParseList(ts, ParsePipeline(ts, j).end + 1);
            ParseList(ts, j) == if rest.Fail? then Fail else Ok([d] + rest.tree, rest.end)
  {
  }

  /** The node of a range of files holds their names. */
  lemma RangeFiles(ts: seq<Token>, nodes: seq<Node>, extra: seq<nat>, start: nat, at: nat, to: nat,
                   sorted: seq<nat>, n: nat)
    requires start <= at <= to <= |extra| && extra[start..] == sorted && AllFile(ts, sorted)
    requires if at == to then n == 0 else 0 < n < |nodes| && nodes[n] == Node(NFiles, at, to)
    ensures FilesAt(ts, nodes, extra, n, Lexemes(ts, sorted[at - start..to - start]))
  {
    var fs := Lexemes(ts, sorted[at - start..to - start]);
    forall m | 0 <= m < |fs|
      ensures FileAt(ts, extra, at + m, fs[m])
    {
      assert extra[at + m] == sorted[at - start + m];
    }
  }

  lemma RedirHolds(ts: seq<Token>, nodes: seq<Node>, extra: seq<nat>, n: nat, exec: nat, rs: nat, c: Cmd,
                   files: seq<seq<string>>, piped: bool)
    requires 0 < n < |nodes| && nodes[n] == Node(if piped then NRedirPipe else NRedir, exec, rs)
    requires Holds(ts, nodes, extra, exec, c)
    requires rs + KINDS <= |extra| && |files| == KINDS && forall t :: 0 <= t < KINDS ==>
             FilesAt(ts, nodes, extra, extra[rs + t], files[t])
    ensures Holds(ts, nodes, extra, n, Redir(c, files, piped))
  {
    assert At(ts, nodes, extra, exec, c);
  }

  /** A round that ends the loop */
  lemma RoundEnds(whole: Parsed<seq<Cmd>>, cs: seq<Cmd>, ts: seq<Token>, j: nat, p: Parsed<Cmd>)
    requires j < |ts| && Input(ts) && !Closes(ts[j].tag) && Remains(whole, cs, ts, j) && p == ParsePipeline(ts, j)
    ensures Round(whole, cs, ts, p) && PipedFrom(ts, j, p)
  {
    assert RemainsIn(whole, cs, ts, j);
    assert cs + [] == cs;
  }
}

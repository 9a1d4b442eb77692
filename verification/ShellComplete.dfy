/** The parser of ShellSyntax finds every sentence of the grammar, so the grammar is unambiguous. */
module ShellComplete {
  import opened Common
  import opened ShellSyntax

  lemma Part(ts: seq<Token>, i: nat, j: nat, k: nat)
    requires i <= j <= |ts| && k <= j - i
    ensures ts[i..j][..k] == ts[i..i + k] && ts[i..j][k..] == ts[i + k..j]
  {
  }

  lemma {:induction false} WordsEndIs(ts: seq<Token>, i: nat, j: nat)
    requires i <= j < |ts| && Input(ts) && !IsWord(ts[j].tag) && forall k :: i <= k < j ==> IsWord(ts[k].tag)
    ensures WordsEnd(ts, i) == j
  {
  }

  lemma {:induction false} FilesEndComplete(ts: seq<Token>, i: nat, j: nat)
    requires i <= j < |ts| && Input(ts) && Redirections(ts[i..j]) && !IsRedir(ts[j].tag)
    ensures FilesEnd(ts, i) == Some(j)
    decreases j - i
  {
    if i < j {
      Part(ts, i, j, 2);
      assert ts[i..j][0] == ts[i] && ts[i..j][1] == ts[i + 1];
      FilesEndComplete(ts, i + 2, j);
    }
  }

  predicate Opens(t: Tag) {
    IsWord(t) || t == LParen
  }

  lemma CommandOpens(c: Cmd, s: seq<Token>)
    requires IsCommand(c, s)
    ensures s != [] && Opens(s[0].tag)
  {
  }

  lemma RedirectionOpens(c: Cmd, s: seq<Token>, piped: bool)
    requires IsRedirection(c, s, piped)
    ensures s != [] && Opens(s[0].tag)
  {
    if IsCommand(c, s) {
      CommandOpens(c, s);
    } else {
      var k :| 0 < k < |s| && RedirSplit(c, s, k);
      CommandOpens(c.cmd, s[..k]);
    }
  }

  lemma PipelineOpens(c: Cmd, s: seq<Token>)
    requires IsPipeline(c, s)
    ensures s != [] && Opens(s[0].tag)
  {
    if IsRedirection(c, s, false) {
      RedirectionOpens(c, s, false);
    } else {
      var k :| 0 < k < |s| && PipeSplit(c, s, k);
      RedirectionOpens(c.left, s[..k], true);
    }
  }

  lemma ItemOpens(c: Cmd, s: seq<Token>)
    requires IsItem(c, s)
    ensures |s| > 1 && Opens(s[0].tag)
  {
    PipelineOpens(if s[|s| - 1].tag == Semi then c else c.cmd, s[..|s| - 1]);
  }

  lemma ListOpens(cs: seq<Cmd>, s: seq<Token>)
    requires IsList(cs, s)
    ensures s != [] && Opens(s[0].tag)
  {
    if |cs| > 1 {
      var k :| 0 < k < |s| && ListSplit(cs, s, k);
      ItemOpens(cs[0], s[..k]);
    } else if IsPipeline(cs[0], s) {
      PipelineOpens(cs[0], s);
    } else {
      ItemOpens(cs[0], s);
    }
  }

  // ---------- Sentences in the input ----------

  // The grammar is behind quantifiers, so that a sentence is taken apart only where it is asserted.

  ghost predicate CommandAt(c: Cmd, ts: seq<Token>, i: nat, j: nat)
    requires i <= j <= |ts|
  {
    forall s :: s == ts[i..j] ==> IsCommand(c, s)
  }

  ghost predicate RedirectionAt(c: Cmd, ts: seq<Token>, i: nat, j: nat, piped: bool)
    requires i <= j <= |ts|
  {
    forall s :: s == ts[i..j] ==> IsRedirection(c, s, piped)
  }

  ghost predicate PipelineAt(c: Cmd, ts: seq<Token>, i: nat, j: nat)
    requires i <= j <= |ts|
  {
    forall s :: s == ts[i..j] ==> IsPipeline(c, s)
  }

  ghost predicate ListAt(cs: seq<Cmd>, ts: seq<Token>, i: nat, j: nat)
    requires i <= j <= |ts|
  {
    forall s :: s == ts[i..j] ==> IsList(cs, s)
  }

  ghost predicate LineAt(c: Cmd, ts: seq<Token>, i: nat, j: nat)
    requires i <= j <= |ts|
  {
    forall s :: s == ts[i..j] ==> IsLine(c, s)
  }

  lemma CommandParts(c: Cmd, ts: seq<Token>, i: nat, j: nat)
    requires i <= j <= |ts| && CommandAt(c, ts, i, j)
    ensures i < j && (ts[i].tag == LParen || IsWord(ts[i].tag))
    ensures ts[i].tag == LParen ==> i + 2 <= j && ts[j - 1].tag == RParen && LineAt(c, ts, i + 1, j - 1)
    ensures ts[i].tag != LParen ==> c == Exec(ts[i..j]) && forall k :: i <= k < j ==> IsWord(ts[k].tag)
  {
    var s := ts[i..j];
    assert IsCommand(c, s);
    CommandOpens(c, s);
    assert s[0] == ts[i] && s[|s| - 1] == ts[j - 1];
    if ts[i].tag == LParen {
      Inner(ts, i, j);
    } else {
      assert forall k :: i <= k < j ==> ts[k] == s[k - i];
    }
  }

  lemma Inner(ts: seq<Token>, i: nat, j: nat)
    requires i + 2 <= j <= |ts|
    ensures ts[i..j][1..|ts[i..j]| - 1] == ts[i + 1..j - 1]
  {
    var s := ts[i..j];
    var a, b := s[1..|s| - 1], ts[i + 1..j - 1];
    assert forall k :: 0 <= k < |a| ==> a[k] == s[k + 1] == ts[i + 1 + k] == b[k];
  }

  lemma RedirectionParts(c: Cmd, ts: seq<Token>, i: nat, j: nat, piped: bool) returns (bare: bool, m: nat)
    requires i <= j <= |ts| && RedirectionAt(c, ts, i, j, piped)
    ensures bare ==> CommandAt(c, ts, i, j)
    ensures !bare ==>
              c.Redir? && c.piped == piped && i < m < j && CommandAt(c.cmd, ts, i, m) && AllFiles(ts[m..j], c.files)
  {
    var s := ts[i..j];
    assert IsRedirection(c, s, piped);
    bare, m := IsCommand(c, s), i;
    if !bare {
      var k :| 0 < k < |s| && RedirSplit(c, s, k);
      Part(ts, i, j, k);
      m := i + k;
    }
  }

  lemma PipelineParts(c: Cmd, ts: seq<Token>, i: nat, j: nat) returns (one: bool, m: nat)
    requires i <= j <= |ts| && PipelineAt(c, ts, i, j)
    ensures one ==> RedirectionAt(c, ts, i, j, false)
    ensures !one ==>
              && c.Piped? && i < m < j && ts[m].tag == Bar && RedirectionAt(c.left, ts, i, m, true)
              && PipelineAt(c.right, ts, m + 1, j)
  {
    var s := ts[i..j];
    assert IsPipeline(c, s);
    one, m := IsRedirection(c, s, false), i;
    if !one {
      var k :| 0 < k < |s| && PipeSplit(c, s, k);
      Part(ts, i, j, k);
      Part(ts, i, j, k + 1);
      assert s[k] == ts[i + k];
      m := i + k;
    }
  }

  /** A list is a pipeline, or a pipeline with its separator and a list that may be empty. */
  lemma ListParts(cs: seq<Cmd>, ts: seq<Token>, i: nat, j: nat) returns (last: bool, c: Cmd, m: nat)
    requires i <= j <= |ts| && ListAt(cs, ts, i, j)
    ensures i < j && Opens(ts[i].tag)
    ensures last ==> cs == [c] && PipelineAt(c, ts, i, j)
    ensures !last ==> i < m < j && PipelineAt(c, ts, i, m) && (ts[m].tag == Semi || ts[m].tag == Amp)
    ensures !last ==> cs != [] && cs[0] == if ts[m].tag == Amp then Back(c) else c
    ensures !last ==> if |cs| == 1 then m == j - 1 else m < j - 1 && ListAt(cs[1..], ts, m + 1, j)
  {
    var s := ts[i..j];
    assert IsList(cs, s);
    ListOpens(cs, s);
    assert s[0] == ts[i];
    last, c, m := |cs| == 1 && IsPipeline(cs[0], s), cs[0], i;
    if |cs| > 1 {
      var k :| 0 < k < |s| && ListSplit(cs, s, k);
      Part(ts, i, j, k);
      c := ItemParts(cs[0], ts, i, i + k);
      m := i + k - 1;
    } else if !last {
      c := ItemParts(cs[0], ts, i, j);
      m := j - 1;
    }
  }

  lemma ItemParts(d: Cmd, ts: seq<Token>, i: nat, j: nat) returns (c: Cmd)
    requires i <= j <= |ts| && IsItem(d, ts[i..j])
    ensures i < j - 1 && (ts[j - 1].tag == Semi || ts[j - 1].tag == Amp)
    ensures PipelineAt(c, ts, i, j - 1) && d == if ts[j - 1].tag == Amp then Back(c) else c
  {
    var s := ts[i..j];
    ItemOpens(d, s);
    assert s[|s| - 1] == ts[j - 1];
    Part(ts, i, j, |s| - 1);
    c := if ts[j - 1].tag == Semi then d else d.cmd;
  }

  // ---------- Completeness ----------

  lemma {:induction false} CommandComplete(c: Cmd, ts: seq<Token>, i: nat, j: nat)
    requires i <= j < |ts| && Input(ts) && CommandAt(c, ts, i, j) && !IsWord(ts[j].tag)
    ensures ParseCommand(ts, i) == Ok(c, j)
    decreases j - i, 0
  {
    CommandParts(c, ts, i, j);
    if ts[i].tag == LParen {
      LineComplete(c, ts, i + 1, j - 1);
    } else {
      WordsEndIs(ts, i + 1, j);
    }
  }

  lemma {:induction false} RedirectionComplete(c: Cmd, ts: seq<Token>, i: nat, j: nat, piped: bool)
    requires i <= j < |ts| && Input(ts) && RedirectionAt(c, ts, i, j, piped)
    requires !IsWord(ts[j].tag) && !IsRedir(ts[j].tag) && piped == (ts[j].tag == Bar)
    ensures ParseRedirection(ts, i) == Ok(c, j)
    decreases j - i, 1
  {
    var bare, m := RedirectionParts(c, ts, i, j, piped);
    if bare {
      CommandComplete(c, ts, i, j);
    } else {
      SplitComplete(c, ts, i, m, j);
      CommandComplete(c.cmd, ts, i, m);
    }
  }

  lemma SplitComplete(c: Cmd, ts: seq<Token>, i: nat, k: nat, j: nat)
    requires i < k < j < |ts| && Input(ts) && c.Redir? && AllFiles(ts[k..j], c.files) && !IsRedir(ts[j].tag)
    ensures !IsWord(ts[k].tag) && IsRedir(ts[k].tag) && FilesEnd(ts, k) == Some(j) && FileLists(ts[k..j]) == c.files
  {
    assert ts[k..j][0] == ts[k];
    FilesEndComplete(ts, k, j);
    SameFiles(ts[k..j], c.files);
  }

  lemma SameFiles(s: seq<Token>, files: seq<seq<string>>)
    requires AllFiles(s, files)
    ensures FileLists(s) == files
  {
  }

  lemma {:induction false} PipelineComplete(c: Cmd, ts: seq<Token>, i: nat, j: nat)
    requires i <= j < |ts| && Input(ts) && PipelineAt(c, ts, i, j)
    requires !IsWord(ts[j].tag) && !IsRedir(ts[j].tag) && ts[j].tag != Bar
    ensures ParsePipeline(ts, i) == Ok(c, j)
    decreases j - i, 2
  {
    var one, m := PipelineParts(c, ts, i, j);
    if one {
      RedirectionComplete(c, ts, i, j, false);
    } else {
      RedirectionComplete(c.left, ts, i, m, true);
      PipelineComplete(c.right, ts, m + 1, j);
    }
  }

  lemma {:induction false} ListComplete(cs: seq<Cmd>, ts: seq<Token>, i: nat, j: nat)
    requires i <= j < |ts| && Input(ts) && ListAt(cs, ts, i, j) && Closes(ts[j].tag)
    ensures ParseList(ts, i) == Ok(cs, j)
    decreases j - i, 3
  {
    var last, c, m := ListParts(cs, ts, i, j);
    if last {
      PipelineComplete(c, ts, i, j);
      ListStops(ts, i, c, j);
    } else {
      PipelineComplete(c, ts, i, m);
      if |cs| > 1 {
        ListComplete(cs[1..], ts, m + 1, j);
      }
      ListGoesOn(ts, i, c, m, cs, j);
    }
  }

  lemma ListStops(ts: seq<Token>, i: nat, c: Cmd, j: nat)
    requires i < j < |ts| && Input(ts) && !Closes(ts[i].tag) && ParsePipeline(ts, i) == Ok(c, j) && Closes(ts[j].tag)
    ensures ParseList(ts, i) == Ok([c], j)
  {
  }

  lemma ListGoesOn(ts: seq<Token>, i: nat, c: Cmd, m: nat, cs: seq<Cmd>, j: nat)
    requires i < m < j < |ts| && Input(ts) && !Closes(ts[i].tag) && ParsePipeline(ts, i) == Ok(c, m) && cs != []
    requires (ts[m].tag == Semi || ts[m].tag == Amp) && cs[0] == if ts[m].tag == Amp then Back(c) else c
    requires if |cs| == 1 then m == j - 1 && Closes(ts[j].tag) else ParseList(ts, m + 1) == Ok(cs[1..], j)
    ensures ParseList(ts, i) == Ok(cs, j)
  {
    if |cs| == 1 {
      ListGoesTo(ts, i, c, m, [], j);
    } else {
      ListGoesTo(ts, i, c, m, cs[1..], j);
    }
    assert cs == [cs[0]] + cs[1..];
  }

  lemma ListGoesTo(ts: seq<Token>, i: nat, c: Cmd, m: nat, rest: seq<Cmd>, j: nat)
    requires i < m < j < |ts| && Input(ts) && !Closes(ts[i].tag) && ParsePipeline(ts, i) == Ok(c, m)
    requires (ts[m].tag == Semi || ts[m].tag == Amp) && ParseList(ts, m + 1) == Ok(rest, j)
    ensures ParseList(ts, i) == Ok([if ts[m].tag == Amp then Back(c) else c] + rest, j)
  {
  }

  lemma {:induction false} LineComplete(c: Cmd, ts: seq<Token>, i: nat, j: nat)
    requires i <= j < |ts| && Input(ts) && LineAt(c, ts, i, j) && Closes(ts[j].tag)
    ensures ParseLine(ts, i) == Ok(c, j)
    decreases j - i, 4
  {
    var cs := LineParts(c, ts, i, j);
    ListComplete(cs, ts, i, j);
  }

  lemma LineParts(c: Cmd, ts: seq<Token>, i: nat, j: nat) returns (cs: seq<Cmd>)
    requires i <= j <= |ts| && LineAt(c, ts, i, j)
    ensures ListAt(cs, ts, i, j) && cs != [] && c == if |cs| == 1 then cs[0] else List(cs)
  {
    assert IsLine(c, ts[i..j]);
    cs := if IsList([c], ts[i..j]) then [c] else c.cmds;
  }

  /** The parser accepts exactly the sentences of the grammar, with their trees. */
  lemma ParseExact(ts: seq<Token>, cs: seq<Cmd>)
    requires Input(ts)
    ensures Parse(ts) == Some(cs) <==> IsList(cs, ts[..|ts| - 1])
  {
    if Parse(ts) == Some(cs) {
      ParseSound(ts);
    }
    if IsList(cs, ts[..|ts| - 1]) {
      assert ts[0..|ts| - 1] == ts[..|ts| - 1];
      ListComplete(cs, ts, 0, |ts| - 1);
    }
  }

  /** No input is a sentence in two ways. */
  lemma Unambiguous(s: seq<Token>, cs: seq<Cmd>, ds: seq<Cmd>)
    requires IsList(cs, s) && IsList(ds, s) && forall k :: 0 <= k < |s| ==> s[k].tag != Eof
    ensures cs == ds
  {
    var ts := s + [END];
    assert ts[..|ts| - 1] == s;
    ParseExact(ts, cs);
    ParseExact(ts, ds);
  }
}

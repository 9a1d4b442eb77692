/** parseFiles and parseRedir of user/shell/Parser.zig: sorting redirections by kind and finding the ranges. */
module ShellFiles {
  import opened ShellSyntax

  /** x is the index of a file's token, which follows the redirection's. */
  predicate IsFile(ts: seq<Token>, x: nat) {
    0 < x < |ts| && IsRedir(ts[x - 1].tag)
  }

  function KindOf(ts: seq<Token>, x: nat): (k: nat)
    requires IsFile(ts, x)
    ensures k < KINDS
  {
    Kind(ts[x - 1].tag)
  }

  predicate AllFile(ts: seq<Token>, items: seq<nat>) {
    forall k :: 0 <= k < |items| ==> IsFile(ts, items[k])
  }

  /** The items of one kind, in order */
  function OfKind(ts: seq<Token>, items: seq<nat>, kind: nat): (r: seq<nat>)
    requires AllFile(ts, items)
    ensures AllFile(ts, r)
  {
    if items == [] then []
    else
      var r := OfKind(ts, items[..|items| - 1], kind);
      if KindOf(ts, items[|items| - 1]) == kind then r + [items[|items| - 1]] else r
  }

  lemma {:induction false} OfKindConcat(ts: seq<Token>, a: seq<nat>, b: seq<nat>, kind: nat)
    requires AllFile(ts, a) && AllFile(ts, b)
    ensures AllFile(ts, a + b) && OfKind(ts, a + b, kind) == OfKind(ts, a, kind) + OfKind(ts, b, kind)
    decreases |b|
  {
    if b == [] {
      assert a + b == a;
    } else {
      var c := b[..|b| - 1];
      OfKindConcat(ts, a, c, kind);
      assert (a + b)[..|a + b| - 1] == a + c;
    }
  }

  lemma {:induction false} NoneOfKind(ts: seq<Token>, items: seq<nat>, kind: nat)
    requires AllFile(ts, items) && forall k :: 0 <= k < |items| ==> KindOf(ts, items[k]) != kind
    ensures OfKind(ts, items, kind) == []
  {
    if items != [] {
      NoneOfKind(ts, items[..|items| - 1], kind);
    }
  }

  lemma {:induction false} AllOfKind(ts: seq<Token>, items: seq<nat>, kind: nat)
    requires AllFile(ts, items) && forall k :: 0 <= k < |items| ==> KindOf(ts, items[k]) == kind
    ensures OfKind(ts, items, kind) == items
  {
    if items != [] {
      AllOfKind(ts, items[..|items| - 1], kind);
    }
  }

  ghost predicate SortedByKind(ts: seq<Token>, items: seq<nat>)
    requires AllFile(ts, items)
  {
    forall j, k :: 0 <= j <= k < |items| ==> KindOf(ts, items[j]) <= KindOf(ts, items[k])
  }

  /** A stable sort of items by kind */
  ghost predicate Stable(ts: seq<Token>, sorted: seq<nat>, items: seq<nat>) {
    && AllFile(ts, sorted) && AllFile(ts, items) && SortedByKind(ts, sorted)
    && |sorted| == |items|
    && forall t :: 0 <= t < KINDS ==> OfKind(ts, sorted, t) == OfKind(ts, items, t)
  }

  lemma OfKindInsert(ts: seq<Token>, a: seq<nat>, x: nat, b: seq<nat>, t: nat)
    requires AllFile(ts, a) && AllFile(ts, b) && IsFile(ts, x)
    requires forall k :: 0 <= k < |b| ==> KindOf(ts, b[k]) > KindOf(ts, x)
    ensures AllFile(ts, a + [x] + b) && AllFile(ts, a + b)
    ensures OfKind(ts, a + [x] + b, t) == OfKind(ts, a + b, t) + (if t == KindOf(ts, x) then [x] else [])
  {
    OfKindConcat(ts, a, b, t);
    OfKindConcat(ts, a, [x], t);
    OfKindConcat(ts, a + [x], b, t);
    if t == KindOf(ts, x) {
      NoneOfKind(ts, b, t);
      AllOfKind(ts, [x], t);
    } else {
      NoneOfKind(ts, [x], t);
    }
  }

  lemma OfKindMore(ts: seq<Token>, items: seq<nat>, x: nat, t: nat)
    requires AllFile(ts, items) && IsFile(ts, x)
    ensures AllFile(ts, items + [x])
    ensures OfKind(ts, items + [x], t) == OfKind(ts, items, t) + (if t == KindOf(ts, x) then [x] else [])
  {
    var more := items + [x];
    assert more[..|more| - 1] == items;
  }

  lemma SortedInsert(ts: seq<Token>, a: seq<nat>, x: nat, b: seq<nat>)
    requires AllFile(ts, a + b) && IsFile(ts, x) && SortedByKind(ts, a + b)
    requires forall k :: 0 <= k < |a| ==> IsFile(ts, a[k]) && KindOf(ts, a[k]) <= KindOf(ts, x)
    requires forall k :: 0 <= k < |b| ==> IsFile(ts, b[k]) && KindOf(ts, b[k]) > KindOf(ts, x)
    ensures AllFile(ts, a + [x] + b) && SortedByKind(ts, a + [x] + b)
  {
    var r, s := a + [x] + b, a + b;
    assert forall k :: 0 <= k < |a| ==> s[k] == a[k];
    assert forall k :: |a| <= k < |s| ==> s[k] == b[k - |a|];
    assert forall k :: 0 <= k < |r| ==> r[k] == if k < |a| then s[k] else if k == |a| then x else s[k - 1];
    forall j, k | 0 <= j <= k < |r|
      ensures KindOf(ts, r[j]) <= KindOf(ts, r[k])
    {
      if j != |a| && k != |a| {
        assert KindOf(ts, s[if j < |a| then j else j - 1]) <= KindOf(ts, s[if k < |a| then k else k - 1]);
      }
    }
  }

  /** Inserting behind everything of the same or a smaller kind keeps a sort stable. */
  lemma StableInsert(ts: seq<Token>, sorted: seq<nat>, items: seq<nat>, p: nat, x: nat)
    requires Stable(ts, sorted, items) && IsFile(ts, x) && p <= |sorted|
    requires forall k :: 0 <= k < p ==> KindOf(ts, sorted[k]) <= KindOf(ts, x)
    requires forall k :: p <= k < |sorted| ==> KindOf(ts, sorted[k]) > KindOf(ts, x)
    ensures Stable(ts, sorted[..p] + [x] + sorted[p..], items + [x])
  {
    var a, b := sorted[..p], sorted[p..];
    assert sorted == a + b;
    SortedInsert(ts, a, x, b);
    forall t | 0 <= t < KINDS
      ensures AllFile(ts, items + [x]) && OfKind(ts, a + [x] + b, t) == OfKind(ts, items + [x], t)
    {
      OfKindInsert(ts, a, x, b, t);
      OfKindMore(ts, items, x, t);
    }
  }

  /** The insertion sort that parseFiles calls */
  method Sort(ts: seq<Token>, items: seq<nat>) returns (sorted: seq<nat>)
    requires AllFile(ts, items)
    ensures Stable(ts, sorted, items)
  {
    sorted := [];
    for i := 0 to |items|
      invariant Stable(ts, sorted, items[..i])
    {
      var x := items[i];
      var p := |sorted|;
      while p > 0 && KindOf(ts, x) < KindOf(ts, sorted[p - 1])
        invariant 0 <= p <= |sorted| && AllFile(ts, sorted)
        invariant forall k :: p <= k < |sorted| ==> KindOf(ts, sorted[k]) > KindOf(ts, x)
      {
        p := p - 1;
      }
      StableInsert(ts, sorted, items[..i], p, x);
      assert items[..i] + [x] == items[..i + 1];
      sorted := sorted[..p] + [x] + sorted[p..];
    }
    assert items[..|items|] == items;
  }

  /** In a sorted list the items of one kind are next to each other: the range between smaller and larger kinds. */
  lemma KindRange(ts: seq<Token>, sorted: seq<nat>, from: nat, to: nat, kind: nat)
    requires AllFile(ts, sorted) && from <= to <= |sorted|
    requires forall k :: 0 <= k < from ==> KindOf(ts, sorted[k]) < kind
    requires forall k :: from <= k < to ==> KindOf(ts, sorted[k]) == kind
    requires forall k :: to <= k < |sorted| ==> KindOf(ts, sorted[k]) > kind
    ensures OfKind(ts, sorted, kind) == sorted[from..to]
  {
    assert sorted == sorted[..from] + sorted[from..to] + sorted[to..];
    OfKindConcat(ts, sorted[..from], sorted[from..to], kind);
    OfKindConcat(ts, sorted[..from] + sorted[from..to], sorted[to..], kind);
    NoneOfKind(ts, sorted[..from], kind);
    AllOfKind(ts, sorted[from..to], kind);
    NoneOfKind(ts, sorted[to..], kind);
  }

  // ---------- File tokens and file names ----------

  /** The file tokens of the redirections from token i on, up to token j */
  function FileTokens(i: nat, j: nat): (r: seq<nat>)
    requires i <= j
    decreases j - i
  {
    if j - i < 2 then [] else [i + 1] + FileTokens(i + 2, j)
  }

  lemma {:induction false} FileTokensAre(ts: seq<Token>, i: nat, j: nat)
    requires i <= j <= |ts| && Redirections(ts[i..j])
    ensures AllFile(ts, FileTokens(i, j))
    decreases j - i
  {
    if i < j {
      assert ts[i..j][2..] == ts[i + 2..j] && ts[i..j][0] == ts[i];
      FileTokensAre(ts, i + 2, j);
    }
  }

  function Lexemes(ts: seq<Token>, items: seq<nat>): (r: seq<string>)
    requires AllFile(ts, items)
    ensures |r| == |items| && forall k :: 0 <= k < |items| ==> r[k] == ts[items[k]].lexeme
  {
    seq(|items|, k requires 0 <= k < |items| => ts[items[k]].lexeme)
  }

  /** The names of the file tokens of one kind are the files of that kind. */
  lemma {:induction false} FileNames(ts: seq<Token>, i: nat, j: nat, kind: nat)
    requires i <= j <= |ts| && Redirections(ts[i..j]) && AllFile(ts, FileTokens(i, j))
    ensures Lexemes(ts, OfKind(ts, FileTokens(i, j), kind)) == FilesOf(ts[i..j], kind)
    decreases j - i
  {
    if i < j {
      var s := ts[i..j];
      assert s[2..] == ts[i + 2..j] && s[0] == ts[i] && s[1] == ts[i + 1];
      FileTokensAre(ts, i + 2, j);
      FileNames(ts, i + 2, j, kind);
      FirstName(ts, i + 1, FileTokens(i + 2, j), kind);
    }
  }

  lemma FirstName(ts: seq<Token>, x: nat, rest: seq<nat>, kind: nat)
    requires IsFile(ts, x) && AllFile(ts, rest)
    ensures AllFile(ts, [x] + rest)
    ensures Lexemes(ts, OfKind(ts, [x] + rest, kind)) ==
            (if KindOf(ts, x) == kind then [ts[x].lexeme] else []) + Lexemes(ts, OfKind(ts, rest, kind))
  {
    OfKindConcat(ts, [x], rest, kind);
    if KindOf(ts, x) == kind {
      AllOfKind(ts, [x], kind);
    } else {
      NoneOfKind(ts, [x], kind);
    }
  }

  /** One more redirection at the end */
  lemma {:induction false} FileTokensMore(i: nat, j: nat)
    requires i <= j && (j - i) % 2 == 0
    ensures FileTokens(i, j + 2) == FileTokens(i, j) + [j + 1]
    decreases j - i
  {
    if i < j {
      FileTokensMore(i + 2, j);
    }
  }

  lemma NoFileTokens(ts: seq<Token>, i: nat, j: nat)
    requires i <= j <= |ts| && Redirections(ts[i..j]) && FileTokens(i, j) == []
    ensures i == j
  {
  }

  /** Sorting the file tokens gives the files of each kind. */
  lemma SortedNames(ts: seq<Token>, i: nat, j: nat, sorted: seq<nat>, kind: nat)
    requires i <= j <= |ts| && Redirections(ts[i..j]) && Stable(ts, sorted, FileTokens(i, j)) && kind < KINDS
    ensures Lexemes(ts, OfKind(ts, sorted, kind)) == FilesOf(ts[i..j], kind)
  {
    FileNames(ts, i, j, kind);
  }
}

/**
 How many tables a range of pages needs: which tables a walk creates, and that later
 walks find them.
 */
module TableCount {
  import opened Common
  import opened PageTables

  predicate SamePrefix(p: Path, q: Path, k: nat) {
    k <= |p| && k <= |q| && forall i :: 0 <= i < k ==> p[i] == q[i]
  }

  ghost predicate There(m: map<nat, Table>, f: nat, q: Path, j: nat)
    requires j <= |q|
  {
    Reach(m, f, q, j).Some?
  }

  // ---------- What a change does to the tables on a path ----------

  lemma {:induction false} ReachFrame(m: map<nat, Table>, m': map<nat, Table>, f: nat, d: nat, q: Path, j: nat)
    requires Tree(m, f, d) && |q| == d + 1 && j <= d
    requires forall x :: x in Sub(m, f, d) ==> x in m' && x in m && m'[x] == m[x]
    ensures Reach(m', f, q, j) == Reach(m, f, q, j)
    decreases d
  {
    assert f in Sub(m, f, d);
    if j > 0 && q[0] < ENTRIES && m[f][q[0]].valid {
      var e := m[f][q[0]];
      assert Child(m, f, e, d);
      assert Below(m, e, d) <= Sub(m, f, d);
      ReachFrame(m, m', e.ppn, d - 1, q[1..], j - 1);
    }
  }

  /** The table reached along path is below its first entry. */
  lemma ReachBelow(m: map<nat, Table>, f: nat, d: nat, path: Path, k: nat)
    requires Tree(m, f, d) && |path| == d + 1 && Indices(path) && 0 < k <= d && Reach(m, f, path, k).Some?
    ensures path[0] < ENTRIES && f in m && m[f][path[0]].valid && Tree(m, m[f][path[0]].ppn, d - 1)
    ensures Reach(m, m[f][path[0]].ppn, path[1..], k - 1) == Reach(m, f, path, k)
    ensures Reach(m, f, path, k).value in Below(m, m[f][path[0]], d) && Reach(m, f, path, k).value != f
  {
    var e := m[f][path[0]];
    assert path[0] < ENTRIES;
    assert Child(m, f, e, d);
    ReachIn(m, e.ppn, d - 1, path[1..], k - 1);
  }

  /** A change below one entry is not seen through another. */
  lemma OtherBranch(m: map<nat, Table>, m': map<nat, Table>, f: nat, d: nat, i: nat, x: nat, q: Path, j: nat)
    requires Tree(m, f, d) && d > 0 && |q| == d + 1 && j <= d && i < ENTRIES && m[f][i].valid && q[0] != i
    requires x in Below(m, m[f][i], d) && f in m' && m'[f] == m[f]
    requires forall y :: y in m && y != x ==> y in m' && m'[y] == m[y]
    ensures Reach(m', f, q, j) == Reach(m, f, q, j)
  {
    if j > 0 && q[0] < ENTRIES && m[f][q[0]].valid {
      Elsewhere(m, m', f, d, i, q[0], x);
      ReachFrame(m, m', m[f][q[0]].ppn, d - 1, q[1..], j - 1);
    }
  }

  /** A new table is there for the paths that begin like path, and no other is. */
  lemma {:induction false} LinkOpens(m: map<nat, Table>, m': map<nat, Table>, f: nat, d: nat, path: Path, k: nat,
                                     g: nat, q: Path, j: nat)
    requires Tree(m, f, d) && |path| == d + 1 == |q| && Indices(path) && k < d && j <= d
    requires Reach(m, f, path, k).Some?
    requires g !in m && g in m' && m'[g] == ZeroTable()
    requires Changed(m, m', Reach(m, f, path, k).value, path[k], Node(g))
    requires !m[Reach(m, f, path, k).value][path[k]].valid
    ensures There(m', f, q, j) <==> There(m, f, q, j) || (j == k + 1 && SamePrefix(q, path, j))
    decreases d
  {
    if k == 0 {
      assert path[0] < ENTRIES;
      LinkOpensHere(m, m', f, d, path, g, q, j);
    } else if j > 0 {
      var x, e := Reach(m, f, path, k).value, m[f][path[0]];
      ReachBelow(m, f, d, path, k);
      if q[0] == path[0] {
        assert Indices(path[1..]);
        LinkOpens(m, m', e.ppn, d - 1, path[1..], k - 1, g, q[1..], j - 1);
        PrefixTail(q, path, j);
      } else {
        OtherBranch(m, m', f, d, path[0], x, q, j);
      }
    }
  }

  lemma LinkOpensHere(m: map<nat, Table>, m': map<nat, Table>, f: nat, d: nat, path: Path, g: nat, q: Path, j: nat)
    requires Tree(m, f, d) && |path| == d + 1 == |q| && path[0] < ENTRIES && 0 < d && j <= d
    requires g !in m && g in m' && m'[g] == ZeroTable()
    requires Changed(m, m', f, path[0], Node(g)) && !m[f][path[0]].valid
    ensures There(m', f, q, j) <==> There(m, f, q, j) || (j == 1 && SamePrefix(q, path, j))
  {
    if j > 0 && q[0] == path[0] {
      assert m'[f][q[0]] == Node(g);
      ReachZero(m', g, q[1..], j - 1);
    } else if j > 0 && q[0] < ENTRIES && m[f][q[0]].valid {
      assert Child(m, f, m[f][q[0]], d);
      SubInside(m, m[f][q[0]].ppn, d - 1);
      ReachFrame(m, m', m[f][q[0]].ppn, d - 1, q[1..], j - 1);
    }
  }

  lemma PrefixTail(q: Path, p: Path, j: nat)
    requires 0 < j <= |q| == |p| && q[0] == p[0]
    ensures SamePrefix(q, p, j) <==> SamePrefix(q[1..], p[1..], j - 1)
  {
    if SamePrefix(q[1..], p[1..], j - 1) {
      forall i | 0 <= i < j
        ensures q[i] == p[i]
      {
        assert i > 0 ==> q[1..][i - 1] == p[1..][i - 1];
      }
    }
  }

  lemma ReachZero(m: map<nat, Table>, g: nat, q: Path, j: nat)
    requires g in m && m[g] == ZeroTable() && j <= |q|
    ensures There(m, g, q, j) <==> j == 0
  {
  }

  /** Writing a leaf entry neither adds nor removes a table. */
  lemma {:induction false} LeafOpens(m: map<nat, Table>, m': map<nat, Table>, f: nat, d: nat, path: Path, e: Pte,
                                     q: Path, j: nat)
    requires Tree(m, f, d) && |path| == d + 1 == |q| && Indices(path) && Reach(m, f, path, d).Some? && j <= d
    requires Changed(m, m', Reach(m, f, path, d).value, path[d], e)
    ensures There(m', f, q, j) <==> There(m, f, q, j)
    decreases d
  {
    if d > 0 && j > 0 {
      var x, c := Reach(m, f, path, d).value, m[f][path[0]];
      ReachBelow(m, f, d, path, d);
      if q[0] == path[0] {
        assert Indices(path[1..]);
        LeafOpens(m, m', c.ppn, d - 1, path[1..], e, q[1..], j - 1);
      } else {
        OtherBranch(m, m', f, d, path[0], x, q, j);
      }
    }
  }

  // ---------- Walks ----------

  /** A walk along path has come to level k: the tables on it are there, and no other has come. */
  ghost predicate Opening(was: map<nat, Table>, now: map<nat, Table>, root: nat, path: Path, k: nat) {
    forall q: Path, j: nat :: |q| == TOP + 1 && j <= TOP ==> OpeningAt(was, now, root, path, k, q, j)
  }

  ghost predicate OpeningAt(was: map<nat, Table>, now: map<nat, Table>, root: nat, path: Path, k: nat, q: Path, j: nat)
    requires j <= |q|
  {
    There(now, root, q, j) <==> There(was, root, q, j) || (j <= k && SamePrefix(q, path, j))
  }

  lemma OpeningStart(m: map<nat, Table>, root: nat, path: Path)
    ensures Opening(m, m, root, path, 0)
  {
    forall q: Path, j: nat | |q| == TOP + 1 && j <= TOP
      ensures OpeningAt(m, m, root, path, 0, q, j)
    {
    }
  }

  lemma {:induction false} ReachPrefix(m: map<nat, Table>, f: nat, p: Path, q: Path, k: nat)
    requires SamePrefix(p, q, k)
    ensures Reach(m, f, p, k) == Reach(m, f, q, k)
    decreases k
  {
    if k > 0 && f in m && p[0] < |m[f]| && m[f][p[0]].valid {
      assert SamePrefix(p[1..], q[1..], k - 1);
      ReachPrefix(m, m[f][p[0]].ppn, p[1..], q[1..], k - 1);
    }
  }

  /** One level of a walk: the table of level k + 1 on path is there, and no other has come. */
  ghost predicate OpensNext(m: map<nat, Table>, m': map<nat, Table>, root: nat, path: Path, k: nat) {
    forall q: Path, j: nat :: |q| == TOP + 1 && j <= TOP ==> OpensNextAt(m, m', root, path, k, q, j)
  }

  ghost predicate OpensNextAt(m: map<nat, Table>, m': map<nat, Table>, root: nat, path: Path, k: nat, q: Path, j: nat)
    requires j <= |q|
  {
    There(m', root, q, j) <==> There(m, root, q, j) || (j == k + 1 && SamePrefix(q, path, j))
  }

  /** The next table on the path is there already. */
  lemma OpensOld(m: map<nat, Table>, root: nat, path: Path, k: nat)
    requires |path| == TOP + 1 && k < TOP && There(m, root, path, k + 1)
    ensures OpensNext(m, m, root, path, k)
  {
    forall q: Path, j: nat | |q| == TOP + 1 && j <= TOP
      ensures OpensNextAt(m, m, root, path, k, q, j)
    {
      if j == k + 1 && SamePrefix(q, path, j) {
        ReachPrefix(m, root, q, path, j);
      }
    }
  }

  /** The next table on the path is created. */
  lemma OpensNew(m: map<nat, Table>, m': map<nat, Table>, root: nat, path: Path, k: nat, x: nat, g: nat)
    requires Tree(m, root, TOP) && |path| == TOP + 1 && Indices(path) && k < TOP && Reach(m, root, path, k) == Some(x)
    requires g !in m && g in m' && m'[g] == ZeroTable()
    requires Changed(m, m', x, path[k], Node(g)) && !m[x][path[k]].valid
    ensures OpensNext(m, m', root, path, k)
  {
    forall q: Path, j: nat | |q| == TOP + 1 && j <= TOP
      ensures OpensNextAt(m, m', root, path, k, q, j)
    {
      LinkOpens(m, m', root, TOP, path, k, g, q, j);
    }
  }

  lemma OpeningNext(was: map<nat, Table>, m: map<nat, Table>, m': map<nat, Table>, root: nat, path: Path, k: nat)
    requires Opening(was, m, root, path, k) && OpensNext(m, m', root, path, k)
    ensures Opening(was, m', root, path, k + 1)
  {
    var next := k + 1;
    forall q: Path, j: nat | |q| == TOP + 1 && j <= TOP
      ensures OpeningAt(was, m', root, path, next, q, j)
    {
      assert OpeningAt(was, m, root, path, k, q, j);
      assert OpensNextAt(m, m', root, path, k, q, j);
    }
  }

  /** The same tables are there. */
  ghost predicate SameTables(m: map<nat, Table>, m': map<nat, Table>, root: nat) {
    forall q: Path, j: nat :: |q| == TOP + 1 && j <= TOP ==> SameTableAt(m, m', root, q, j)
  }

  ghost predicate SameTableAt(m: map<nat, Table>, m': map<nat, Table>, root: nat, q: Path, j: nat)
    requires j <= |q|
  {
    There(m', root, q, j) <==> There(m, root, q, j)
  }

  lemma LeafSame(m: map<nat, Table>, m': map<nat, Table>, root: nat, path: Path, x: nat, e: Pte)
    requires Tree(m, root, TOP) && |path| == TOP + 1 && Indices(path) && Reach(m, root, path, TOP) == Some(x)
    requires Changed(m, m', x, path[TOP], e)
    ensures SameTables(m, m', root)
  {
    forall q: Path, j: nat | |q| == TOP + 1 && j <= TOP
      ensures SameTableAt(m, m', root, q, j)
    {
      LeafOpens(m, m', root, TOP, path, e, q, j);
    }
  }

  // ---------- Ranges of pages ----------

  /** The tables of pages lo to hi are there, and no other has come. */
  ghost predicate Opened(was: map<nat, Table>, now: map<nat, Table>, root: nat, lo: nat, hi: nat) {
    forall q: Path, j: nat :: |q| == TOP + 1 && j <= TOP ==> OpenedAt(was, now, root, lo, hi, q, j)
  }

  ghost predicate OpenedAt(was: map<nat, Table>, now: map<nat, Table>, root: nat, lo: nat, hi: nat, q: Path, j: nat)
    requires j <= |q|
  {
    There(now, root, q, j) <==> There(was, root, q, j) || Covered(lo, hi, q, j)
  }

  ghost predicate Covered(lo: nat, hi: nat, q: Path, j: nat) {
    exists n: nat :: lo <= n < hi && SamePrefix(q, Split(n), j)
  }

  lemma OpenedNone(m: map<nat, Table>, root: nat, lo: nat)
    ensures Opened(m, m, root, lo, lo)
  {
    forall q: Path, j: nat | |q| == TOP + 1 && j <= TOP
      ensures OpenedAt(m, m, root, lo, lo, q, j)
    {
    }
  }

  /** A walk to page n, and a leaf written */
  lemma OpenedOne(was: map<nat, Table>, m: map<nat, Table>, m': map<nat, Table>, root: nat, n: nat)
    requires Opening(was, m, root, Split(n), TOP) && SameTables(m, m', root)
    ensures Opened(was, m', root, n, n + 1)
  {
    var next := n + 1;
    forall q: Path, j: nat | |q| == TOP + 1 && j <= TOP
      ensures OpenedAt(was, m', root, n, next, q, j)
    {
      assert OpeningAt(was, m, root, Split(n), TOP, q, j);
      assert SameTableAt(m, m', root, q, j);
      CoveredMore(n, n, n + 1, q, j);
    }
  }

  lemma OpenedTrans(was: map<nat, Table>, m: map<nat, Table>, m': map<nat, Table>, root: nat, lo: nat, n: nat, hi: nat)
    requires lo <= n && hi == n + 1 && Opened(was, m, root, lo, n) && Opened(m, m', root, n, hi)
    ensures Opened(was, m', root, lo, hi)
  {
    forall q: Path, j: nat | |q| == TOP + 1 && j <= TOP
      ensures OpenedAt(was, m', root, lo, hi, q, j)
    {
      assert OpenedAt(was, m, root, lo, n, q, j);
      assert OpenedAt(m, m', root, n, hi, q, j);
      CoveredMore(lo, n, hi, q, j);
      CoveredMore(n, n, hi, q, j);
    }
  }

  lemma CoveredMore(lo: nat, n: nat, hi: nat, q: Path, j: nat)
    requires lo <= n && hi == n + 1
    ensures Covered(lo, hi, q, j) <==> Covered(lo, n, q, j) || SamePrefix(q, Split(n), j)
  {
  }

  // ---------- Counting ----------

  /** How many of the first k tables of page n are missing, and not also tables of the page before */
  ghost function Fresh(m: map<nat, Table>, root: nat, n: nat, k: nat): (c: nat)
    requires n > 0 && k <= TOP
  {
    if k == 0 then 0
    else Fresh(m, root, n, k - 1)
         + if !There(m, root, Split(n), k) && !SamePrefix(Split(n), Split(n - 1), k) then 1 else 0
  }

  /** The tables that pages lo to hi lack */
  ghost function TablesFor(m: map<nat, Table>, root: nat, lo: nat, hi: nat): (c: nat)
    requires lo <= hi
  {
    if hi == lo then 0
    else if hi == lo + 1 then Missing(m, root, Split(lo), TOP)
    else TablesFor(m, root, lo, hi - 1) + Fresh(m, root, hi - 1, TOP)
  }

  /** Of the pages before n in a range, the last is the one that shares most tables with n. */
  lemma CoveredByLast(lo: nat, n: nat, j: nat)
    requires lo < n < ALLPAGES && j <= TOP
    ensures Covered(lo, n, Split(n), j) <==> SamePrefix(Split(n), Split(n - 1), j)
  {
    if Covered(lo, n, Split(n), j) {
      var y: nat :| lo <= y < n && SamePrefix(Split(n), Split(y), j);
      PrefixBetween(y, n, j);
    }
  }

  lemma PrefixBetween(y: nat, n: nat, j: nat)
    requires y < n < ALLPAGES && j <= TOP && SamePrefix(Split(n), Split(y), j)
    ensures SamePrefix(Split(n), Split(n - 1), j)
  {
    if j >= 1 {
      assert Split(n)[0] == Split(y)[0];
      assert n / 512 / 512 == y / 512 / 512 == (n - 1) / 512 / 512;
    }
    if j == 2 {
      assert Split(n)[1] == Split(y)[1];
      assert n / 512 == y / 512 == (n - 1) / 512;
    }
  }

  lemma {:induction false} FreshIsMissing(was: map<nat, Table>, m: map<nat, Table>, root: nat, lo: nat, n: nat, k: nat)
    requires lo < n < ALLPAGES && k <= TOP && Opened(was, m, root, lo, n)
    ensures Missing(m, root, Split(n), k) == Fresh(was, root, n, k)
  {
    if k > 0 {
      FreshIsMissing(was, m, root, lo, n, k - 1);
      assert OpenedAt(was, m, root, lo, n, Split(n), k);
      CoveredByLast(lo, n, k);
    }
  }

  /** What page n needs when the pages from lo up to it are there */
  lemma NextNeeds(was: map<nat, Table>, m: map<nat, Table>, root: nat, lo: nat, n: nat, need: nat)
    requires lo <= n < ALLPAGES && Opened(was, m, root, lo, n) && (n == lo ==> m == was) && Needs(m, root, n, need)
    ensures TablesFor(was, root, lo, n + 1) == TablesFor(was, root, lo, n) + need
  {
    assert NeedsOn(m, root, Split(n), need);
    if n > lo {
      FreshIsMissing(was, m, root, lo, n, TOP);
    }
  }

  lemma {:induction false} TablesGrow(m: map<nat, Table>, root: nat, lo: nat, mid: nat, hi: nat)
    requires lo <= mid <= hi
    ensures TablesFor(m, root, lo, mid) <= TablesFor(m, root, lo, hi)
    decreases hi
  {
    if mid < hi {
      TablesGrow(m, root, lo, mid, hi - 1);
    }
  }

  /** Pages lo to hi lack c tables; behind a quantifier to keep the count folded */
  ghost predicate Lacks(m: map<nat, Table>, root: nat, lo: nat, hi: nat, c: nat) {
    forall x :: x == m ==> LacksIn(x, root, lo, hi, c)
  }

  ghost predicate LacksIn(m: map<nat, Table>, root: nat, lo: nat, hi: nat, c: nat) {
    lo <= hi && c == TablesFor(m, root, lo, hi)
  }

  lemma LacksNone(m: map<nat, Table>, root: nat, lo: nat)
    ensures Lacks(m, root, lo, lo, 0)
  {
  }

  lemma LacksOf(m: map<nat, Table>, root: nat, lo: nat, hi: nat) returns (c: nat)
    requires lo <= hi
    ensures Lacks(m, root, lo, hi, c)
  {
    c := TablesFor(m, root, lo, hi);
  }

  lemma LacksNext(was: map<nat, Table>, m: map<nat, Table>, root: nat, lo: nat, n: nat, c: nat, need: nat)
    requires lo <= n < ALLPAGES && Opened(was, m, root, lo, n) && (n == lo ==> m == was)
    requires Lacks(was, root, lo, n, c) && Needs(m, root, n, need)
    ensures Lacks(was, root, lo, n + 1, c + need)
  {
    assert LacksIn(was, root, lo, n, c);
    NextNeeds(was, m, root, lo, n, need);
    assert LacksIn(was, root, lo, n + 1, c + need);
  }

  lemma LacksGrow(m: map<nat, Table>, root: nat, lo: nat, mid: nat, hi: nat, c: nat, d: nat)
    requires mid <= hi && Lacks(m, root, lo, mid, c) && Lacks(m, root, lo, hi, d)
    ensures c <= d && (mid == hi ==> c == d)
  {
    assert LacksIn(m, root, lo, mid, c) && LacksIn(m, root, lo, hi, d);
    TablesGrow(m, root, lo, mid, hi);
  }

  /** A single page lacks the tables on its path. */
  lemma LacksOne(m: map<nat, Table>, root: nat, n: nat, need: nat)
    ensures Lacks(m, root, n, n + 1, need) <==> Needs(m, root, n, need)
  {
    if Lacks(m, root, n, n + 1, need) {
      assert LacksIn(m, root, n, n + 1, need);
    }
    if Needs(m, root, n, need) {
      assert NeedsOn(m, root, Split(n), need);
      assert LacksIn(m, root, n, n + 1, need);
    }
  }
}

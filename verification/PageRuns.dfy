/**
 kernel/PageAllocator.zig: runs of free pages in a singly linked list that is
 kept in the pages themselves.  Addresses are page numbers.
 */
module PageRuns {
  import opened Common

  const PGSIZE: nat := 4096
  const MAXUSIZE: nat := 0xFFFF_FFFF_FFFF_FFFF

  /** The header stored in the first page of a free run. */
  datatype Node = Node(next: Option<nat>, len: nat)

  datatype Run = Run(start: nat, len: nat) {
    predicate Has(p: nat) {
      start <= p < start + len
    }
  }

  // ---------- The list as a value ----------

  /** Ascending, non-empty, and never touching: fully merged. */
  ghost predicate Canonical(runs: seq<Run>) {
    && (forall i :: 0 <= i < |runs| ==> runs[i].len > 0)
    && (forall i :: 0 < i < |runs| ==> runs[i - 1].start + runs[i - 1].len < runs[i].start)
  }

  /** The end of one run is before the start of any later one. */
  lemma {:induction false} Ordered(runs: seq<Run>, i: nat, j: nat)
    requires Canonical(runs) && i < j < |runs|
    ensures runs[i].start + runs[i].len < runs[j].start
    decreases j
  {
    if i < j - 1 {
      Ordered(runs, i, j - 1);
    }
  }

  /** Is page p in one of the runs? */
  ghost predicate Free(runs: seq<Run>, p: nat) {
    exists i :: 0 <= i < |runs| && runs[i].Has(p)
  }

  lemma FreeConcat(a: seq<Run>, b: seq<Run>, p: nat)
    ensures Free(a + b, p) <==> Free(a, p) || Free(b, p)
  {
    if Free(a, p) {
      var i :| 0 <= i < |a| && a[i].Has(p);
      assert (a + b)[i].Has(p);
    }
    if Free(b, p) {
      var i :| 0 <= i < |b| && b[i].Has(p);
      assert (a + b)[|a| + i].Has(p);
    }
  }

  lemma FreeOne(r: Run, p: nat)
    ensures Free([r], p) <==> r.Has(p)
  {
    assert [r][0] == r;
  }

  /** The pages of a list cut at run i. */
  lemma FreeCut(runs: seq<Run>, i: nat, p: nat)
    requires i < |runs|
    ensures Free(runs, p) <==> Free(runs[..i], p) || runs[i].Has(p) || Free(runs[i + 1..], p)
  {
    assert runs == runs[..i] + [runs[i]] + runs[i + 1..];
    FreeConcat(runs[..i], [runs[i]], p);
    FreeConcat(runs[..i] + [runs[i]], runs[i + 1..], p);
    FreeOne(runs[i], p);
  }

  /** A list put together from three parts. */
  lemma FreeJoin(a: seq<Run>, r: Run, b: seq<Run>, p: nat)
    ensures Free(a + [r] + b, p) <==> Free(a, p) || r.Has(p) || Free(b, p)
  {
    FreeConcat(a, [r], p);
    FreeConcat(a + [r], b, p);
    FreeOne(r, p);
  }

  /** Pages before run i are not in it or after it. */
  lemma Apart(runs: seq<Run>, i: nat, p: nat)
    requires Canonical(runs) && i < |runs|
    ensures Free(runs[..i], p) ==> p < runs[i].start
    ensures Free(runs[i + 1..], p) ==> runs[i].start + runs[i].len < p
  {
    if Free(runs[..i], p) {
      var j :| 0 <= j < i && runs[..i][j].Has(p);
      Ordered(runs, j, i);
    }
    if Free(runs[i + 1..], p) {
      var j :| 0 <= j < |runs| - i - 1 && runs[i + 1..][j].Has(p);
      Ordered(runs, i, i + 1 + j);
    }
  }

  /** Two fully merged lists of the same pages begin with the same run. */
  lemma SameFirst(a: seq<Run>, b: seq<Run>)
    requires Canonical(a) && Canonical(b) && a != [] && b != []
    requires forall p: nat :: Free(a, p) <==> Free(b, p)
    ensures a[0] == b[0]
  {
    FirstIsLeast(a);
    FirstIsLeast(b);
    assert Free(a, b[0].start) && Free(b, a[0].start);
    FirstEnds(a);
    FirstEnds(b);
  }

  lemma FirstIsLeast(a: seq<Run>)
    requires Canonical(a) && a != []
    ensures Free(a, a[0].start) && forall p: nat :: Free(a, p) ==> a[0].start <= p
  {
    assert a[0].Has(a[0].start);
    forall p: nat | Free(a, p)
      ensures a[0].start <= p
    {
      FreeCut(a, 0, p);
      Apart(a, 0, p);
    }
  }

  /** The page after the first run is not free. */
  lemma FirstEnds(a: seq<Run>)
    requires Canonical(a) && a != []
    ensures !Free(a, a[0].start + a[0].len)
  {
    FreeCut(a, 0, a[0].start + a[0].len);
    Apart(a, 0, a[0].start + a[0].len);
  }

  lemma FreeTail(a: seq<Run>, p: nat)
    requires Canonical(a) && a != []
    ensures Free(a[1..], p) <==> Free(a, p) && !a[0].Has(p)
  {
    FreeCut(a, 0, p);
    Apart(a, 0, p);
  }

  /** The free list is determined by the set of free pages. */
  lemma {:induction false} CanonicalUnique(a: seq<Run>, b: seq<Run>)
    requires Canonical(a) && Canonical(b)
    requires forall p: nat :: Free(a, p) <==> Free(b, p)
    ensures a == b
  {
    if a == [] {
      if b != [] {
        FirstIsLeast(b);
      }
    } else if b == [] {
      FirstIsLeast(a);
    } else {
      SameFirst(a, b);
      forall p: nat
        ensures Free(a[1..], p) <==> Free(b[1..], p)
      {
        FreeTail(a, p);
        FreeTail(b, p);
      }
      CanonicalUnique(a[1..], b[1..]);
      assert a == [a[0]] + a[1..] && b == [b[0]] + b[1..];
    }
  }

  // ---------- The list in memory ----------

  /** Number of pages for n bytes: enough, and the last one is needed. */
  function Pages(n: nat): (r: nat)
    ensures (r - 1) * PGSIZE < n <= r * PGSIZE
  {
    (n + PGSIZE - 1) / PGSIZE
  }

  /** Byte b is one of the n bytes from the start of page a, and page p holds it. */
  ghost predicate ByteIn(a: nat, n: nat, b: nat, p: nat) {
    a * PGSIZE <= b < a * PGSIZE + n && p * PGSIZE <= b < (p + 1) * PGSIZE
  }

  /** Page p holds one of the n bytes from the start of page a. */
  ghost predicate Holds(a: nat, n: nat, p: nat) {
    exists b: nat :: ByteIn(a, n, b, p)
  }

  /** The pages of n bytes are exactly the pages that hold one of them. */
  lemma PagesHold(a: nat, n: nat, p: nat)
    requires n > 0
    ensures Holds(a, n, p) <==> Run(a, Pages(n)).Has(p)
  {
    if Run(a, Pages(n)).Has(p) {
      assert ByteIn(a, n, p * PGSIZE, p);
    }
  }

  /** A run has room for n bytes exactly if it has all their pages. */
  lemma RoomFor(len: nat, n: nat)
    ensures len < Pages(n) <==> len * PGSIZE < n
  {
    var r := Pages(n);
    assert len < r ==> len * PGSIZE <= (r - 1) * PGSIZE;
  }

  /** The address of a list that goes on with `tail` after the runs. */
  function Head(runs: seq<Run>, tail: Option<nat>): (r: Option<nat>) {
    if runs == [] then tail else Some(runs[0].start)
  }

  /** The headers in memory spell out the runs, and the last one points to `tail`. */
  ghost predicate Stored(mem: map<nat, Node>, runs: seq<Run>, tail: Option<nat>) {
    forall i :: 0 <= i < |runs| ==> StoredAt(mem, runs, tail, i)
  }

  ghost predicate StoredAt(mem: map<nat, Node>, runs: seq<Run>, tail: Option<nat>, i: nat)
    requires i < |runs|
  {
    runs[i].start in mem && mem[runs[i].start] == Node(Head(runs[i + 1..], tail), runs[i].len)
  }

  lemma StoredConcat(mem: map<nat, Node>, a: seq<Run>, b: seq<Run>, tail: Option<nat>)
    ensures Stored(mem, a + b, tail) <==> Stored(mem, a, Head(b, tail)) && Stored(mem, b, tail)
  {
    forall i | 0 <= i < |a|
      ensures StoredAt(mem, a + b, tail, i) <==> StoredAt(mem, a, Head(b, tail), i)
    {
      assert (a + b)[i + 1..] == a[i + 1..] + b;
    }
    forall i | 0 <= i < |b|
      ensures StoredAt(mem, a + b, tail, |a| + i) <==> StoredAt(mem, b, tail, i)
    {
      assert (a + b)[|a| + i + 1..] == b[i + 1..];
    }
    if Stored(mem, a + b, tail) {
      forall i | 0 <= i < |a|
        ensures StoredAt(mem, a, Head(b, tail), i)
      {
        assert StoredAt(mem, a + b, tail, i);
      }
      forall i | 0 <= i < |b|
        ensures StoredAt(mem, b, tail, i)
      {
        assert StoredAt(mem, a + b, tail, |a| + i);
      }
    }
    if Stored(mem, a, Head(b, tail)) && Stored(mem, b, tail) {
      forall i | 0 <= i < |a + b|
        ensures StoredAt(mem, a + b, tail, i)
      {
        if i >= |a| {
          assert StoredAt(mem, b, tail, i - |a|);
        }
      }
    }
  }

  /** No run starts at p. */
  ghost predicate StartsElsewhere(runs: seq<Run>, p: nat) {
    forall i :: 0 <= i < |runs| ==> runs[i].start != p
  }

  /** Writing a header that belongs to none of the runs. */
  lemma StoredFrame(mem: map<nat, Node>, runs: seq<Run>, tail: Option<nat>, p: nat, node: Node)
    requires Stored(mem, runs, tail) && StartsElsewhere(runs, p)
    ensures Stored(mem[p := node], runs, tail)
  {
    StoredSame(mem, mem[p := node], runs, tail);
  }

  lemma StoredSame(mem: map<nat, Node>, mem': map<nat, Node>, runs: seq<Run>, tail: Option<nat>)
    requires Stored(mem, runs, tail)
    requires forall i :: 0 <= i < |runs| && runs[i].start in mem ==>
               runs[i].start in mem' && mem'[runs[i].start] == mem[runs[i].start]
    ensures Stored(mem', runs, tail)
  {
    forall i | 0 <= i < |runs|
      ensures StoredAt(mem', runs, tail, i)
    {
      assert StoredAt(mem, runs, tail, i);
    }
  }

  /** A list cut at run i. */
  lemma CutStored(mem: map<nat, Node>, runs: seq<Run>, tail: Option<nat>, i: nat)
    requires Stored(mem, runs, tail) && i < |runs|
    ensures Stored(mem, runs[..i], Some(runs[i].start)) && Stored(mem, runs[i + 1..], tail)
    ensures runs[i].start in mem && mem[runs[i].start] == Node(Head(runs[i + 1..], tail), runs[i].len)
  {
    assert StoredAt(mem, runs, tail, i);
    assert runs == runs[..i] + runs[i..] && runs[i..] == [runs[i]] + runs[i + 1..];
    StoredConcat(mem, runs[..i], runs[i..], tail);
    StoredConcat(mem, [runs[i]], runs[i + 1..], tail);
  }

  /** A list split before position i. */
  lemma SplitStored(mem: map<nat, Node>, runs: seq<Run>, i: nat)
    requires Stored(mem, runs, None) && i <= |runs|
    ensures Stored(mem, runs[..i], Head(runs[i..], None)) && Stored(mem, runs[i..], None)
    ensures Head(runs, None) == Head(runs[..i], Head(runs[i..], None))
  {
    assert runs == runs[..i] + runs[i..];
    StoredConcat(mem, runs[..i], runs[i..], None);
  }

  /** A list put together around run r. */
  lemma JoinStored(mem: map<nat, Node>, pre: seq<Run>, r: Run, post: seq<Run>)
    requires Stored(mem, pre, Some(r.start)) && Stored(mem, post, None)
    requires r.start in mem && mem[r.start] == Node(Head(post, None), r.len)
    ensures Stored(mem, pre + [r] + post, None)
    ensures Head(pre + [r] + post, None) == Head(pre, Some(r.start))
  {
    assert StoredAt(mem, [r], Head(post, None), 0);
    StoredConcat(mem, [r], post, None);
    StoredConcat(mem, pre, [r] + post, None);
    assert pre + [r] + post == pre + ([r] + post);
  }

  /** Pointing the last run somewhere else. */
  lemma StoredRelink(mem: map<nat, Node>, runs: seq<Run>, tail: Option<nat>, last: nat, tail': Option<nat>)
    requires Stored(mem, runs, tail) && runs != [] && last == runs[|runs| - 1].start
    requires StartsElsewhere(runs[..|runs| - 1], last)
    ensures last in mem && Stored(mem[last := mem[last].(next := tail')], runs, tail')
  {
    var n := |runs| - 1;
    assert StoredAt(mem, runs, tail, n);
    var mem' := mem[last := mem[last].(next := tail')];
    forall i | 0 <= i < |runs|
      ensures StoredAt(mem', runs, tail', i)
    {
      assert StoredAt(mem, runs, tail, i);
      if i < n {
        assert runs[..n][i] == runs[i];
      }
    }
  }

  /** alloc's result: the front of run i, which is dropped when it fits exactly. */
  function Taken(runs: seq<Run>, i: nat, n: nat): (r: seq<Run>)
    requires i < |runs| && n <= runs[i].len
  {
    if n == runs[i].len then runs[..i] + runs[i + 1..]
    else runs[..i] + [Run(runs[i].start + n, runs[i].len - n)] + runs[i + 1..]
  }

  /** Taking the front of a run removes exactly its pages. */
  lemma TakenFree(runs: seq<Run>, i: nat, n: nat, p: nat)
    requires Canonical(runs) && i < |runs| && 0 < n <= runs[i].len
    ensures Free(Taken(runs, i, n), p) <==> Free(runs, p) && !Run(runs[i].start, n).Has(p)
  {
    FreeCut(runs, i, p);
    Apart(runs, i, p);
    if n == runs[i].len {
      FreeConcat(runs[..i], runs[i + 1..], p);
    } else {
      var r := Run(runs[i].start + n, runs[i].len - n);
      FreeJoin(runs[..i], r, runs[i + 1..], p);
    }
  }

  lemma TakenCanonical(runs: seq<Run>, i: nat, n: nat)
    requires Canonical(runs) && i < |runs| && 0 < n <= runs[i].len
    ensures Canonical(Taken(runs, i, n))
  {
  }

  /** r fits between runs i - 1 and i. */
  ghost predicate Between(runs: seq<Run>, i: nat, r: Run) {
    && i <= |runs| && r.len > 0
    && (i > 0 ==> runs[i - 1].start + runs[i - 1].len <= r.start)
    && (i < |runs| ==> r.start + r.len <= runs[i].start)
  }

  predicate TouchesLeft(runs: seq<Run>, i: nat, r: Run)
    requires i <= |runs|
  {
    i > 0 && runs[i - 1].start + runs[i - 1].len == r.start
  }

  predicate TouchesRight(runs: seq<Run>, i: nat, r: Run)
    requires i <= |runs|
  {
    i < |runs| && r.start + r.len == runs[i].start
  }

  /** The runs before position i, without the one that r touches. */
  function Left(runs: seq<Run>, i: nat, r: Run): (s: seq<Run>)
    requires i <= |runs|
  {
    if TouchesLeft(runs, i, r) then runs[..i - 1] else runs[..i]
  }

  /** The runs from position i on, without the one that r touches. */
  function Right(runs: seq<Run>, i: nat, r: Run): (s: seq<Run>)
    requires i <= |runs|
  {
    if TouchesRight(runs, i, r) then runs[i + 1..] else runs[i..]
  }

  /** r together with the neighbours it touches. */
  function Merged(runs: seq<Run>, i: nat, r: Run): (m: Run)
    requires i <= |runs|
  {
    Run(if TouchesLeft(runs, i, r) then runs[i - 1].start else r.start,
        (if TouchesLeft(runs, i, r) then runs[i - 1].len else 0) + r.len
        + (if TouchesRight(runs, i, r) then runs[i].len else 0))
  }

  /** free's result: r put at position i and merged with the runs it touches. */
  function Given(runs: seq<Run>, i: nat, r: Run): (s: seq<Run>)
    requires i <= |runs|
  {
    Left(runs, i, r) + [Merged(runs, i, r)] + Right(runs, i, r)
  }

  lemma CanonicalJoin(a: seq<Run>, r: Run, b: seq<Run>)
    requires Canonical(a) && Canonical(b) && r.len > 0
    requires a != [] ==> a[|a| - 1].start + a[|a| - 1].len < r.start
    requires b != [] ==> r.start + r.len < b[0].start
    ensures Canonical(a + [r] + b)
  {
  }

  lemma PartCanonical(runs: seq<Run>, i: nat, j: nat)
    requires Canonical(runs) && i <= j <= |runs|
    ensures Canonical(runs[i..j])
  {
    var s := runs[i..j];
    assert forall k :: 0 <= k < |s| ==> s[k] == runs[i + k];
  }

  lemma LeftCanonical(runs: seq<Run>, i: nat, r: Run)
    requires Canonical(runs) && Between(runs, i, r)
    ensures var a := Left(runs, i, r);
            Canonical(a) && (a != [] ==> a[|a| - 1].start + a[|a| - 1].len < Merged(runs, i, r).start)
  {
    var j := if TouchesLeft(runs, i, r) then i - 1 else i;
    PartCanonical(runs, 0, j);
    assert Left(runs, i, r) == runs[0..j];
  }

  lemma RightCanonical(runs: seq<Run>, i: nat, r: Run)
    requires Canonical(runs) && Between(runs, i, r)
    ensures var b, m := Right(runs, i, r), Merged(runs, i, r);
            Canonical(b) && (b != [] ==> m.start + m.len < b[0].start)
  {
    var j := if TouchesRight(runs, i, r) then i + 1 else i;
    PartCanonical(runs, j, |runs|);
    assert Right(runs, i, r) == runs[j..|runs|];
  }

  lemma GivenCanonical(runs: seq<Run>, i: nat, r: Run)
    requires Canonical(runs) && Between(runs, i, r)
    ensures Canonical(Given(runs, i, r))
  {
    LeftCanonical(runs, i, r);
    RightCanonical(runs, i, r);
    CanonicalJoin(Left(runs, i, r), Merged(runs, i, r), Right(runs, i, r));
  }

  lemma LeftFree(runs: seq<Run>, i: nat, r: Run, p: nat)
    requires i <= |runs|
    ensures Free(runs[..i], p) <==> Free(Left(runs, i, r), p) || (TouchesLeft(runs, i, r) && runs[i - 1].Has(p))
  {
    if TouchesLeft(runs, i, r) {
      assert runs[..i] == runs[..i - 1] + [runs[i - 1]];
      FreeConcat(runs[..i - 1], [runs[i - 1]], p);
      FreeOne(runs[i - 1], p);
    }
  }

  lemma RightFree(runs: seq<Run>, i: nat, r: Run, p: nat)
    requires i <= |runs|
    ensures Free(runs[i..], p) <==> Free(Right(runs, i, r), p) || (TouchesRight(runs, i, r) && runs[i].Has(p))
  {
    if TouchesRight(runs, i, r) {
      assert runs[i..] == [runs[i]] + runs[i + 1..];
      FreeConcat([runs[i]], runs[i + 1..], p);
      FreeOne(runs[i], p);
    }
  }

  /** Freeing adds exactly the freed pages. */
  lemma GivenFree(runs: seq<Run>, i: nat, r: Run, p: nat)
    requires Canonical(runs) && Between(runs, i, r)
    ensures Free(Given(runs, i, r), p) <==> Free(runs, p) || r.Has(p)
  {
    FreeJoin(Left(runs, i, r), Merged(runs, i, r), Right(runs, i, r), p);
    assert runs == runs[..i] + runs[i..];
    FreeConcat(runs[..i], runs[i..], p);
    LeftFree(runs, i, r, p);
    RightFree(runs, i, r, p);
  }

  // ---------- The allocator ----------

  /** Starts of earlier and later runs are not inside run i. */
  lemma Elsewhere(runs: seq<Run>, i: nat, p: nat)
    requires Canonical(runs) && i < |runs| && runs[i].start <= p <= runs[i].start + runs[i].len
    ensures StartsElsewhere(runs[..i], p) && StartsElsewhere(runs[i + 1..], p)
  {
    forall j | 0 <= j < i
      ensures runs[..i][j].start != p
    {
      Ordered(runs, j, i);
    }
    var later := runs[i + 1..];
    forall j | 0 <= j < |later|
      ensures later[j].start != p
    {
      Ordered(runs, i, i + 1 + j);
    }
  }

  /** Pages that are not free lie between two runs. */
  lemma FitsBetween(runs: seq<Run>, i: nat, r: Run)
    requires Canonical(runs) && i <= |runs| && r.len > 0
    requires forall p: nat :: r.Has(p) ==> !Free(runs, p)
    requires i > 0 ==> runs[i - 1].start <= r.start
    requires i < |runs| ==> r.start < runs[i].start
    ensures Between(runs, i, r)
  {
    if i > 0 && r.start < runs[i - 1].start + runs[i - 1].len {
      assert runs[i - 1].Has(r.start) && r.Has(r.start);
    }
    if i < |runs| && runs[i].start < r.start + r.len {
      assert runs[i].Has(runs[i].start) && r.Has(runs[i].start);
    }
  }

  /** The run before run i is not among the later ones. */
  lemma OtherStarts(runs: seq<Run>, i: nat)
    requires Canonical(runs) && i < |runs|
    ensures i > 0 ==>
              StartsElsewhere(runs[i + 1..], runs[i - 1].start) && runs[i - 1].start + runs[i - 1].len < runs[i].start
    ensures Canonical(runs[..i]) && Canonical(runs[i + 1..])
  {
    if i > 0 {
      Elsewhere(runs, i - 1, runs[i - 1].start);
      assert runs[i + 1..] == runs[i..][1..];
    }
  }

  /** Pages between two runs hold no header of the list. */
  lemma InsertStarts(runs: seq<Run>, i: nat, p: nat)
    requires Canonical(runs) && i <= |runs|
    requires i > 0 ==> runs[i - 1].start + runs[i - 1].len <= p
    requires i < |runs| ==> p < runs[i].start
    ensures StartsElsewhere(runs[..i], p) && StartsElsewhere(runs[i..], p)
    ensures i > 0 ==> StartsElsewhere(runs[i..], runs[i - 1].start)
  {
    if i > 0 {
      Elsewhere(runs, i - 1, runs[i - 1].start);
      forall j | 0 <= j < i
        ensures runs[..i][j].start != p
      {
        if j < i - 1 {
          Ordered(runs, j, i - 1);
        }
      }
    }
    if i < |runs| {
      var later := runs[i..];
      forall j | 0 <= j < |later|
        ensures later[j].start != p
      {
        if j > 0 {
          Ordered(runs, i, i + j);
        }
      }
    }
  }

  /** The merged run's header is not the header of any other run. */
  lemma MergedStarts(runs: seq<Run>, i: nat, r: Run)
    requires Canonical(runs) && Between(runs, i, r)
    ensures StartsElsewhere(Left(runs, i, r), Merged(runs, i, r).start)
    ensures StartsElsewhere(Right(runs, i, r), Merged(runs, i, r).start)
  {
    InsertStarts(runs, i, r.start);
    if TouchesLeft(runs, i, r) {
      Elsewhere(runs, i - 1, runs[i - 1].start);
    }
  }

  class Allocator {
    var mem: map<nat, Node>
    var freelist: Option<nat>
    ghost var runs: seq<Run>

    ghost predicate Valid()
      reads this
    {
      Canonical(runs) && Stored(mem, runs, None) && freelist == Head(runs, None)
    }

    /** One run: all pages from the end of the kernel to the end of memory. */
    constructor (heap: Run)
      requires heap.len > 0
      ensures Valid() && runs == [heap]
    {
      freelist := Some(heap.start);
      mem := map[heap.start := Node(None, heap.len)];
      runs := [heap];
      new;
      assert StoredAt(mem, runs, None, 0);
    }

    /** Make the list go on with `after` behind the runs `pre`: previous.next or freelist. */
    method Relink(prev: Option<nat>, after: Option<nat>, ghost pre: seq<Run>, ghost tail: Option<nat>)
      requires Canonical(pre) && Stored(mem, pre, tail) && freelist == Head(pre, tail)
      requires prev == if pre == [] then None else Some(pre[|pre| - 1].start)
      modifies this`mem, this`freelist
      ensures Stored(mem, pre, after) && freelist == Head(pre, after)
      ensures forall p :: p in old(mem) && prev != Some(p) ==> p in mem && mem[p] == old(mem)[p]
    {
      if prev.Some? {
        Elsewhere(pre, |pre| - 1, prev.value);
        assert pre[..|pre| - 1] + [pre[|pre| - 1]] == pre;
        StoredRelink(mem, pre, tail, prev.value, after);
        mem := mem[prev.value := mem[prev.value].(next := after)];
      } else {
        freelist := after;
      }
    }

    /** The first run with at least npages pages, and the one before it. */
    method Find(npages: nat) returns (prev: Option<nat>, target: Option<nat>, ghost i: nat)
      requires Valid()
      ensures i <= |runs| && target == Head(runs[i..], None)
      ensures prev == if i == 0 then None else Some(runs[i - 1].start)
      ensures forall j :: 0 <= j < i ==> runs[j].len < npages
      ensures i < |runs| ==> runs[i].len >= npages
    {
      prev, target, i := None, freelist, 0;
      assert runs != [] ==> StoredAt(mem, runs, None, 0);
      while target.Some? && mem[target.value].len < npages
        invariant i <= |runs| && target == Head(runs[i..], None)
        invariant prev == if i == 0 then None else Some(runs[i - 1].start)
        invariant forall j :: 0 <= j < i ==> runs[j].len < npages
        invariant target.Some? ==> target.value in mem
        decreases |runs| - i
      {
        assert StoredAt(mem, runs, None, i);
        prev := target;
        target := mem[target.value].next;
        i := i + 1;
        assert i < |runs| ==> StoredAt(mem, runs, None, i);
      }
      assert i < |runs| ==> StoredAt(mem, runs, None, i);
    }

    /** Allocate n bytes, rounded up to pages: the front of the first run that is long enough. */
    method Alloc(n: nat) returns (r: Option<nat>)
      requires Valid() && 0 < n <= MAXUSIZE
      modifies this
      ensures Valid()
      ensures r.None? ==>
                && runs == old(runs)
                && (n > MAXUSIZE - (PGSIZE - 1) || forall i :: 0 <= i < |runs| ==> runs[i].len * PGSIZE < n)
      ensures r.Some? ==>
                exists i: nat :: FirstFit(old(runs), i, Pages(n))
                            && r.value == old(runs)[i].start && runs == Taken(old(runs), i, Pages(n))
      ensures r.Some? ==> forall p: nat :: Free(old(runs), p) && !Free(runs, p) <==> Holds(r.value, n, p)
      ensures r.Some? ==> forall p: nat :: Free(runs, p) ==> Free(old(runs), p)
    {
      if n > MAXUSIZE - (PGSIZE - 1) {
        return None;
      }
      var npages := Pages(n);
      var prev, found, i := Find(npages);
      if found.None? {
        forall j | 0 <= j < |runs|
          ensures runs[j].len * PGSIZE < n
        {
          RoomFor(runs[j].len, n);
        }
        return None;
      }
      assert FirstFit(runs, i, npages);
      TakenCanonical(runs, i, npages);
      TakenBytes(runs, i, n);
      TakeFront(prev, found.value, npages, i);
      r := found;
    }

    /** alloc once it has found run i: drop it or cut off its front. */
    method TakeFront(prev: Option<nat>, target: nat, npages: nat, ghost i: nat)
      requires Valid() && i < |runs| && 0 < npages <= runs[i].len && target == runs[i].start
      requires prev == if i == 0 then None else Some(runs[i - 1].start)
      modifies this
      ensures runs == Taken(old(runs), i, npages) && Stored(mem, runs, None) && freelist == Head(runs, None)
    {
      CutStored(mem, runs, None, i);
      if mem[target].len == npages {
        DropRun(prev, mem[target].next, i);
      } else {
        var rest := target + npages;
        KeepRest(prev, rest, Node(mem[target].next, mem[target].len - npages), i);
      }
      runs := Taken(runs, i, npages);
    }

    method DropRun(prev: Option<nat>, after: Option<nat>, ghost i: nat)
      requires Valid() && i < |runs| && after == Head(runs[i + 1..], None)
      requires prev == if i == 0 then None else Some(runs[i - 1].start)
      modifies this`mem, this`freelist
      ensures Stored(mem, runs[..i] + runs[i + 1..], None) && freelist == Head(runs[..i] + runs[i + 1..], None)
    {
      ghost var pre, post := runs[..i], runs[i + 1..];
      CutStored(mem, runs, None, i);
      OtherStarts(runs, i);
      Relink(prev, after, pre, Some(runs[i].start));
      StoredSame(old(mem), mem, post, None);
      StoredConcat(mem, pre, post, None);
    }

    method KeepRest(prev: Option<nat>, rest: nat, node: Node, ghost i: nat)
      requires Valid() && i < |runs| && runs[i].start < rest < runs[i].start + runs[i].len
      requires node.next == Head(runs[i + 1..], None)
      requires prev == if i == 0 then None else Some(runs[i - 1].start)
      modifies this`mem, this`freelist
      ensures Stored(mem, runs[..i] + [Run(rest, node.len)] + runs[i + 1..], None)
      ensures freelist == Head(runs[..i] + [Run(rest, node.len)] + runs[i + 1..], None)
    {
      ghost var pre, post := runs[..i], runs[i + 1..];
      CutStored(mem, runs, None, i);
      OtherStarts(runs, i);
      Elsewhere(runs, i, rest);
      StoredFrame(mem, pre, Some(runs[i].start), rest, node);
      StoredFrame(mem, post, None, rest, node);
      mem := mem[rest := node];
      ghost var mem1 := mem;
      Relink(prev, Some(rest), pre, Some(runs[i].start));
      StoredSame(mem1, mem, post, None);
      JoinStored(mem, pre, Run(rest, node.len), post);
    }

    /** The runs that start before addr: `prev` is the last of them. */
    method FindPlace(addr: nat) returns (prev: Option<nat>, ghost i: nat)
      requires Valid()
      ensures i <= |runs| && prev == if i == 0 then None else Some(runs[i - 1].start)
      ensures i > 0 ==> runs[i - 1].start <= addr
      ensures i < |runs| ==> addr < runs[i].start
    {
      if freelist.None? || addr < freelist.value {
        return None, 0;
      }
      prev, i := freelist, 1;
      assert StoredAt(mem, runs, None, 0);
      while mem[prev.value].next.Some? && mem[prev.value].next.value <= addr
        invariant 1 <= i <= |runs| && prev == Some(runs[i - 1].start) && prev.value in mem
        invariant mem[prev.value].next == Head(runs[i..], None)
        invariant runs[i - 1].start <= addr
        decreases |runs| - i
      {
        assert StoredAt(mem, runs, None, i);
        prev := mem[prev.value].next;
        i := i + 1;
      }
    }

    /** Give back n bytes at page addr, which were allocated in one piece. */
    method FreePages(addr: nat, n: nat)
      requires Valid() && n > 0
      requires forall p: nat :: Run(addr, Pages(n)).Has(p) ==> !Free(runs, p)
      modifies this
      ensures Valid()
      ensures forall p: nat :: Free(runs, p) <==> Free(old(runs), p) || Run(addr, Pages(n)).Has(p)
      ensures forall p: nat :: Run(addr, Pages(n)).Has(p) <==> Holds(addr, n, p)
    {
      ghost var r := Run(addr, Pages(n));
      var prev, i := FindPlace(addr);
      FitsBetween(runs, i, r);
      GivenCanonical(runs, i, r);
      forall p: nat
        ensures Free(Given(runs, i, r), p) <==> Free(runs, p) || r.Has(p)
      {
        GivenFree(runs, i, r, p);
      }
      forall p: nat
        ensures r.Has(p) <==> Holds(addr, n, p)
      {
        PagesHold(addr, n, p);
      }
      Insert(prev, addr, Pages(n), i);
    }

    /** free once it knows the place: link the pages in and merge them with their neighbours. */
    method Insert(prev: Option<nat>, addr: nat, npages: nat, ghost i: nat)
      requires Valid() && Between(runs, i, Run(addr, npages))
      requires prev == if i == 0 then None else Some(runs[i - 1].start)
      modifies this
      ensures runs == Given(old(runs), i, Run(addr, npages)) && Stored(mem, runs, None) && freelist == Head(runs, None)
    {
      ghost var r := Run(addr, npages);
      var target, next := LinkLeft(prev, addr, npages, i);
      LinkRight(target, next, i, r);
      runs := Given(runs, i, r);
    }

    /** Put the pages behind `prev`, merged with it when they touch. */
    method LinkLeft(prev: Option<nat>, addr: nat, npages: nat, ghost i: nat) returns (target: nat, next: Option<nat>)
      requires Valid() && Between(runs, i, Run(addr, npages))
      requires prev == if i == 0 then None else Some(runs[i - 1].start)
      modifies this`mem, this`freelist
      ensures Linking(i, Run(addr, npages), target, next)
    {
      ghost var pre, rest := runs[..i], runs[i..];
      SplitStored(mem, runs, i);
      InsertStarts(runs, i, addr);
      target := addr;
      // target.len = npages; its next field still holds whatever the page held
      var node := Node(if addr in mem then mem[addr].next else None, npages);
      StoredFrame(mem, pre, Head(rest, None), addr, node);
      StoredFrame(mem, rest, None, addr, node);
      mem := mem[addr := node];
      if prev.None? {
        next := freelist;
        freelist := Some(addr);
      } else {
        next, target := LinkBehind(prev.value, addr, i, npages);
      }
    }

    method LinkBehind(prev: nat, addr: nat, ghost i: nat, ghost npages: nat) returns (next: Option<nat>, target: nat)
      requires Canonical(runs) && Between(runs, i, Run(addr, npages)) && i > 0 && prev == runs[i - 1].start
      requires Stored(mem, runs[..i], Head(runs[i..], None)) && Stored(mem, runs[i..], None)
      requires freelist == Some(runs[0].start) && addr in mem && mem[addr].len == npages
      modifies this`mem
      ensures Linking(i, Run(addr, npages), target, next)
    {
      ghost var pre, rest, tail := runs[..i], runs[i..], Head(runs[i..], None);
      InsertStarts(runs, i, addr);
      Elsewhere(runs, i - 1, prev);
      CutStored(mem, pre, tail, i - 1);
      assert pre[..i - 1] == runs[..i - 1] && pre[i..] == [];
      next := mem[prev].next;
      if prev + mem[prev].len == addr {
        target := prev;
        var node := Node(next, mem[prev].len + mem[addr].len);
        StoredFrame(mem, runs[..i - 1], Some(prev), prev, node);
        StoredFrame(mem, rest, None, prev, node);
        mem := mem[prev := node];
      } else {
        target := addr;
        StoredRelink(mem, pre, tail, prev, Some(addr));
        StoredFrame(mem, rest, None, prev, Node(Some(addr), mem[prev].len));
        mem := mem[prev := mem[prev].(next := Some(addr))];
      }
    }

    /** Link `target` to the rest of the list, merged with its first run when they touch. */
    method LinkRight(target: nat, next: Option<nat>, ghost i: nat, ghost r: Run)
      requires Canonical(runs) && Between(runs, i, r) && Linking(i, r, target, next)
      modifies this`mem
      ensures Stored(mem, Given(runs, i, r), None) && freelist == Head(Given(runs, i, r), None)
    {
      ghost var pre, post, m := Left(runs, i, r), Right(runs, i, r), Merged(runs, i, r);
      MergedStarts(runs, i, r);
      var node;
      if next.Some? && target + mem[target].len == next.value {
        CutStored(mem, runs[i..], None, 0);
        assert runs[i..][1..] == runs[i + 1..];
        node := Node(mem[next.value].next, mem[target].len + mem[next.value].len);
      } else {
        node := mem[target].(next := next);
      }
      StoredFrame(mem, pre, Some(target), target, node);
      StoredFrame(mem, post, None, target, node);
      mem := mem[target := node];
      JoinStored(mem, pre, m, post);
    }

    /** The list up to `target` is linked, the rest hangs on `next`. */
    ghost predicate Linking(i: nat, r: Run, target: nat, next: Option<nat>)
      reads this
      requires i <= |runs|
    {
      && Stored(mem, Left(runs, i, r), Some(target)) && freelist == Head(Left(runs, i, r), Some(target))
      && target == Merged(runs, i, r).start
      && target in mem && target + mem[target].len == r.start + r.len
      && Stored(mem, runs[i..], None) && next == Head(runs[i..], None)
    }
  }

  /** Run i is the first one with room for n pages. */
  ghost predicate FirstFit(runs: seq<Run>, i: nat, n: nat) {
    i < |runs| && n <= runs[i].len && forall j :: 0 <= j < i ==> runs[j].len < n
  }

  /** Taking the pages of n bytes takes exactly the pages that hold them. */
  lemma TakenBytes(runs: seq<Run>, i: nat, n: nat)
    requires Canonical(runs) && n > 0 && FirstFit(runs, i, Pages(n))
    ensures forall p: nat :: Free(runs, p) && !Free(Taken(runs, i, Pages(n)), p) <==> Holds(runs[i].start, n, p)
    ensures forall p: nat :: Free(Taken(runs, i, Pages(n)), p) ==> Free(runs, p)
  {
    forall p: nat
      ensures Free(Taken(runs, i, Pages(n)), p) ==> Free(runs, p)
      ensures Free(runs, p) && !Free(Taken(runs, i, Pages(n)), p) <==> Holds(runs[i].start, n, p)
    {
      TakenFree(runs, i, Pages(n), p);
      PagesHold(runs[i].start, n, p);
      assert runs[i].Has(p) ==> Free(runs, p);
    }
  }

  // ---------- Whole histories ----------

  /** The pages of a live allocation of n bytes at page a. */
  ghost predicate LiveAt(live: map<nat, nat>, a: nat, p: nat) {
    a in live && Run(a, Pages(live[a])).Has(p)
  }

  /** Every page of the heap is either free or part of exactly one live allocation, and no other page is. */
  ghost predicate Conserved(heap: Run, runs: seq<Run>, live: map<nat, nat>) {
    && (forall a :: a in live ==> live[a] > 0)
    && (forall p: nat :: Free(runs, p) ==> heap.Has(p))
    && (forall a: nat, p: nat :: LiveAt(live, a, p) ==> heap.Has(p) && !Free(runs, p))
    && (forall p: nat :: heap.Has(p) && !Free(runs, p) ==> exists a: nat :: LiveAt(live, a, p))
    && (forall a: nat, b: nat, p: nat :: LiveAt(live, a, p) && LiveAt(live, b, p) ==> a == b)
  }

  lemma ConservedAlloc(heap: Run, runs: seq<Run>, live: map<nat, nat>, i: nat, n: nat)
    requires Canonical(runs) && Conserved(heap, runs, live) && n > 0 && FirstFit(runs, i, Pages(n))
    ensures runs[i].start !in live
    ensures Conserved(heap, Taken(runs, i, Pages(n)), live[runs[i].start := n])
  {
    var a, t, live' := runs[i].start, Taken(runs, i, Pages(n)), live[runs[i].start := n];
    assert runs[i].Has(a) && Free(runs, a);
    assert a in live ==> LiveAt(live, a, a);
    forall p: nat
      ensures Free(t, p) <==> Free(runs, p) && !Run(a, Pages(n)).Has(p)
    {
      TakenFree(runs, i, Pages(n), p);
    }
    forall p: nat | Run(a, Pages(n)).Has(p)
      ensures Free(runs, p)
    {
      assert runs[i].Has(p);
    }
    assert forall b: nat, p: nat :: LiveAt(live', b, p) <==>
        (if b == a then Run(a, Pages(n)).Has(p) else LiveAt(live, b, p));
    forall p: nat | heap.Has(p) && !Free(t, p)
      ensures exists b: nat :: LiveAt(live', b, p)
    {
      if Run(a, Pages(n)).Has(p) {
        assert LiveAt(live', a, p);
      } else {
        var b: nat :| LiveAt(live, b, p);
        assert LiveAt(live', b, p);
      }
    }
  }

  lemma ConservedFree(heap: Run, runs: seq<Run>, runs': seq<Run>, live: map<nat, nat>, a: nat)
    requires Conserved(heap, runs, live) && a in live
    requires forall p: nat :: Free(runs', p) <==> Free(runs, p) || Run(a, Pages(live[a])).Has(p)
    ensures Conserved(heap, runs', live - {a})
  {
    forall p: nat
      ensures LiveAt(live, a, p) <==> Run(a, Pages(live[a])).Has(p)
    {
    }
    assert forall b: nat, p: nat :: LiveAt(live - {a}, b, p) <==> b != a && LiveAt(live, b, p);
  }

  /** With nothing live, the free list is the single run it started as. */
  lemma AllFreed(heap: Run, runs: seq<Run>)
    requires Canonical(runs) && heap.len > 0 && Conserved(heap, runs, map[])
    ensures runs == [heap]
  {
    forall p: nat
      ensures Free([heap], p) <==> Free(runs, p)
    {
      FreeOne(heap, p);
    }
    CanonicalUnique(runs, [heap]);
  }

  datatype Op = Get(n: nat) | Put(a: nat)

  ghost predicate Sound(al: Allocator, heap: Run, live: map<nat, nat>)
    reads al
  {
    al.Valid() && Conserved(heap, al.runs, live)
  }

  method GetPages(al: Allocator, ghost heap: Run, live: map<nat, nat>, n: nat) returns (live': map<nat, nat>)
    requires Sound(al, heap, live) && 0 < n <= MAXUSIZE
    modifies al
    ensures Sound(al, heap, live')
  {
    ghost var before := al.runs;
    var r := al.Alloc(n);
    live' := live;
    if r.Some? {
      ghost var k: nat :| FirstFit(before, k, Pages(n)) && r.value == before[k].start &&
          al.runs == Taken(before, k, Pages(n));
      ConservedAlloc(heap, before, live, k, n);
      live' := live[r.value := n];
    }
  }

  method PutPages(al: Allocator, ghost heap: Run, live: map<nat, nat>, a: nat) returns (live': map<nat, nat>)
    requires Sound(al, heap, live) && a in live
    modifies al
    ensures Sound(al, heap, live')
  {
    ghost var before := al.runs;
    NotFree(heap, before, live, a);
    al.FreePages(a, live[a]);
    ConservedFree(heap, before, al.runs, live, a);
    live' := live - {a};
  }

  /** Any history of allocations and frees; frees of anything but a live allocation are left out. */
  method History(heap: Run, ops: seq<Op>) returns (al: Allocator, live: map<nat, nat>)
    requires heap.len > 0
    ensures Sound(al, heap, live)
    ensures live == map[] ==> al.runs == [heap]
  {
    al := new Allocator(heap);
    live := map[];
    FreshConserved(heap);
    for i := 0 to |ops|
      invariant fresh(al) && Sound(al, heap, live)
    {
      match ops[i]
      case Get(n) =>
        if 0 < n <= MAXUSIZE {
          live := GetPages(al, heap, live, n);
        }
      case Put(a) =>
        if a in live {
          live := PutPages(al, heap, live, a);
        }
    }
    if live == map[] {
      AllFreed(heap, al.runs);
    }
  }

  lemma FreshConserved(heap: Run)
    requires heap.len > 0
    ensures Conserved(heap, [heap], map[])
  {
    forall p: nat
      ensures Free([heap], p) <==> heap.Has(p)
    {
      FreeOne(heap, p);
    }
  }

  lemma NotFree(heap: Run, runs: seq<Run>, live: map<nat, nat>, a: nat)
    requires Conserved(heap, runs, live) && a in live
    ensures live[a] > 0 && forall p: nat :: Run(a, Pages(live[a])).Has(p) ==> !Free(runs, p)
  {
    forall p: nat | Run(a, Pages(live[a])).Has(p)
      ensures !Free(runs, p)
    {
      assert LiveAt(live, a, p);
    }
  }
}

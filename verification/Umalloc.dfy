/**
 The allocator of user/umalloc.c (Kernighan and Ritchie, The C Programming Language,
 2nd ed., section 8.7).  Addresses and sizes are counted in headers.  The free list is
 a ring through base, an empty block below all memory from sbrk; the free blocks
 above it are a fully merged list of runs in address order.
 */
module Umalloc {
  import opened Common
  import opened PageRuns

  const BASE: nat := 1          // the address of the static header
  const MINCORE: nat := 4096
  const UNIT: nat := 16         // sizeof(Header)

  // ---------- The ring ----------

  /** The blocks of the ring, beginning with base */
  function Nodes(runs: seq<Run>): (s: seq<Run>)
    ensures |s| == |runs| + 1 && s[0] == Run(BASE, 0) && forall k :: 0 < k < |s| ==> s[k] == runs[k - 1]
  {
    [Run(BASE, 0)] + runs
  }

  ghost predicate AboveBase(runs: seq<Run>) {
    Canonical(runs) && forall i :: 0 <= i < |runs| ==> runs[i].start > BASE
  }

  /** The headers in memory form the ring: the last one points back to base. */
  ghost predicate Ring(mem: map<nat, Node>, runs: seq<Run>) {
    AboveBase(runs) && Stored(mem, Nodes(runs), Some(BASE))
  }

  /** The block after block k, around the ring */
  function After(runs: seq<Run>, k: nat): (j: nat)
    requires k <= |runs|
    ensures j <= |runs|
  {
    if k == |runs| then 0 else k + 1
  }

  /** What the header of block k says */
  lemma NodeAt(mem: map<nat, Node>, runs: seq<Run>, k: nat)
    requires Ring(mem, runs) && k <= |runs|
    ensures var n := Nodes(runs);
            n[k].start in mem && mem[n[k].start] == Node(Some(n[After(runs, k)].start), n[k].len)
  {
    var n := Nodes(runs);
    assert StoredAt(mem, n, Some(BASE), k);
    if k < |runs| {
      assert n[k + 1..][0] == n[k + 1];
    }
  }

  /** Addresses ascend along the ring, so there is a single place where they wrap. */
  lemma NodeOrder(runs: seq<Run>, j: nat, k: nat)
    requires AboveBase(runs) && j < k <= |runs|
    ensures Nodes(runs)[j].start + Nodes(runs)[j].len < Nodes(runs)[k].start
  {
    if j > 0 {
      Ordered(runs, j - 1, k - 1);
    }
  }

  /** Block k is the one after which a block at address a belongs. */
  predicate Place(runs: seq<Run>, k: nat, a: nat)
    requires k <= |runs|
  {
    Nodes(runs)[k].start < a && (k < |runs| ==> a < Nodes(runs)[k + 1].start)
  }

  /** free's test for the place, on addresses only */
  predicate Stops(p: nat, next: nat, bp: nat) {
    (bp > p && bp < next) || (p >= next && (bp > p || bp < next))
  }

  /** The test succeeds at the place and nowhere else. */
  lemma StopsAtPlace(runs: seq<Run>, k: nat, a: nat)
    requires AboveBase(runs) && k <= |runs| && a > BASE
    ensures Stops(Nodes(runs)[k].start, Nodes(runs)[After(runs, k)].start, a) <==> Place(runs, k, a)
  {
    if k < |runs| {
      NodeOrder(runs, k, k + 1);
    } else if k > 0 {
      NodeOrder(runs, 0, k);
    }
  }

  lemma {:induction false} PlaceExists(runs: seq<Run>, k: nat, a: nat) returns (i: nat)
    requires k <= |runs| && Nodes(runs)[k].start < a && forall i :: 0 <= i < |runs| ==> runs[i].start != a
    ensures i <= |runs| && Place(runs, i, a)
    decreases |runs| - k
  {
    if k == |runs| || a < Nodes(runs)[k + 1].start {
      i := k;
    } else {
      assert runs[k].start != a;
      i := PlaceExists(runs, k + 1, a);
    }
  }

  /** How many steps around a ring of n + 1 blocks lead from block j to block k */
  function Steps(n: nat, j: nat, k: nat): (d: nat)
    requires j <= n && k <= n
  {
    if j <= k then k - j else n + 1 - j + k
  }

  // ---------- Rebuilding the ring ----------

  lemma JoinTail(mem: map<nat, Node>, pre: seq<Run>, r: Run, post: seq<Run>, tail: Option<nat>)
    requires Stored(mem, pre, Some(r.start)) && Stored(mem, post, tail)
    requires r.start in mem && mem[r.start] == Node(Head(post, tail), r.len)
    ensures Stored(mem, pre + [r] + post, tail)
  {
    assert StoredAt(mem, [r], Head(post, tail), 0);
    StoredConcat(mem, [r], post, tail);
    StoredConcat(mem, pre, [r] + post, tail);
    assert pre + [r] + post == pre + ([r] + post);
  }

  /** The ring cut at block k */
  lemma CutRing(mem: map<nat, Node>, runs: seq<Run>, k: nat)
    requires Ring(mem, runs) && k <= |runs|
    ensures var n := Nodes(runs);
            && Stored(mem, n[..k], Some(n[k].start)) && Stored(mem, n[k + 1..], Some(BASE))
            && n[k].start in mem && mem[n[k].start] == Node(Head(n[k + 1..], Some(BASE)), n[k].len)
            && n[k + 1..] == runs[k..]
  {
    CutStored(mem, Nodes(runs), Some(BASE), k);
  }

  lemma NodesElsewhere(runs: seq<Run>, k: nat, a: nat)
    requires AboveBase(runs) && k <= |runs| && Nodes(runs)[k].start <= a
    requires k < |runs| ==> a < Nodes(runs)[k + 1].start
    ensures StartsElsewhere(Nodes(runs)[..k], a) && StartsElsewhere(runs[k..], a)
  {
    var n := Nodes(runs);
    var before, later := n[..k], runs[k..];
    forall j | 0 <= j < |before|
      ensures before[j].start != a
    {
      NodeOrder(runs, j, k);
    }
    forall j | 0 <= j < |later|
      ensures later[j].start != a
    {
      if j > 0 {
        NodeOrder(runs, k + 1, k + 1 + j);
      }
    }
  }

  ghost predicate OnRing(runs: seq<Run>, a: nat) {
    exists k :: 0 <= k <= |runs| && Nodes(runs)[k].start == a
  }

  /** Headers that belong neither to the ring nor to block bp stay as they are. */
  ghost predicate Untouched(mem: map<nat, Node>, mem': map<nat, Node>, runs: seq<Run>, bp: nat) {
    forall a :: a in mem && a != bp && !OnRing(runs, a) ==> a in mem' && mem'[a] == mem[a]
  }

  /** free's first step: the block points to what follows, and swallows the block behind it if they touch. */
  ghost predicate Fronted(mem: map<nat, Node>, mem': map<nat, Node>, runs: seq<Run>, k: nat, r: Run)
    requires k <= |runs|
  {
    mem' == mem[r.start := Node(Head(Right(runs, k, r), Some(BASE)), r.len + if TouchesRight(runs, k, r)
        then runs[k].len else 0)]
  }

  lemma FrontedRing(mem: map<nat, Node>, mem': map<nat, Node>, runs: seq<Run>, k: nat, r: Run)
    requires Ring(mem, runs) && k <= |runs| && Place(runs, k, r.start) && Fronted(mem, mem', runs, k, r)
    ensures Stored(mem', Right(runs, k, r), Some(BASE))
    ensures Stored(mem', Nodes(runs)[..k], Some(Nodes(runs)[k].start))
    ensures Nodes(runs)[k].start in mem' && mem'[Nodes(runs)[k].start] == mem[Nodes(runs)[k].start]
  {
    CutRing(mem, runs, k);
    NodesElsewhere(runs, k, r.start);
    if k < |runs| {
      CutRing(mem, runs, k + 1);
      NodesElsewhere(runs, k, r.start);
      var later := runs[k + 1..];
      forall j | 0 <= j < |later|
        ensures later[j].start != r.start
      {
        assert runs[k..][j + 1] == later[j];
      }
    }
    StoredFrame(mem, Right(runs, k, r), Some(BASE), r.start, mem'[r.start]);
    StoredFrame(mem, Nodes(runs)[..k], Some(Nodes(runs)[k].start), r.start, mem'[r.start]);
  }

  /** free's second step when the block before touches it: that block swallows it. */
  lemma SwallowedRing(mem: map<nat, Node>, runs: seq<Run>, k: nat, r: Run, last: Node)
    requires AboveBase(runs) && k <= |runs| && Place(runs, k, r.start) && TouchesLeft(runs, k, r)
    requires Stored(mem, Right(runs, k, r), Some(BASE)) && Stored(mem, Nodes(runs)[..k], Some(Nodes(runs)[k].start))
    requires last == Node(Head(Right(runs, k, r), Some(BASE)), Merged(runs, k, r).len)
    ensures Stored(mem[Nodes(runs)[k].start := last], Nodes(Given(runs, k, r)), Some(BASE))
  {
    var n := Nodes(runs);
    var p, mem' := n[k].start, mem[n[k].start := last];
    NodesElsewhere(runs, k, p);
    RightElsewhere(runs, k, r, p);
    StoredFrame(mem, n[..k], Some(p), p, last);
    StoredFrame(mem, Right(runs, k, r), Some(BASE), p, last);
    JoinTail(mem', n[..k], Merged(runs, k, r), Right(runs, k, r), Some(BASE));
    assert Nodes(Given(runs, k, r)) == n[..k] + [Merged(runs, k, r)] + Right(runs, k, r);
  }

  lemma RightElsewhere(runs: seq<Run>, k: nat, r: Run, a: nat)
    requires k <= |runs| && StartsElsewhere(runs[k..], a)
    ensures StartsElsewhere(Right(runs, k, r), a)
  {
    var right := Right(runs, k, r);
    forall j | 0 <= j < |right|
      ensures right[j].start != a
    {
      if TouchesRight(runs, k, r) {
        assert runs[k..][j + 1] == right[j];
      }
    }
  }

  /** Otherwise the block before points to it. */
  lemma LinkedRing(mem: map<nat, Node>, runs: seq<Run>, k: nat, r: Run)
    requires AboveBase(runs) && k <= |runs| && Place(runs, k, r.start) && !TouchesLeft(runs, k, r)
    requires Stored(mem, Right(runs, k, r), Some(BASE)) && Stored(mem, Nodes(runs)[..k], Some(Nodes(runs)[k].start))
    requires r.start in mem && mem[r.start] == Node(Head(Right(runs, k, r), Some(BASE)), Merged(runs, k, r).len)
    ensures Stored(mem[Nodes(runs)[k].start := Node(Some(r.start), Nodes(runs)[k].len)], Nodes(Given(runs, k, r)),
            Some(BASE))
  {
    var n, right, m := Nodes(runs), Right(runs, k, r), Merged(runs, k, r);
    var p := n[k].start;
    var last := Node(Some(r.start), n[k].len);
    var mem' := mem[p := last];
    NodesElsewhere(runs, k, p);
    RightElsewhere(runs, k, r, p);
    StoredFrame(mem, n[..k], Some(p), p, last);
    StoredFrame(mem, right, Some(BASE), p, last);
    JoinTail(mem', [], m, right, Some(BASE));
    assert [] + [m] + right == [m] + right;
    JoinTail(mem', n[..k], n[k], [m] + right, Some(BASE));
    GivenNodes(runs, k, r);
  }

  lemma GivenNodes(runs: seq<Run>, k: nat, r: Run)
    requires k <= |runs| && !TouchesLeft(runs, k, r)
    ensures Nodes(Given(runs, k, r)) ==
            Nodes(runs)[..k] + [Nodes(runs)[k]] + ([Merged(runs, k, r)] + Right(runs, k, r))
  {
    var n := Nodes(runs);
    assert n[..k] + [n[k]] == [n[0]] + runs[..k];
  }

  // ---------- Taking a block ----------

  /** malloc's result: the end of run i, or the whole run when it fits exactly */
  function Kept(runs: seq<Run>, i: nat, n: nat): (r: seq<Run>)
    requires i < |runs| && n <= runs[i].len
  {
    if n == runs[i].len then runs[..i] + runs[i + 1..]
    else runs[..i] + [Run(runs[i].start, runs[i].len - n)] + runs[i + 1..]
  }

  function Cut(runs: seq<Run>, i: nat, n: nat): (r: Run)
    requires i < |runs| && n <= runs[i].len
  {
    Run(runs[i].start + runs[i].len - n, n)
  }

  lemma KeptFree(runs: seq<Run>, i: nat, n: nat, p: nat)
    requires Canonical(runs) && i < |runs| && 0 < n <= runs[i].len
    ensures Free(Kept(runs, i, n), p) <==> Free(runs, p) && !Cut(runs, i, n).Has(p)
    ensures Cut(runs, i, n).Has(p) ==> Free(runs, p)
  {
    FreeCut(runs, i, p);
    Apart(runs, i, p);
    if n == runs[i].len {
      FreeConcat(runs[..i], runs[i + 1..], p);
    } else {
      FreeJoin(runs[..i], Run(runs[i].start, runs[i].len - n), runs[i + 1..], p);
    }
  }

  lemma KeptAbove(runs: seq<Run>, i: nat, n: nat)
    requires AboveBase(runs) && i < |runs| && 0 < n <= runs[i].len
    ensures AboveBase(Kept(runs, i, n))
  {
  }

  /** A block that fits exactly is taken out of the ring by the block before it. */
  lemma DroppedRing(mem: map<nat, Node>, runs: seq<Run>, i: nat)
    requires Ring(mem, runs) && i < |runs|
    ensures var n := Nodes(runs);
            n[i].start in mem && Stored(mem[n[i].start := mem[n[i].start].(next := Head(n[i + 2..], Some(BASE)))],
                                        Nodes(Kept(runs, i, runs[i].len)), Some(BASE))
  {
    var n := Nodes(runs);
    var p := n[i].start;
    CutRing(mem, runs, i);
    CutRing(mem, runs, i + 1);
    NodesElsewhere(runs, i, p);
    NodeOrder(runs, i, i + 1);
    var before, later := n[..i], n[i + 2..];
    forall j | 0 <= j < |later|
      ensures later[j].start != p
    {
      assert runs[i..][j + 1] == later[j];
    }
    var node := mem[p].(next := Head(later, Some(BASE)));
    StoredFrame(mem, before, Some(p), p, node);
    StoredFrame(mem, later, Some(BASE), p, node);
    JoinTail(mem[p := node], before, n[i], later, Some(BASE));
    assert Nodes(Kept(runs, i, runs[i].len)) == before + [n[i]] + later;
  }

  /** A larger block keeps its start. */
  lemma ShrunkRing(mem: map<nat, Node>, runs: seq<Run>, i: nat, n: nat)
    requires Ring(mem, runs) && i < |runs| && 0 < n < runs[i].len
    ensures var p := runs[i].start;
            p in mem && mem[p].len == runs[i].len &&
                Stored(mem[p := mem[p].(len := runs[i].len - n)], Nodes(Kept(runs, i, n)), Some(BASE))
  {
    var nodes := Nodes(runs);
    var p := runs[i].start;
    CutRing(mem, runs, i + 1);
    NodesElsewhere(runs, i + 1, p);
    var before, later := nodes[..i + 1], nodes[i + 2..];
    var node := mem[p].(len := runs[i].len - n);
    StoredFrame(mem, before, Some(p), p, node);
    StoredFrame(mem, later, Some(BASE), p, node);
    JoinTail(mem[p := node], before, Run(p, runs[i].len - n), later, Some(BASE));
    assert Nodes(Kept(runs, i, n)) == before + [Run(p, runs[i].len - n)] + later;
  }

  // ---------- Free and live blocks tile the memory ----------

  ghost predicate InBlock(live: map<nat, nat>, a: nat, p: nat) {
    a in live && Run(a, live[a]).Has(p)
  }

  /** Every unit of the heap is free or part of exactly one live block, and no other unit is. */
  ghost predicate Tiles(heap: iset<nat>, runs: seq<Run>, live: map<nat, nat>) {
    && (forall a :: a in live ==> live[a] > 0)
    && (forall p: nat :: Free(runs, p) ==> p in heap)
    && (forall a: nat, p: nat :: InBlock(live, a, p) ==> p in heap && !Free(runs, p))
    && (forall p: nat :: p in heap && !Free(runs, p) ==> exists a: nat :: InBlock(live, a, p))
    && (forall a: nat, b: nat, p: nat :: InBlock(live, a, p) && InBlock(live, b, p) ==> a == b)
  }

  lemma TilesTake(heap: iset<nat>, runs: seq<Run>, live: map<nat, nat>, runs': seq<Run>, r: Run)
    requires Tiles(heap, runs, live) && r.len > 0
    requires forall p: nat :: Free(runs', p) <==> Free(runs, p) && !r.Has(p)
    requires forall p: nat :: r.Has(p) ==> Free(runs, p)
    ensures r.start !in live && Tiles(heap, runs', live[r.start := r.len])
  {
    var live' := live[r.start := r.len];
    assert r.Has(r.start);
    assert r.start in live ==> InBlock(live, r.start, r.start);
    assert forall b: nat, p: nat :: InBlock(live', b, p) <==> (if b == r.start then r.Has(p) else InBlock(live, b, p));
    forall p: nat | p in heap && !Free(runs', p)
      ensures exists b: nat :: InBlock(live', b, p)
    {
      if r.Has(p) {
        assert InBlock(live', r.start, p);
      } else {
        var b: nat :| InBlock(live, b, p);
        assert InBlock(live', b, p);
      }
    }
  }

  lemma TilesGive(heap: iset<nat>, runs: seq<Run>, live: map<nat, nat>, runs': seq<Run>, a: nat)
    requires Tiles(heap, runs, live) && a in live
    requires forall p: nat :: Free(runs', p) <==> Free(runs, p) || Run(a, live[a]).Has(p)
    ensures Tiles(heap, runs', live - {a})
  {
    forall p: nat
      ensures InBlock(live, a, p) <==> Run(a, live[a]).Has(p)
    {
    }
    assert forall b: nat, p: nat :: InBlock(live - {a}, b, p) <==> b != a && InBlock(live, b, p);
  }

  ghost function Grown(heap: iset<nat>, r: Run): (h: iset<nat>) {
    iset p: nat | p in heap || r.Has(p)
  }

  lemma TilesGrow(heap: iset<nat>, runs: seq<Run>, live: map<nat, nat>, runs': seq<Run>, r: Run)
    requires Tiles(heap, runs, live) && forall p: nat :: r.Has(p) ==> p !in heap
    requires forall p: nat :: Free(runs', p) <==> Free(runs, p) || r.Has(p)
    ensures Tiles(Grown(heap, r), runs', live)
  {
  }

  lemma TilesGiven(heap: iset<nat>, was: seq<Run>, live: map<nat, nat>, k: nat, r: Run)
    requires Tiles(heap, was, live) && Canonical(was) && Between(was, k, r) && forall p: nat :: r.Has(p) ==> p !in heap
    ensures Tiles(Grown(heap, r), Given(was, k, r), live)
  {
    forall p: nat
      ensures Free(Given(was, k, r), p) <==> Free(was, p) || r.Has(p)
    {
      GivenFree(was, k, r, p);
    }
    TilesGrow(heap, was, live, Given(was, k, r), r);
  }

  lemma HeadedStays(m: map<nat, Node>, m1: map<nat, Node>, m2: map<nat, Node>, runs: seq<Run>, live: map<nat, nat>,
                    hp: nat)
    requires forall a :: a in live ==> a in m && m[a].len == live[a] && !OnRing(runs, a)
    requires hp !in live && hp in m1 && m1 == m[hp := m1[hp]] && Untouched(m1, m2, runs, hp)
    ensures forall a :: a in live ==> a in m2 && m2[a].len == live[a]
  {
  }

  // ---------- What malloc's hit leaves ----------

  lemma TakeTiles(heap: iset<nat>, runs: seq<Run>, live: map<nat, nat>, i: nat, n: nat)
    requires Tiles(heap, runs, live) && Canonical(runs) && i < |runs| && 0 < n <= runs[i].len
    ensures var r := Cut(runs, i, n); r.start !in live && Tiles(heap, Kept(runs, i, n), live[r.start := n])
  {
    var kept, r := Kept(runs, i, n), Cut(runs, i, n);
    forall p: nat
      ensures Free(kept, p) <==> Free(runs, p) && !r.Has(p)
      ensures r.Has(p) ==> Free(runs, p)
    {
      KeptFree(runs, i, n, p);
    }
    TilesTake(heap, runs, live, kept, r);
  }

  lemma TakeHeads(heap: iset<nat>, runs: seq<Run>, live: map<nat, nat>, m: map<nat, Node>, m': map<nat, Node>, hdr: nat,
                  n: nat)
    requires Tiles(heap, runs, live) && Canonical(runs) && forall p :: p in heap ==> p > BASE
    requires forall a :: a in live ==> a in m && m[a].len == live[a]
    requires Untouched(m, m', runs, hdr) && hdr in m' && m'[hdr].len == n
    ensures forall a :: a in live[hdr := n] ==> a in m' && m'[a].len == live[hdr := n][a]
  {
    LiveOffRing(heap, runs, live);
  }

  lemma TakeOnRing(runs: seq<Run>, i: nat, n: nat)
    requires i < |runs| && 0 < n <= runs[i].len
    ensures OnRing(Kept(runs, i, n), Nodes(runs)[i].start)
  {
    assert Nodes(Kept(runs, i, n))[i].start == Nodes(runs)[i].start;
  }

  // ---------- The allocator ----------

  class Heap {
    var mem: map<nat, Node>      // headers by address
    var freep: Option<nat>       // null before the first malloc
    ghost var runs: seq<Run>     // the free blocks
    ghost var live: map<nat, nat>
    ghost var heap: iset<nat>    // everything sbrk has given

    ghost predicate Linked()
      reads this
    {
      freep.Some? && Ring(mem, runs) && OnRing(runs, freep.value)
    }

    /** Live headers hold their block's size. */
    ghost predicate Headed()
      reads this
    {
      forall a :: a in live ==> a in mem && mem[a].len == live[a]
    }

    ghost predicate Valid()
      reads this
    {
      && (if freep == None then runs == [] && live == map[] else Ring(mem, runs) && OnRing(runs, freep.value))
      && Tiles(heap, runs, live) && Headed() && forall p :: p in heap ==> p > BASE
    }

    constructor ()
      ensures Valid() && live == map[] && runs == []
    {
      mem, freep := map[], None;
      runs, live, heap := [], map[], iset{};
    }

    /** The loop of free: the block after which bp belongs */
    method FindSpot(bp: nat) returns (p: nat, ghost k: nat)
      requires Linked() && bp > BASE && forall i :: 0 <= i < |runs| ==> runs[i].start != bp
      ensures k <= |runs| && p == Nodes(runs)[k].start && Place(runs, k, bp)
    {
      p := freep.value;
      k :| 0 <= k <= |runs| && Nodes(runs)[k].start == p;
      ghost var target := PlaceExists(runs, 0, bp);
      NodeAt(mem, runs, k);
      StopsAtPlace(runs, k, bp);
      while !(bp > p && bp < mem[p].next.value)
        invariant k <= |runs| && p == Nodes(runs)[k].start && p in mem
        invariant mem[p].next == Some(Nodes(runs)[After(runs, k)].start)
        invariant Stops(p, mem[p].next.value, bp) <==> Place(runs, k, bp)
        decreases Steps(|runs|, k, target)
      {
        if p >= mem[p].next.value && (bp > p || bp < mem[p].next.value) {
          break;
        }
        assert k != target;
        p, k := mem[p].next.value, After(runs, k);
        NodeAt(mem, runs, k);
        StopsAtPlace(runs, k, bp);
      }
    }

    /** free's first step */
    method Forward(p: nat, bp: nat, ghost r: Run, ghost k: nat)
      requires Ring(mem, runs) && k <= |runs| && p == Nodes(runs)[k].start && p in mem && bp > BASE
      requires mem[p].next == Some(Nodes(runs)[After(runs, k)].start)
      requires r == Run(bp, r.len) && r.len > 0 && bp in mem && mem[bp].len == r.len
      modifies this`mem
      ensures Fronted(old(mem), mem, runs, k, r)
    {
      var next := mem[p].next.value;
      NodeAt(mem, runs, After(runs, k));
      CutRing(mem, runs, After(runs, k));
      if bp + mem[bp].len == next {
        assert TouchesRight(runs, k, r);
        mem := mem[bp := Node(mem[next].next, mem[bp].len + mem[next].len)];
      } else {
        mem := mem[bp := mem[bp].(next := Some(next))];
      }
    }

    /** free's second step */
    method Backward(p: nat, bp: nat, ghost r: Run, ghost k: nat)
      requires AboveBase(runs) && k <= |runs| && p == Nodes(runs)[k].start && p in mem
      requires mem[p].len == Nodes(runs)[k].len
      requires Place(runs, k, bp) && r == Run(bp, r.len) && bp in mem && bp > BASE
      requires mem[bp] == Node(Head(Right(runs, k, r), Some(BASE)), r.len + if TouchesRight(runs, k, r)
               then runs[k].len else 0)
      requires Stored(mem, Right(runs, k, r), Some(BASE)) && Stored(mem, Nodes(runs)[..k], Some(p))
      modifies this`mem
      ensures Stored(mem, Nodes(Given(runs, k, r)), Some(BASE))
      ensures p in mem && mem == old(mem)[p := mem[p]]
    {
      if p + mem[p].len == bp {
        assert TouchesLeft(runs, k, r);
        SwallowedRing(mem, runs, k, r, Node(mem[bp].next, mem[p].len + mem[bp].len));
        mem := mem[p := Node(mem[bp].next, mem[p].len + mem[bp].len)];
      } else {
        LinkedRing(mem, runs, k, r);
        mem := mem[p := mem[p].(next := Some(bp))];
      }
    }

    /** free of a block that is not on the list: it goes to its place and merges with what it touches. */
    method Link(bp: nat, ghost r: Run, ghost was: seq<Run>) returns (ghost k: nat)
      requires Linked() && r == Run(bp, r.len) && r.len > 0 && bp > BASE && bp in mem && mem[bp].len == r.len
      requires was == runs
      requires forall p: nat :: r.Has(p) ==> !Free(runs, p)
      modifies this`mem, this`freep, this`runs
      ensures Linked() && k <= |was| && Between(was, k, r) && runs == Given(was, k, r)
      ensures Untouched(old(mem), mem, was, bp)
    {
      var p;
      NotStart(runs, r);
      p, k := FindSpot(bp);
      PlaceBetween(runs, k, r);
      NodeAt(mem, runs, k);
      Forward(p, bp, r, k);
      FrontedRing(old(mem), mem, runs, k, r);
      Backward(p, bp, r, k);
      GivenAbove(runs, k, r);
      runs := Given(runs, k, r);
      freep := Some(p);
      assert Nodes(runs)[k].start == p;
    }

    /** free of a live block */
    method FreeBlock(bp: nat)
      requires Valid() && bp in live
      modifies this
      ensures Valid() && freep.Some? && live == old(live) - {bp} && heap == old(heap)
      ensures forall p: nat :: Free(runs, p) <==> Free(old(runs), p) || Run(bp, old(live)[bp]).Has(p)
    {
      ghost var r, was := Run(bp, live[bp]), runs;
      LiveApart(heap, runs, live, bp);
      ghost var k := Link(bp, r, was);
      forall p: nat
        ensures Free(runs, p) <==> Free(was, p) || r.Has(p)
      {
        GivenFree(was, k, r, p);
      }
      TilesGive(heap, was, live, runs, bp);
      LiveOffRing(heap, was, live);
      live := live - {bp};
    }

    /** morecore: nu or more units from sbrk, which gives memory above all it has given before, at core */
    method MoreCore(nu: nat, core: Option<nat>) returns (ok: bool)
      requires Valid() && freep.Some? && nu > 0
      requires core.Some? ==> core.value > BASE && forall p :: p in heap ==> p < core.value
      modifies this`mem, this`freep, this`runs, this`heap
      ensures Valid() && freep.Some? && ok == core.Some?
      ensures !ok ==> mem == old(mem) && freep == old(freep) && runs == old(runs) && heap == old(heap)
      ensures ok ==> heap == Grown(old(heap), Run(core.value, Core(nu))) && !NoFit(runs, nu)
    {
      ok := core.Some?;
      if ok {
        var n := if nu < MINCORE then MINCORE else nu;
        ghost var r, was := Run(core.value, n), runs;
        CoreApart(heap, runs, live, mem, r);
        ghost var k := LinkCore(core.value, n);
        TilesGiven(heap, was, live, k, r);
        heap := Grown(heap, r);
        MergedFits(was, k, r, nu);
      }
    }

    /** The new block gets its header and is linked like one that is freed. */
    method LinkCore(hp: nat, n: nat) returns (ghost k: nat)
      requires Valid() && Linked() && n > 0 && hp > BASE && hp !in live
      requires forall p: nat :: Run(hp, n).Has(p) ==> p !in heap && !Free(runs, p)
      requires forall i :: 0 <= i < |runs| ==> runs[i].start != hp
      modifies this`mem, this`freep, this`runs
      ensures Linked() && Headed() && k <= |old(runs)| && Between(old(runs), k, Run(hp, n))
      ensures runs == Given(old(runs), k, Run(hp, n))
    {
      ghost var m := mem;
      mem := mem[hp := Node(None, n)];
      RingSame(m, mem, runs, hp);
      k := Link(hp, Run(hp, n), runs);
      LiveOffRing(heap, old(runs), live);
      HeadedStays(m, m[hp := Node(None, n)], mem, old(runs), live, hp);
    }

    /** malloc's hit, when the block fits exactly: it leaves the ring. */
    method TakeWhole(prev: nat, p: nat, ghost j: nat)
      requires Ring(mem, runs) && 0 < j <= |runs| && prev == Nodes(runs)[j - 1].start && p == Nodes(runs)[j].start
      modifies this`mem
      ensures Ring(mem, Kept(runs, j - 1, runs[j - 1].len))
      ensures p in mem && mem[p].len == runs[j - 1].len && Untouched(old(mem), mem, runs, p)
    {
      ghost var i := j - 1;
      NodeAt(mem, runs, j);
      NodeAt(mem, runs, i);
      CutRing(mem, runs, j);
      KeptAbove(runs, i, runs[i].len);
      DroppedRing(mem, runs, i);
      NodeOrder(runs, i, j);
      mem := mem[prev := mem[prev].(next := mem[p].next)];
    }

    /** malloc's hit, when the block is larger: its end is cut off. */
    method TakeEnd(p: nat, n: nat, ghost j: nat) returns (hdr: nat)
      requires Ring(mem, runs) && 0 < j <= |runs| && p == Nodes(runs)[j].start && 0 < n < runs[j - 1].len
      modifies this`mem
      ensures Ring(mem, Kept(runs, j - 1, n)) && hdr == Cut(runs, j - 1, n).start
      ensures hdr in mem && mem[hdr].len == n && Untouched(old(mem), mem, runs, hdr)
    {
      ghost var i := j - 1;
      KeptAbove(runs, i, n);
      KeptElsewhere(runs, i, n);
      ShrunkRing(mem, runs, i, n);
      mem := mem[p := mem[p].(len := mem[p].len - n)];
      hdr := p + mem[p].len;
      ghost var m1 := mem;
      mem := mem[hdr := Node(None, n)];
      RingSame(m1, mem, Kept(runs, i, n), hdr);
      assert OnRing(runs, p);
    }

    /** malloc's hit: n units from the end of block j, which comes after prev in the ring. */
    method Take(prev: nat, p: nat, n: nat, ghost j: nat) returns (hdr: nat)
      requires Valid() && freep.Some? && 0 < j <= |runs| && prev == Nodes(runs)[j - 1].start
      requires p == Nodes(runs)[j].start
      requires 0 < n <= runs[j - 1].len
      modifies this`mem, this`freep, this`runs, this`live
      ensures Valid() && freep == Some(prev)
      ensures runs == Kept(old(runs), j - 1, n) && hdr == Cut(old(runs), j - 1, n).start
      ensures hdr !in old(live) && live == old(live)[hdr := n]
    {
      ghost var i, was := j - 1, runs;
      NodeAt(mem, runs, j);
      hdr := p;
      if mem[p].len == n {
        TakeWhole(prev, p, j);
      } else {
        hdr := TakeEnd(p, n, j);
      }
      TakeTiles(heap, was, live, i, n);
      TakeHeads(heap, was, live, old(mem), mem, hdr, n);
      TakeOnRing(was, i, n);
      runs, live := Kept(runs, i, n), live[hdr := n];
      freep := Some(prev);
    }

    /** malloc's first call makes the ring of base alone. */
    method InitBase()
      requires Valid() && freep == None
      modifies this`mem, this`freep
      ensures Valid() && freep.Some?
    {
      mem, freep := map[BASE := Node(Some(BASE), 0)], Some(BASE);
      assert StoredAt(mem, Nodes(runs), Some(BASE), 0);
      assert Nodes(runs)[0].start == BASE;
    }

    /** One time round the ring in malloc's loop: the first block after freep that has n units, or none */
    method Scan(n: nat) returns (found: bool, prev: nat, p: nat, ghost j: nat)
      requires Linked() && n > 0
      ensures found <==> !NoFit(runs, n)
      ensures found ==>
                0 < j <= |runs| && prev == Nodes(runs)[j - 1].start && p == Nodes(runs)[j].start && n <= runs[j - 1].len
    {
      prev := freep.value;
      ghost var f := FirstBlock();
      j := After(runs, f);
      NodeAt(mem, runs, f);
      p := mem[prev].next.value;
      while true
        invariant Scans(runs, freep.value, f, j, n, prev, p)
        decreases |runs| - Steps(|runs|, After(runs, f), j)
      {
        NodeAt(mem, runs, j);
        if mem[p].len >= n {
          assert runs[j - 1].len >= n;
          return true, prev, p, j;
        }
        if p == freep.value {
          SameNode(runs, f, j);
          RoundDone(runs, f, n);
          return false, prev, p, j;
        }
        StepOn(runs, f, j, n);
        prev, p, j := p, mem[p].next.value, After(runs, j);
      }
    }

    /**
     malloc of nbytes, with core what sbrk answers if it is asked.  The loop goes round
     the ring; after morecore it begins again behind freep and then does find a block.
     */
    method Malloc(nbytes: nat, core: Option<nat>) returns (r: Option<nat>)
      requires Valid() && nbytes < 0x1_0000_0000
      requires core.Some? && NoFit(runs, Units(nbytes)) ==> Units(nbytes) * UNIT < 0x8000_0000  // see SbrkExact
      requires core.Some? ==> core.value > BASE && forall p :: p in heap ==> p < core.value
      modifies this
      ensures Valid()
      ensures r.Some? ==> r.value > 0 && r.value - 1 !in old(live) && live == old(live)[r.value - 1 := Units(nbytes)]
      ensures r == None <==> core == None && NoFit(old(runs), Units(nbytes))
      ensures r == None ==> runs == old(runs) && live == old(live)
      ensures heap == if core.Some? && NoFit(old(runs), Units(nbytes))
                      then Grown(old(heap), Run(core.value, Core(Units(nbytes)))) else old(heap)
    {
      var n := Units(nbytes);
      if freep == None {
        InitBase();
      }
      var found, prev, p;
      ghost var j;
      found, prev, p, j := ScanOrGrow(n, core);
      if !found {
        return None;
      }
      var hdr := Take(prev, p, n, j);
      return Some(hdr + 1);
    }

    /** malloc's loop: round the ring, and once more after morecore */
    method ScanOrGrow(n: nat, core: Option<nat>) returns (found: bool, prev: nat, p: nat, ghost j: nat)
      requires Valid() && freep.Some? && n > 0
      requires core.Some? ==> core.value > BASE && forall p :: p in heap ==> p < core.value
      modifies this`mem, this`freep, this`runs, this`heap
      ensures Valid() && freep.Some? && (found <==> core.Some? || !NoFit(old(runs), n))
      ensures !found ==> runs == old(runs)
      ensures found ==> 0 < j <= |runs| && prev == Nodes(runs)[j - 1].start
      ensures found ==> p == Nodes(runs)[j].start && n <= runs[j - 1].len
      ensures heap == if core.Some? && NoFit(old(runs), n)
                      then Grown(old(heap), Run(core.value, Core(n))) else old(heap)
    {
      found, prev, p, j := Scan(n);
      if !found {
        var ok := MoreCore(n, core);
        if ok {
          found, prev, p, j := Scan(n);
        }
      }
    }

    ghost function FirstBlock(): (f: nat)
      requires freep.Some? && OnRing(runs, freep.value)
      reads this
      ensures f <= |runs| && Nodes(runs)[f].start == freep.value
    {
      var f :| 0 <= f <= |runs| && Nodes(runs)[f].start == freep.value; f
    }
  }

  /** What morecore asks for */
  function Core(n: nat): (nu: nat)
    ensures nu >= n && nu >= MINCORE && (nu > MINCORE ==> nu == n)
  {
    if n < MINCORE then MINCORE else n
  }

  ghost predicate NoFit(runs: seq<Run>, n: nat) {
    forall i :: 0 <= i < |runs| ==> runs[i].len < n
  }

  /** The blocks between block f and block j, on the way round, are too small. */
  ghost predicate Passed(runs: seq<Run>, f: nat, j: nat, n: nat)
    requires f <= |runs| && j <= |runs|
  {
    forall i :: 0 <= i <= |runs| && Steps(|runs|, After(runs, f), i) < Steps(|runs|, After(runs, f), j) ==>
        Nodes(runs)[i].len < n
  }

  /** malloc's loop, started after block f, has come to block j. */
  ghost predicate Scans(runs: seq<Run>, freep: nat, f: nat, j: nat, n: nat, prev: nat, p: nat) {
    && f <= |runs| && j <= |runs| && Nodes(runs)[f].start == freep && Nodes(runs)[j].start == p
    && Nodes(runs)[if j == 0 then |runs| else j - 1].start == prev
    && Passed(runs, f, j, n)
  }

  lemma SameNode(runs: seq<Run>, j: nat, k: nat)
    requires AboveBase(runs) && j <= |runs| && k <= |runs| && Nodes(runs)[j].start == Nodes(runs)[k].start
    ensures j == k
  {
    if j < k {
      NodeOrder(runs, j, k);
    }
    if k < j {
      NodeOrder(runs, k, j);
    }
  }

  /** Back at block f, every block has been looked at. */
  lemma RoundDone(runs: seq<Run>, f: nat, n: nat)
    requires f <= |runs| && Passed(runs, f, f, n) && Nodes(runs)[f].len < n
    ensures NoFit(runs, n)
  {
    forall i | 0 <= i < |runs|
      ensures runs[i].len < n
    {
      assert Nodes(runs)[i + 1] == runs[i];
      if i + 1 != f {
        assert Steps(|runs|, After(runs, f), i + 1) < Steps(|runs|, After(runs, f), f);
      }
    }
  }

  lemma StepOn(runs: seq<Run>, f: nat, j: nat, n: nat)
    requires f <= |runs| && j <= |runs| && j != f && Passed(runs, f, j, n) && Nodes(runs)[j].len < n
    ensures Passed(runs, f, After(runs, j), n)
    ensures Steps(|runs|, After(runs, f), After(runs, j)) == Steps(|runs|, After(runs, f), j) + 1 <= |runs|
  {
    forall i | 0 <= i <= |runs| && Steps(|runs|, After(runs, f), i) < Steps(|runs|, After(runs, f), After(runs, j))
      ensures Nodes(runs)[i].len < n
    {
      assert i == j || Steps(|runs|, After(runs, f), i) < Steps(|runs|, After(runs, f), j);
    }
  }

  /** Units of a block for nbytes: its header, and no unit more than the bytes need. */
  function Units(nbytes: nat): (n: nat)
    ensures (n - 2) * UNIT < nbytes <= (n - 1) * UNIT
  {
    (nbytes + UNIT - 1) / UNIT + 1
  }

  /** sbrk's argument when morecore asks for nu units: the size in bytes, as an int */
  function SbrkArg(nu: nat): (n: int) {
    var bytes := nu * UNIT % 0x1_0000_0000;
    if bytes < 0x8000_0000 then bytes else bytes - 0x1_0000_0000
  }

  /**
   sbrk is asked for the block that morecore then links exactly if the request is below
   2^31 bytes with its header; above that it is asked for less, or to take memory away.
   */
  lemma SbrkExact(nbytes: nat)
    requires nbytes < 0x1_0000_0000
    ensures SbrkArg(Core(Units(nbytes))) == Core(Units(nbytes)) * UNIT <==> Units(nbytes) * UNIT < 0x8000_0000
    ensures Units(nbytes) * UNIT >= 0x8000_0000 ==> SbrkArg(Core(Units(nbytes))) < Core(Units(nbytes)) * UNIT
  {
    assert Units(nbytes) <= 0x1000_0001;
  }

  /** malloc of 2^32 - 1 bytes asks for 16 and links a block of more than 2^32. */
  lemma SbrkWraps()
    ensures Core(Units(0xFFFF_FFFF)) == 0x1000_0001 && SbrkArg(0x1000_0001) == 16
  {
  }

  lemma KeptElsewhere(runs: seq<Run>, i: nat, n: nat)
    requires AboveBase(runs) && i < |runs| && 0 < n <= runs[i].len
    ensures Cut(runs, i, n).start > BASE
    ensures forall j :: 0 <= j < |Kept(runs, i, n)| ==> Kept(runs, i, n)[j].start != Cut(runs, i, n).start
  {
    var a := Cut(runs, i, n).start;
    Elsewhere(runs, i, a);
    var kept := Kept(runs, i, n);
    forall j | 0 <= j < |kept|
      ensures kept[j].start != a
    {
      if j < i {
        assert kept[j] == runs[..i][j];
      } else if n == runs[i].len {
        assert kept[j] == runs[i + 1..][j - i];
      } else if j > i {
        assert kept[j] == runs[i + 1..][j - i - 1];
      }
    }
  }

  /** A live block is above base and shares nothing with the free ones. */
  lemma LiveApart(heap: iset<nat>, runs: seq<Run>, live: map<nat, nat>, a: nat)
    requires Tiles(heap, runs, live) && a in live
    ensures a in heap && live[a] > 0 && forall p: nat :: Run(a, live[a]).Has(p) ==> !Free(runs, p)
  {
    forall p: nat | Run(a, live[a]).Has(p)
      ensures !Free(runs, p) && p in heap
    {
      assert InBlock(live, a, p);
    }
    assert Run(a, live[a]).Has(a);
  }

  /** No header of the ring belongs to a live block. */
  lemma LiveOffRing(heap: iset<nat>, runs: seq<Run>, live: map<nat, nat>)
    requires Tiles(heap, runs, live) && Canonical(runs) && forall p :: p in heap ==> p > BASE
    ensures forall a :: a in live ==> !OnRing(runs, a)
  {
    forall a | a in live
      ensures !OnRing(runs, a)
    {
      LiveApart(heap, runs, live, a);
      assert Run(a, live[a]).Has(a);
      assert forall i :: 0 <= i < |runs| ==> runs[i].Has(runs[i].start);
    }
  }

  lemma CoreApart(heap: iset<nat>, runs: seq<Run>, live: map<nat, nat>, mem: map<nat, Node>, r: Run)
    requires Tiles(heap, runs, live) && Canonical(runs) && r.len > 0 && forall p :: p in heap ==> p < r.start
    ensures forall p: nat :: r.Has(p) ==> p !in heap && !Free(runs, p)
    ensures r.start !in live && forall i :: 0 <= i < |runs| ==> runs[i].start != r.start
  {
    if r.start in live {
      LiveApart(heap, runs, live, r.start);
    }
    NotStart(runs, r);
  }

  lemma MergedFits(runs: seq<Run>, k: nat, r: Run, n: nat)
    requires k <= |runs| && r.len >= n
    ensures !NoFit(Given(runs, k, r), n)
  {
    assert Given(runs, k, r)[|Left(runs, k, r)|] == Merged(runs, k, r);
  }

  /** A header that is not on the ring may be written. */
  lemma RingSame(mem: map<nat, Node>, mem': map<nat, Node>, runs: seq<Run>, a: nat)
    requires Ring(mem, runs) && a > BASE && (forall i :: 0 <= i < |runs| ==> runs[i].start != a) && a in mem'
    requires mem' == mem[a := mem'[a]]
    ensures Ring(mem', runs)
  {
    StoredFrame(mem, Nodes(runs), Some(BASE), a, mem'[a]);
  }

  lemma NotStart(runs: seq<Run>, r: Run)
    requires Canonical(runs) && r.len > 0 && forall p: nat :: r.Has(p) ==> !Free(runs, p)
    ensures forall i :: 0 <= i < |runs| ==> runs[i].start != r.start
  {
    assert r.Has(r.start);
    forall i | 0 <= i < |runs|
      ensures runs[i].start != r.start
    {
      assert runs[i].Has(runs[i].start);
    }
  }

  lemma PlaceBetween(runs: seq<Run>, k: nat, r: Run)
    requires AboveBase(runs) && k <= |runs| && Place(runs, k, r.start) && r.len > 0
    requires forall p: nat :: r.Has(p) ==> !Free(runs, p)
    ensures Between(runs, k, r)
  {
    FitsBetween(runs, k, r);
  }

  lemma GivenAbove(runs: seq<Run>, k: nat, r: Run)
    requires AboveBase(runs) && Between(runs, k, r) && r.start > BASE
    ensures AboveBase(Given(runs, k, r))
  {
    GivenCanonical(runs, k, r);
  }

  // ---------- Whole histories ----------

  /** With nothing live, the free list is the one fully merged list of all memory from sbrk. */
  lemma AllFreed(heap: iset<nat>, a: seq<Run>, b: seq<Run>)
    requires Canonical(a) && Canonical(b) && Tiles(heap, a, map[]) && Tiles(heap, b, map[])
    ensures a == b
  {
    forall p: nat
      ensures Free(a, p) <==> Free(b, p)
    {
      assert forall q: nat :: !InBlock(map[], q, p);
    }
    CanonicalUnique(a, b);
  }

  datatype Call = Get(nbytes: nat, gap: Option<nat>) | Put(block: nat)

  /**
   Any history of mallocs and frees.  sbrk answers with memory above all it gave before,
   gap units further up if somebody else has used it, or not at all; it does not answer
   requests too large for its argument.  Frees of anything but a live block are left out.
   In the end free and live blocks make up all memory from sbrk, and with nothing live
   the free list is the only one that can be: every neighbour merged.
   */
  method History(calls: seq<Call>) returns (h: Heap, blocks: set<nat>)
    requires forall i :: 0 <= i < |calls| && calls[i].Get? ==> calls[i].nbytes < 0x1_0000_0000
    ensures h.Valid() && h.live.Keys == blocks && Canonical(h.runs) && Tiles(h.heap, h.runs, h.live)
    ensures blocks == {} ==> forall runs :: Canonical(runs) && Tiles(h.heap, runs, map[]) ==> runs == h.runs
  {
    h := new Heap();
    blocks := {};
    var top := BASE + 1;
    for i := 0 to |calls|
      invariant fresh(h) && h.Valid() && h.live.Keys == blocks && top > BASE && forall p :: p in h.heap ==> p < top
    {
      match calls[i]
      case Get(nbytes, gap) =>
        var core := if gap == None || Units(nbytes) * UNIT >= 0x8000_0000 then None else Some(top + gap.value);
        var r := h.Malloc(nbytes, core);
        if r.Some? {
          blocks := blocks + {r.value - 1};
        }
        if core.Some? {
          top := core.value + Core(Units(nbytes));
        }
      case Put(block) =>
        if block in blocks {
          h.FreeBlock(block);
          blocks := blocks - {block};
        }
    }
    if blocks == {} {
      assert h.live == map[];
      forall runs | Canonical(runs) && Tiles(h.heap, runs, map[])
        ensures runs == h.runs
      {
        AllFreed(h.heap, runs, h.runs);
      }
    }
  }
}

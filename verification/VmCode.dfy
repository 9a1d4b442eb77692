/** The page-table operations of kernel/vm.zig over physical memory. */
module VmCode {
  import opened Common
  import opened PageTables
  import opened TableCount

  /** Only tables of root's tree change, and every new table belongs to it. */
  ghost predicate Grown(m: map<nat, Table>, m': map<nat, Table>, root: nat) {
    && (forall x :: x in m ==> x in m' && (x !in Sub(m, root, TOP) ==> m'[x] == m[x]))
    && Sub(m', root, TOP) == Sub(m, root, TOP) + (m'.Keys - m.Keys)
  }

  lemma GrownTrans(a: map<nat, Table>, b: map<nat, Table>, c: map<nat, Table>, root: nat)
    requires Grown(a, b, root) && Grown(b, c, root)
    ensures Grown(a, c, root)
  {
    forall x | x in a
      ensures x in c && (x !in Sub(a, root, TOP) ==> c[x] == a[x])
    {
      assert x in b;
    }
  }

  /** t with count pages from page first on mapped to the frames from ppn on */
  ghost function Mapped(t: map<nat, Pte>, first: nat, count: nat, ppn: nat, perm: Flags): (r: map<nat, Pte>) {
    if count == 0 then t else Mapped(t, first, count - 1, ppn,
        perm)[first + count - 1 := Pte(true, perm, ppn + count - 1)]
  }

  lemma {:induction false} MappedAt(t: map<nat, Pte>, first: nat, count: nat, ppn: nat, perm: Flags, n: nat)
    ensures Get(Mapped(t, first, count, ppn, perm), n) ==
            if first <= n < first + count then Some(Pte(true, perm, ppn + n - first)) else Get(t, n)
  {
    if count > 0 {
      MappedAt(t, first, count - 1, ppn, perm, n);
    }
  }

  /** t without count pages from page first on */
  ghost function Unmapped(t: map<nat, Pte>, first: nat, count: nat): (r: map<nat, Pte>) {
    if count == 0 then t else Unmapped(t, first, count - 1) - {first + count - 1}
  }

  lemma {:induction false} UnmappedAt(t: map<nat, Pte>, first: nat, count: nat, n: nat)
    ensures Get(Unmapped(t, first, count), n) == if first <= n < first + count then None else Get(t, n)
  {
    if count > 0 {
      UnmappedAt(t, first, count - 1, n);
    }
  }

  lemma MappedStep(t: map<nat, Pte>, first: nat, k: nat, ppn: nat, perm: Flags, now: map<nat, Pte>, n: nat, p: nat)
    requires now == Mapped(t, first, k, ppn, perm) && n == first + k && p == ppn + k
    ensures now[n := Pte(true, perm, p)] == Mapped(t, first, k + 1, ppn, perm)
  {
  }

  /** The data pages that stay when the pages' frames are freed one after the other */
  ghost function Dropped(data: map<nat, seq<Byte>>, t: map<nat, Pte>, first: nat, count: nat): (r: map<nat, seq<Byte>>)
    requires AllMapped(t, first, count)
  {
    if count == 0 then data else Dropped(data, t, first, count - 1) - {t[first + count - 1].ppn}
  }

  /** Exactly the frames of the range go. */
  lemma {:induction false} DroppedIs(data: map<nat, seq<Byte>>, t: map<nat, Pte>, first: nat, count: nat)
    requires AllMapped(t, first, count)
    ensures Dropped(data, t, first, count) == data - Frames(t, first, count)
  {
    if count > 0 {
      DroppedIs(data, t, first, count - 1);
    }
  }

  ghost function Kept(data: map<nat, seq<Byte>>, t: map<nat, Pte>, first: nat, count: nat,
                      doFree: bool): (r: map<nat, seq<Byte>>)
    requires AllMapped(t, first, count)
  {
    if doFree then Dropped(data, t, first, count) else data
  }

  /** One round of unmap: page n is still mapped, its frame not yet freed, and the round removes both. */
  lemma UnmapStep(data: map<nat, seq<Byte>>, t: map<nat, Pte>, first: nat, k: nat, count: nat, doFree: bool,
                  now: map<nat, Pte>, kept: map<nat, seq<Byte>>, n: nat)
    requires AllMapped(t, first, count) && k < count && n == first + k && (doFree ==> OwnFrames(t, first, count, data))
    requires now == Unmapped(t, first, k) && kept == Kept(data, t, first, k, doFree)
    ensures n in now && (doFree ==> now[n].ppn in kept)
    ensures now - {n} == Unmapped(t, first, k + 1)
    ensures Kept(data, t, first, k + 1, doFree) == if doFree then kept - {now[n].ppn} else kept
  {
    UnmappedAt(t, first, k, n);
    DroppedIs(data, t, first, k);
    FramesHas(t, first, k, t[n].ppn);
  }

  ghost predicate AllMapped(t: map<nat, Pte>, first: nat, count: nat) {
    forall n :: first <= n < first + count ==> n in t
  }

  ghost predicate NoneMapped(t: map<nat, Pte>, first: nat, count: nat) {
    forall n :: first <= n < first + count ==> n !in t
  }

  /** The frames of count pages from page first on */
  ghost function Frames(t: map<nat, Pte>, first: nat, count: nat): (r: set<nat>)
    requires AllMapped(t, first, count)
  {
    if count == 0 then {} else Frames(t, first, count - 1) + {t[first + count - 1].ppn}
  }

  lemma {:induction false} FramesHas(t: map<nat, Pte>, first: nat, count: nat, x: nat)
    requires AllMapped(t, first, count)
    ensures x in Frames(t, first, count) <==> exists n :: first <= n < first + count && t[n].ppn == x
  {
    if count > 0 {
      FramesHas(t, first, count - 1, x);
      if n :| first <= n < first + count && t[n].ppn == x {
        assert n == first + count - 1 || first <= n < first + count - 1;
      }
    }
  }

  /** The pages have frames of their own, all of them data pages. */
  ghost predicate OwnFrames(t: map<nat, Pte>, first: nat, count: nat, data: map<nat, seq<Byte>>)
    requires AllMapped(t, first, count)
  {
    && (forall n :: first <= n < first + count ==> t[n].ppn in data)
    && (forall n, m :: first <= n < m < first + count ==> t[n].ppn != t[m].ppn)
  }

  function ZeroPage(): (s: seq<Byte>) {
    seq(PGSIZE, i => 0)
  }

  /** A walk that has come to table x: it has created nothing yet, or x just before. */
  ghost predicate Walking(was: map<nat, Table>, now: map<nat, Table>, root: nat, path: Path, k: nat, x: nat)
    requires k <= |path|
  {
    now == was || (Reach(was, root, path, k) == None && x in now && now[x] == ZeroTable())
  }

  lemma WalkOn(was: map<nat, Table>, m: map<nat, Table>, now: map<nat, Table>, root: nat, path: Path, k: nat,
               x: nat, r: Option<nat>)
    requires |path| == TOP + 1 && Indices(path) && k < TOP && Reach(m, root, path, k) == Some(x)
    requires Walking(was, m, root, path, k, x)
    requires Reach(m, root, path, k + 1).Some? ==> r.Some? && now == m
    requires Reach(m, root, path, k + 1) == None && r.Some? ==> r.value in now && now[r.value] == ZeroTable()
    ensures r.Some? ==> Walking(was, now, root, path, k + 1, r.value)
    ensures Reach(m, root, path, k + 1).Some? <==> Reach(was, root, path, k + 1).Some?
  {
    if m != was {
      assert path[k] < ENTRIES;
      ReachEnds(m, root, path, k, k + 1);
      ReachNone(was, root, path, k, k + 1);
    }
  }

  lemma LinkGrown(m: map<nat, Table>, m': map<nat, Table>, root: nat, t: map<nat, Pte>, path: Path, k: nat, pt: nat,
                  g: nat)
    requires Translates(m, root, t) && |path| == TOP + 1 && Indices(path) && k < TOP
    requires Reach(m, root, path, k) == Some(pt)
    requires pt in m && path[k] < |m[pt]| && !m[pt][path[k]].valid && g !in m
    requires m' == m[g := ZeroTable()][pt := m[pt][path[k] := Node(g)]]
    ensures Translates(m', root, t) && Grown(m, m', root) && Reach(m', root, path, k + 1) == Some(g)
    ensures m'.Keys == m.Keys + {g} && m'[g] == ZeroTable() && OpensNext(m, m', root, path, k)
  {
    OpensNew(m, m', root, path, k, pt, g);
    ReachIn(m, root, TOP, path, k);
    LinkTranslates(m, m', root, t, path, k, g);
    LinkReach(m, m', root, TOP, path, k, g);
    GrownOne(m, m', root, pt, g);
  }

  lemma GrownOne(m: map<nat, Table>, m': map<nat, Table>, root: nat, pt: nat, g: nat)
    requires pt in Sub(m, root, TOP) && Sub(m', root, TOP) == Sub(m, root, TOP) + {g} && g !in m
    requires m'.Keys == m.Keys + {g} && forall x :: x in m && x != pt ==> m'[x] == m[x]
    ensures Grown(m, m', root)
  {
    assert m'.Keys - m.Keys == {g};
  }

  /** pages are the elements of s, each once; behind a quantifier to keep it folded */
  ghost predicate Lists(pages: seq<nat>, s: set<nat>) {
    forall q :: q == pages ==> Listing(q, s)
  }

  ghost predicate Listing(q: seq<nat>, s: set<nat>) {
    && (forall i :: 0 <= i < |q| ==> q[i] in s)
    && (forall x :: x in s ==> x in q)
    && (forall i, j :: 0 <= i < j < |q| ==> q[i] != q[j])
  }

  lemma ListsNone(pages: seq<nat>, s: set<nat>)
    requires Lists(pages, s)
    ensures |pages| == 0 <==> s == {}
  {
    assert Listing(pages, s);
    if |pages| > 0 {
      assert pages[0] in s;
    }
  }

  lemma ListsLess(pages: seq<nat>, s: set<nat>, x: nat) returns (less: seq<nat>)
    requires Lists(pages, s) && x in s
    ensures |less| == |pages| - 1 && Lists(less, s - {x})
  {
    assert Listing(pages, s);
    var i :| 0 <= i < |pages| && pages[i] == x;
    less := pages[..i] + pages[i + 1..];
    assert forall k :: 0 <= k < |less| ==> less[k] == pages[if k < i then k else k + 1];
    forall y | y in s - {x}
      ensures y in less
    {
      var k :| 0 <= k < |pages| && pages[k] == y;
      assert less[if k < i then k else k - 1] == y;
    }
  }

  lemma ListsMore(pages: seq<nat>, s: set<nat>, x: nat)
    requires Lists(pages, s) && x !in s
    ensures Lists(pages + [x], s + {x})
  {
    assert Listing(pages, s);
    var more := pages + [x];
    forall y | y in s + {x}
      ensures y in more
    {
      if y == x {
        assert more[|pages|] == x;
      }
    }
  }

  /** n of the first k tables on the path are missing; the count is behind a quantifier to keep it folded. */
  ghost predicate Spent(m: map<nat, Table>, root: nat, path: Path, k: nat, n: nat) {
    forall p: Path :: p == path ==> SpentOn(m, root, p, k, n)
  }

  ghost predicate SpentOn(m: map<nat, Table>, root: nat, p: Path, k: nat, n: nat) {
    k <= |p| && n == Missing(m, root, p, k)
  }

  lemma NothingSpent(m: map<nat, Table>, root: nat, path: Path)
    ensures Spent(m, root, path, 0, 0)
  {
  }

  lemma SpentMore(m: map<nat, Table>, root: nat, path: Path, k: nat, n: nat) returns (n': nat)
    requires Spent(m, root, path, k, n) && k < |path|
    ensures Spent(m, root, path, k + 1, n') && n' == n + if Reach(m, root, path, k + 1).Some? then 0 else 1
  {
    assert SpentOn(m, root, path, k, n);
    n' := Missing(m, root, path, k + 1);
  }

  lemma SpentNeeds(m: map<nat, Table>, root: nat, n: nat, path: Path, k: nat, spent: nat, need: nat)
    requires Needs(m, root, n, need) && path == Split(n) && k <= TOP && Spent(m, root, path, k, spent)
    ensures spent <= need && (k == TOP ==> spent == need)
  {
    assert NeedsOn(m, root, path, need) && SpentOn(m, root, path, k, spent);
    MissingGrows(m, root, path, k, TOP);
  }

  /** Of pages0 free pages some are left after done pages were mapped, of which the first took need for tables. */
  ghost predicate Budget(ok: bool, done: nat, pages0: nat, left: nat, need: nat) {
    && left + (if done > 0 then need else 0) <= pages0
    && (done == 0 ==> if ok then left == pages0 else pages0 < need)
  }

  class Memory {
    var tables: map<nat, Table>       // physical pages used as page tables
    var data: map<nat, seq<Byte>>     // physical pages handed out for data
    var free: set<nat>                // the page allocator's free pages
    ghost var pages: seq<nat>         // the same as a list

    ghost predicate Valid()
      reads this
    {
      && tables.Keys !! data.Keys && tables.Keys !! free && data.Keys !! free && Lists(pages, free)
      && forall p :: p in data ==> |data[p]| == PGSIZE
    }

    /** One empty page table, and free pages */
    constructor (root: nat, avail: seq<nat>)
      requires root !in avail && forall i, j :: 0 <= i < j < |avail| ==> avail[i] != avail[j]
      ensures Valid() && tables == map[root := ZeroTable()] && data == map[] && pages == avail
    {
      tables, data, pages := map[root := ZeroTable()], map[], avail;
      free := set i | 0 <= i < |avail| :: avail[i];
      new;
      assert Listing(avail, free);
    }

    /** Every page, in use or free; no operation changes this set. */
    ghost function All(): (s: set<nat>)
      reads this
    {
      tables.Keys + data.Keys + free
    }

    /** PageTable.create; fails only when no page is free. */
    method CreateTable() returns (g: Option<nat>)
      requires Valid()
      modifies this`tables, this`free, this`pages
      ensures Valid() && All() == old(All())
      ensures g.Some? <==> |old(pages)| > 0
      ensures g == None ==> tables == old(tables) && free == old(free) == {} && |pages| == |old(pages)|
      ensures g.Some? ==> g.value in old(free) && free == old(free) - {g.value} && |pages| == |old(pages)| - 1
      ensures g.Some? ==> tables == old(tables)[g.value := ZeroTable()]
    {
      ListsNone(pages, free);
      if free == {} {
        return None;
      }
      var p :| p in free;
      pages := ListsLess(pages, free, p);
      free, tables := free - {p}, tables[p := ZeroTable()];
      return Some(p);
    }

    /** allocator.create(Page) and clearing it */
    method CreatePage() returns (g: Option<nat>)
      requires Valid()
      modifies this`data, this`free, this`pages
      ensures Valid() && All() == old(All())
      ensures g.Some? <==> |old(pages)| > 0
      ensures g == None ==> data == old(data) && free == old(free) == {} && |pages| == |old(pages)|
      ensures g.Some? ==> g.value in old(free) && free == old(free) - {g.value} && |pages| == |old(pages)| - 1
      ensures g.Some? ==> data == old(data)[g.value := ZeroPage()]
    {
      ListsNone(pages, free);
      if free == {} {
        return None;
      }
      var p :| p in free;
      pages := ListsLess(pages, free, p);
      free, data := free - {p}, data[p := ZeroPage()];
      return Some(p);
    }

    /** allocator.destroy of a data page */
    method DestroyPage(p: nat)
      requires Valid() && p in data
      modifies this`data, this`free, this`pages
      ensures Valid() && All() == old(All())
      ensures data == old(data) - {p} && free == old(free) + {p} && |pages| == |old(pages)| + 1
    {
      ListsMore(pages, free, p);
      data, free, pages := data - {p}, free + {p}, pages + [p];
    }

    /** PageTable.destroy */
    method DestroyTable(p: nat)
      requires Valid() && p in tables
      modifies this`tables, this`free, this`pages
      ensures Valid() && All() == old(All())
      ensures tables == old(tables) - {p} && free == old(free) + {p}
    {
      ListsMore(pages, free, p);
      tables, free, pages := tables - {p}, free + {p}, pages + [p];
    }

    /** One level of walk: the table below entry path[k] of table pt, created if it is missing. */
    method Descend(root: nat, path: Path, k: nat, pt: nat, ghost t: map<nat, Pte>) returns (r: Option<nat>)
      requires Valid() && Translates(tables, root, t) && |path| == TOP + 1 && Indices(path) && k < TOP
      requires Reach(tables, root, path, k) == Some(pt)
      modifies this`tables, this`free, this`pages
      ensures Valid() && All() == old(All()) && Translates(tables, root, t)
      ensures Grown(old(tables), tables, root)
      ensures r.Some? ==> Reach(tables, root, path, k + 1) == r
      ensures r.Some? ==> OpensNext(old(tables), tables, root, path, k)
      ensures r == None ==> free == {} && |pages| == |old(pages)| == 0
      ensures Reach(old(tables), root, path, k + 1).Some? ==>
              r.Some? && tables == old(tables) && |pages| == |old(pages)|
      ensures Reach(old(tables), root, path, k + 1) == None && r.Some? ==>
                |pages| == |old(pages)| - 1 && r.value in tables && tables[r.value] == ZeroTable()
    {
      ReachIn(tables, root, TOP, path, k);
      assert path[k] < ENTRIES;
      var pte := tables[pt][path[k]];
      if pte.valid {
        ReachStep(tables, root, path, k);
        OpensOld(tables, root, path, k);
        return Some(pte.ppn);
      }
      ReachEnds(tables, root, path, k, k + 1);
      r := LinkTable(root, path, k, pt, t);
    }

    /** A new table is linked to entry path[k] of table pt. */
    method LinkTable(root: nat, path: Path, k: nat, pt: nat, ghost t: map<nat, Pte>) returns (r: Option<nat>)
      requires Valid() && Translates(tables, root, t) && |path| == TOP + 1 && Indices(path) && k < TOP
      requires Reach(tables, root, path, k) == Some(pt)
      requires pt in tables && path[k] < |tables[pt]| && !tables[pt][path[k]].valid
      modifies this`tables, this`free, this`pages
      ensures Valid() && All() == old(All()) && Translates(tables, root, t)
      ensures Grown(old(tables), tables, root)
      ensures r.Some? ==> Reach(tables, root, path, k + 1) == r && |pages| == |old(pages)| - 1
      ensures r.Some? ==> r.value in tables && tables[r.value] == ZeroTable()
      ensures r.Some? ==> OpensNext(old(tables), tables, root, path, k)
      ensures r == None ==> free == {} && |pages| == |old(pages)| == 0
    {
      ghost var m := tables;
      r := CreateTable();
      if r.Some? {
        tables := tables[pt := tables[pt][path[k] := Node(r.value)]];
        LinkGrown(m, tables, root, t, path, k, pt, r.value);
      }
    }

    /**
     walk with is_alloc: the level-0 table of page n, creating tables on the way.
     Whatever it creates, the translation stays as it was.
     */
    method Walk(root: nat, n: nat, ghost t: map<nat, Pte>, ghost need: nat) returns (r: Option<nat>)
      requires Valid() && Translates(tables, root, t) && n < MAXPAGES && Needs(tables, root, n, need)
      modifies this`tables, this`free, this`pages
      ensures Valid() && All() == old(All()) && Translates(tables, root, t)
      ensures Grown(old(tables), tables, root)
      ensures r.Some? ==> r == Reach(tables, root, Split(n), TOP)
      ensures r.Some? ==> Opening(old(tables), tables, root, Split(n), TOP)
      ensures r == None ==> free == {} && |pages| == 0
      ensures r.Some? <==> |old(pages)| >= need
      ensures r.Some? ==> |pages| + need == |old(pages)|
    {
      var indices := Split(n);
      ghost var spent := 0;
      r := Some(root);
      NothingSpent(tables, root, indices);
      OpeningStart(tables, root, indices);
      for k := 0 to TOP
        invariant r.Some? && Reach(tables, root, indices, k) == r
        invariant Valid() && All() == old(All()) && Translates(tables, root, t)
        invariant Grown(old(tables), tables, root) && Walking(old(tables), tables, root, indices, k, r.value)
        invariant Spent(old(tables), root, indices, k, spent) && |pages| + spent == |old(pages)|
        invariant Opening(old(tables), tables, root, indices, k)
      {
        r, spent := WalkLevel(root, indices, k, r.value, t, old(tables), spent);
        if r == None {
          SpentNeeds(old(tables), root, n, indices, k + 1, spent, need);
          return;
        }
      }
      SpentNeeds(old(tables), root, n, indices, TOP, spent, need);
    }

    /** One round of walk's loop; `was` are the tables before the first, and spent how many were created since. */
    method WalkLevel(root: nat, path: Path, k: nat, pt: nat, ghost t: map<nat, Pte>, ghost was: map<nat, Table>,
                     ghost spent: nat) returns (r: Option<nat>, ghost spent': nat)
      requires Valid() && Translates(tables, root, t) && |path| == TOP + 1 && Indices(path) && k < TOP
      requires Reach(tables, root, path, k) == Some(pt) && Spent(was, root, path, k, spent)
      requires Grown(was, tables, root) && Walking(was, tables, root, path, k, pt)
      requires Opening(was, tables, root, path, k)
      modifies this`tables, this`free, this`pages
      ensures Valid() && All() == old(All()) && Translates(tables, root, t) && Grown(was, tables, root)
      ensures r.Some? ==> Reach(tables, root, path, k + 1) == r && Walking(was, tables, root, path, k + 1, r.value)
      ensures Spent(was, root, path, k + 1, spent') && (r.Some? ==> Opening(was, tables, root, path, k + 1))
      ensures if r.Some? then |pages| + spent' == |old(pages)| + spent
              else free == {} && |pages| == |old(pages)| == 0 && spent' == spent + 1
    {
      ghost var m := tables;
      r := Descend(root, path, k, pt, t);
      GrownTrans(was, m, tables, root);
      WalkOn(was, m, tables, root, path, k, pt, r);
      spent' := SpentMore(was, root, path, k, spent);
      if r.Some? {
        OpeningNext(was, m, tables, root, path, k);
      }
    }

    /** walk without is_alloc */
    method Find(root: nat, n: nat, ghost t: map<nat, Pte>) returns (r: Option<nat>)
      requires Valid() && Translates(tables, root, t) && n < MAXPAGES
      ensures r == Reach(tables, root, Split(n), TOP)
      ensures r == None ==> n !in t
    {
      var indices := Split(n);
      ReachLooks(tables, root, TOP, indices);
      assert Look(tables, root, TOP, indices) == Get(t, n);
      var pt := root;
      for k := 0 to TOP
        invariant Reach(tables, root, indices, k) == Some(pt)
      {
        ReachIn(tables, root, TOP, indices, k);
        assert indices[k] < ENTRIES;
        var pte := tables[pt][indices[k]];
        if !pte.valid {
          ReachEnds(tables, root, indices, k, TOP);
          return None;
        }
        ReachStep(tables, root, indices, k);
        pt := pte.ppn;
      }
      return Some(pt);
    }

    /** The entry of page n, in table x, becomes e. */
    method SetPte(root: nat, n: nat, x: nat, e: Pte, ghost t: map<nat, Pte>)
      requires Valid() && Translates(tables, root, t) && n < MAXPAGES && (e.valid ==> Leaf(e))
      requires Reach(tables, root, Split(n), TOP) == Some(x)
      modifies this`tables
      ensures Valid() && All() == old(All())
      ensures Translates(tables, root, Put(t, n, e)) && Grown(old(tables), tables, root)
      ensures SameTables(old(tables), tables, root)
    {
      ReachIn(tables, root, TOP, Split(n), TOP);
      SubInside(tables, root, TOP);
      ghost var m := tables;
      tables := tables[x := tables[x][n % 512 := e]];
      LeafTranslates(m, tables, root, t, n, e);
      LeafSame(m, tables, root, Split(n), x, e);
    }

    /** The entry of page n, in table x */
    method GetPte(root: nat, n: nat, x: nat, ghost t: map<nat, Pte>) returns (e: Pte)
      requires Valid() && Translates(tables, root, t) && n < MAXPAGES
      requires Reach(tables, root, Split(n), TOP) == Some(x)
      ensures e.valid <==> n in t
      ensures e.valid ==> e == t[n] && Leaf(e)
    {
      ReachIn(tables, root, TOP, Split(n), TOP);
      ReachLooks(tables, root, TOP, Split(n));
      e := tables[x][n % 512];
      assert Look(tables, root, TOP, Split(n)) == Get(t, n);
    }

    /** One round of mappages */
    method MapOne(root: nat, n: nat, ppn: nat, perm: Flags, ghost t: map<nat, Pte>, ghost need: nat)
      returns (ok: bool, ghost t': map<nat, Pte>)
      requires Needs(tables, root, n, need)
      requires Valid() && Translates(tables, root, t) && n < MAXPAGES && n !in t && Leaf(Pte(true, perm, ppn))
      modifies this`tables, this`free, this`pages
      ensures Valid() && All() == old(All()) && Grown(old(tables), tables, root)
      ensures Translates(tables, root, t')
      ensures t' == if ok then t[n := Pte(true, perm, ppn)] else t
      ensures !ok ==> free == {} && |pages| == 0
      ensures ok <==> |old(pages)| >= need
      ensures ok ==> |pages| + need == |old(pages)| && Opened(old(tables), tables, root, n, n + 1)
    {
      t' := t;
      var x := Walk(root, n, t, need);
      ok := x.Some?;
      if ok {
        ghost var m := tables;
        SetPte(root, n, x.value, Pte(true, perm, ppn), t);
        GrownTrans(old(tables), m, tables, root);
        OpenedOne(old(tables), m, tables, root, n);
        t' := Put(t, n, Pte(true, perm, ppn));
      }
    }

    /**
     mappages: maps every page of the range that begins at va and is size bytes long,
     to the frames from pa on; done counts them.  A remap, like an address at or above
     MAXVA, panics.  If no page is free for a table, a first part stays mapped.
     */
    method MapPages(root: nat, va: nat, size: nat, pa: nat, perm: Flags, ghost t: map<nat, Pte>, ghost need: nat,
                    ghost total: nat) returns (ok: bool, ghost done: nat, ghost t': map<nat, Pte>)
      requires Needs(tables, root, va / PGSIZE, need)
      requires size > 0 ==> Lacks(tables, root, va / PGSIZE, (va + size - 1) / PGSIZE + 1, total)
      requires Valid() && Translates(tables, root, t)
      requires size > 0 && va + size <= MAXPAGES * PGSIZE && Leaf(Pte(true, perm, 0))
      requires NoneMapped(t, va / PGSIZE, (va + size - 1) / PGSIZE - va / PGSIZE + 1)
      modifies this`tables, this`free, this`pages
      ensures Valid() && All() == old(All()) && Grown(old(tables), tables, root)
      ensures Translates(tables, root, t') && t' == Mapped(t, va / PGSIZE, done, pa / PGSIZE, perm)
      ensures ok ==> done == (va + size - 1) / PGSIZE - va / PGSIZE + 1
      ensures !ok ==> free == {} && done <= (va + size - 1) / PGSIZE - va / PGSIZE
      ensures done > 0 <==> |old(pages)| >= need
      ensures |pages| + (if done > 0 then need else 0) <= |old(pages)|
      ensures ok <==> |old(pages)| >= total
      ensures ok ==> |pages| + total == |old(pages)|
      ensures ok ==> Opened(old(tables), tables, root, va / PGSIZE, (va + size - 1) / PGSIZE + 1)
    {
      ghost var all := All();
      assert MappingIn(all, tables, root, t, va / PGSIZE, pa / PGSIZE, perm, 0, t);
      ok, done, t' := MapLoop(root, va / PGSIZE, (va + size - 1) / PGSIZE, pa / PGSIZE, perm, t, need, total,
                              all);
      assert MappingIn(all, old(tables), root, t, va / PGSIZE, pa / PGSIZE, perm, done, t');
    }

    /** mappages' loop over the pages from first to last */
    method MapLoop(root: nat, first: nat, last: nat, ppn: nat, perm: Flags, ghost t: map<nat, Pte>, ghost need: nat,
                   ghost total: nat, ghost all: set<nat>) returns (ok: bool, ghost done: nat, ghost t': map<nat, Pte>)
      requires Mapping(all, tables, root, t, first, ppn, perm, 0, t)
      requires Needs(tables, root, first, need) && first <= last < MAXPAGES && Leaf(Pte(true, perm, 0))
      requires NoneMapped(t, first, last - first + 1) && Lacks(tables, root, first, last + 1, total)
      modifies this`tables, this`free, this`pages
      ensures Mapping(all, old(tables), root, t, first, ppn, perm, done, t')
      ensures if ok then done == last - first + 1 else free == {} && done <= last - first
      ensures Budget(ok, done, |old(pages)|, |pages|, need) && (ok <==> |old(pages)| >= total)
      ensures ok ==> |pages| + total == |old(pages)| && Opened(old(tables), tables, root, first, last + 1)
    {
      var page := first;
      ghost var spent := 0;
      done, t', ok := 0, t, true;
      LacksNone(tables, root, first);
      OpenedNone(tables, root, first);
      while ok && page <= last
        invariant page == first + done <= last + 1
        invariant Mapping(all, old(tables), root, t, first, ppn, perm, done, t')
        invariant !ok ==> free == {} && page <= last
        invariant ok && done == 0 ==> tables == old(tables)
        invariant Budget(ok, done, |old(pages)|, |pages|, need)
        invariant ok ==> Opened(old(tables), tables, root, first, page) && |pages| + spent == |old(pages)|
        invariant Lacks(old(tables), root, first, if ok then page else page + 1, spent)
        invariant !ok ==> |old(pages)| < spent
        decreases ok, last - page
      {
        ok, t', spent := MapStep(root, page, ppn + (page - first), perm, t', need, all, old(tables), t, first, done,
                                 ppn, |old(pages)|, spent);
        if ok {
          done, page := done + 1, page + 1;
        }
      }
      LacksGrow(old(tables), root, first, if ok then page else page + 1, last + 1, spent, total);
    }

    /** mappages has mapped done pages from first on; behind a quantifier to keep the tables folded */
    ghost predicate Mapping(all: set<nat>, m0: map<nat, Table>, root: nat, t0: map<nat, Pte>, first: nat, ppn0: nat,
                            perm: Flags, done: nat, now: map<nat, Pte>)
      reads this
    {
      forall u :: u == now ==> MappingIn(all, m0, root, t0, first, ppn0, perm, done, u)
    }

    ghost predicate MappingIn(all: set<nat>, m0: map<nat, Table>, root: nat, t0: map<nat, Pte>, first: nat, ppn0: nat,
                              perm: Flags, done: nat, now: map<nat, Pte>)
      reads this
    {
      && Valid() && All() == all && Translates(tables, root, now) && Grown(m0, tables, root)
      && now == Mapped(t0, first, done, ppn0, perm)
    }

    /** One round of mappages, done pages after the first; spent counts the tables that the pages so far have taken. */
    method MapStep(root: nat, n: nat, ppn: nat, perm: Flags, ghost now: map<nat, Pte>, ghost need: nat,
                   ghost all: set<nat>, ghost m0: map<nat, Table>, ghost t0: map<nat, Pte>, ghost first: nat,
                   ghost done: nat, ghost ppn0: nat, ghost pages0: nat, ghost spent: nat)
      returns (ok: bool, ghost t': map<nat, Pte>, ghost spent': nat)
      requires Mapping(all, m0, root, t0, first, ppn0, perm, done, now)
      requires n < MAXPAGES && n !in t0 && Leaf(Pte(true, perm, ppn)) && n == first + done && ppn == ppn0 + done
      requires (done == 0 ==> Needs(tables, root, n, need)) && Budget(true, done, pages0, |pages|, need)
      requires Opened(m0, tables, root, first, n) && (done == 0 ==> tables == m0) && Lacks(m0, root, first, n, spent)
      modifies this`tables, this`free, this`pages
      ensures !ok ==> free == {}
      ensures Mapping(all, m0, root, t0, first, ppn0, perm, if ok then done + 1 else done, t')
      ensures Budget(ok, if ok then done + 1 else done, pages0, |pages|, need)
      ensures Lacks(m0, root, first, n + 1, spent') && (ok <==> |old(pages)| + spent >= spent')
      ensures ok ==> |pages| + spent' == |old(pages)| + spent && Opened(m0, tables, root, first, n + 1)
    {
      ghost var m, need' := tables, 0;
      ok, t', need' := MapRound(root, n, ppn, perm, now, need, all, m0, t0, first, done, ppn0, pages0);
      LacksNext(m0, m, root, first, n, spent, need');
      spent' := spent + need';
      if ok {
        OpenedTrans(m0, m, tables, root, first, n, n + 1);
      }
    }

    method MapRound(root: nat, n: nat, ppn: nat, perm: Flags, ghost now: map<nat, Pte>, ghost need: nat,
                    ghost all: set<nat>, ghost m0: map<nat, Table>, ghost t0: map<nat, Pte>, ghost first: nat,
                    ghost done: nat, ghost ppn0: nat, ghost pages0: nat)
      returns (ok: bool, ghost t': map<nat, Pte>, ghost need': nat)
      requires Mapping(all, m0, root, t0, first, ppn0, perm, done, now)
      requires n < MAXPAGES && n !in t0 && Leaf(Pte(true, perm, ppn)) && n == first + done && ppn == ppn0 + done
      requires (done == 0 ==> Needs(tables, root, n, need)) && Budget(true, done, pages0, |pages|, need)
      modifies this`tables, this`free, this`pages
      ensures !ok ==> free == {}
      ensures Mapping(all, m0, root, t0, first, ppn0, perm, if ok then done + 1 else done, t')
      ensures Budget(ok, if ok then done + 1 else done, pages0, |pages|, need)
      ensures Needs(old(tables), root, n, need') && (ok <==> |old(pages)| >= need')
      ensures ok ==> |pages| + need' == |old(pages)| && Opened(old(tables), tables, root, n, n + 1)
    {
      assert MappingIn(all, m0, root, t0, first, ppn0, perm, done, now);
      MappedAt(t0, first, done, ppn0, perm, n);
      ok, t', need' := MapNext(root, n, ppn, perm, now, done == 0, need);
      GrownTrans(m0, old(tables), tables, root);
      if ok {
        MappedStep(t0, first, done, ppn0, perm, now, n, ppn);
        assert MappingIn(all, m0, root, t0, first, ppn0, perm, done + 1, t');
      } else {
        assert MappingIn(all, m0, root, t0, first, ppn0, perm, done, t');
      }
    }

    /** MapOne, with need given for the first page only */
    method MapNext(root: nat, n: nat, ppn: nat, perm: Flags, ghost t: map<nat, Pte>, ghost first: bool, ghost need: nat)
      returns (ok: bool, ghost t': map<nat, Pte>, ghost now: nat)
      requires first ==> Needs(tables, root, n, need)
      requires Valid() && Translates(tables, root, t) && n < MAXPAGES && n !in t && Leaf(Pte(true, perm, ppn))
      modifies this`tables, this`free, this`pages
      ensures Valid() && All() == old(All()) && Grown(old(tables), tables, root)
      ensures Translates(tables, root, t')
      ensures t' == if ok then t[n := Pte(true, perm, ppn)] else t
      ensures (!ok ==> free == {}) && |pages| <= |old(pages)|
      ensures first ==> (ok <==> |old(pages)| >= need) && (ok ==> |pages| + need == |old(pages)|)
      ensures Needs(old(tables), root, n, now) && (ok <==> |old(pages)| >= now)
      ensures ok ==> |pages| + now == |old(pages)| && Opened(old(tables), tables, root, n, n + 1)
    {
      now := need;
      if !first {
        now := NeedOf(tables, root, n);
      }
      ok, t' := MapOne(root, n, ppn, perm, t, now);
    }

    /** One round of unmap */
    method UnmapOne(root: nat, n: nat, doFree: bool, ghost t: map<nat, Pte>) returns (ghost t': map<nat, Pte>)
      requires Valid() && Translates(tables, root, t) && n in t
      requires doFree ==> t[n].ppn in data
      modifies this
      ensures Valid() && All() == old(All()) && Grown(old(tables), tables, root) && tables.Keys == old(tables).Keys
      ensures Translates(tables, root, t') && t' == t - {n}
      ensures data == if doFree then old(data) - {t[n].ppn} else old(data)
    {
      var x := Find(root, n, t);
      var e := GetPte(root, n, x.value, t);
      if doFree {
        DestroyPage(e.ppn);
      }
      SetPte(root, n, x.value, EMPTY, t);
      t' := Put(t, n, EMPTY);
    }

    /** unmap: removes exactly npages mappings, which must exist, and may free their pages. */
    method Unmap(root: nat, start: nat, npages: nat, doFree: bool, ghost t: map<nat, Pte>)
      returns (ghost t': map<nat, Pte>)
      requires Valid() && Translates(tables, root, t) && npages >= 1 && AllMapped(t, start, npages)
      requires doFree ==> OwnFrames(t, start, npages, data)
      modifies this
      ensures Valid() && All() == old(All()) && Grown(old(tables), tables, root) && tables.Keys == old(tables).Keys
      ensures Translates(tables, root, t') && t' == Unmapped(t, start, npages)
      ensures data == if doFree then old(data) - Frames(t, start, npages) else old(data)
    {
      ghost var all := All();
      t' := t;
      assert UnmappingIn(all, tables, data, root, t, start, 0, doFree, t');
      var k := 0;
      while k < npages
        invariant 0 <= k <= npages
        invariant Unmapping(all, old(tables), old(data), root, t, start, k, doFree, t')
      {
        t' := UnmapRound(root, start + k, doFree, t', all, old(tables), old(data), t, start, k, npages);
        k := k + 1;
      }
      assert UnmappingIn(all, old(tables), old(data), root, t, start, k, doFree, t');
      DroppedIs(old(data), t, start, npages);
    }

    /** unmap has removed k pages from start on; behind a quantifier to keep the tables folded */
    ghost predicate Unmapping(all: set<nat>, m0: map<nat, Table>, data0: map<nat, seq<Byte>>, root: nat,
                              t0: map<nat, Pte>, start: nat, k: nat, doFree: bool, now: map<nat, Pte>)
      requires AllMapped(t0, start, k)
      reads this
    {
      forall u :: u == now ==> UnmappingIn(all, m0, data0, root, t0, start, k, doFree, u)
    }

    ghost predicate UnmappingIn(all: set<nat>, m0: map<nat, Table>, data0: map<nat, seq<Byte>>, root: nat,
                                t0: map<nat, Pte>, start: nat, k: nat, doFree: bool, now: map<nat, Pte>)
      requires AllMapped(t0, start, k)
      reads this
    {
      && Valid() && All() == all && Grown(m0, tables, root) && tables.Keys == m0.Keys
      && Translates(tables, root, now) && now == Unmapped(t0, start, k)
      && data == Kept(data0, t0, start, k, doFree)
    }

    /** unmap's round k, for page n; m0 and data0 are what there was before the first. */
    method UnmapRound(root: nat, n: nat, doFree: bool, ghost now: map<nat, Pte>, ghost all: set<nat>,
                      ghost m0: map<nat, Table>, ghost data0: map<nat, seq<Byte>>, ghost t0: map<nat, Pte>,
                      ghost start: nat, ghost k: nat, ghost npages: nat) returns (ghost t': map<nat, Pte>)
      requires k < npages && AllMapped(t0, start, npages) && n == start + k
      requires doFree ==> OwnFrames(t0, start, npages, data0)
      requires Unmapping(all, m0, data0, root, t0, start, k, doFree, now)
      modifies this
      ensures Unmapping(all, m0, data0, root, t0, start, k + 1, doFree, t')
    {
      assert UnmappingIn(all, m0, data0, root, t0, start, k, doFree, now);
      UnmapStep(data0, t0, start, k, npages, doFree, now, data, n);
      t' := UnmapOne(root, n, doFree, now);
      GrownTrans(m0, old(tables), tables, root);
    }

    /** walkaddr: the frame of a user page; an address at or above MAXVA is not mapped. */
    method WalkAddr(root: nat, va: nat, ghost t: map<nat, Pte>) returns (r: Option<nat>)
      requires Valid() && Translates(tables, root, t)
      ensures r == if va / PGSIZE in t && t[va / PGSIZE].flags.user then Some(t[va / PGSIZE].ppn) else None
    {
      if va >= MAXPAGES * PGSIZE {
        return None;
      }
      var x := Find(root, va / PGSIZE, t);
      if x == None {
        return None;
      }
      var e := GetPte(root, va / PGSIZE, x.value, t);
      if !e.valid || !e.flags.user {
        return None;
      }
      return Some(e.ppn);
    }

    /** One round of freewalk: the subtree of entry i, if any, is freed and the entry cleared. */
    method FreeChild(f: nat, i: nat, ghost d: nat, ghost m: map<nat, Table>)
      requires Valid() && i < ENTRIES && Tree(m, f, d) && Bare(m, f, d) && Freeing(m, tables, f, d, i)
      modifies this`tables, this`free, this`pages
      ensures Valid() && Freeing(m, tables, f, d, i + 1)
      ensures free + tables.Keys == old(free) + old(tables).Keys
      decreases d, 0
    {
      var pte := tables[f][i];
      if pte.valid {
        ghost var was := tables;
        ThisChild(m, tables, f, d, i);
        FreeWalk(pte.ppn, d - 1);
        tables := tables[f := tables[f][i := EMPTY]];
        ChildFreed(m, was, tables, f, d, i);
      }
    }

    /** freewalk: every table page of the tree goes back to the allocator, once; leaves panic. */
    method FreeWalk(f: nat, ghost d: nat)
      requires Valid() && Tree(tables, f, d) && Bare(tables, f, d)
      modifies this`tables, this`free, this`pages
      ensures Valid() && tables == old(tables) - Sub(old(tables), f, d)
      ensures free + tables.Keys == old(free) + old(tables).Keys
      decreases d, 1
    {
      ghost var m := tables;
      for i := 0 to ENTRIES
        invariant Valid() && Freeing(m, tables, f, d, i)
        invariant free + tables.Keys == old(free) + old(tables).Keys
      {
        FreeChild(f, i, d, m);
      }
      FreedAll(m, tables, f, d);
      DestroyTable(f);
    }
  }

  lemma ThisChild(m: map<nat, Table>, now: map<nat, Table>, f: nat, d: nat, i: nat)
    requires i < ENTRIES && Tree(m, f, d) && Bare(m, f, d) && Freeing(m, now, f, d, i) && now[f][i].valid
    ensures now[f][i] == m[f][i] && d > 0 && Tree(now, m[f][i].ppn, d - 1) && Bare(now, m[f][i].ppn, d - 1)
    ensures Sub(now, m[f][i].ppn, d - 1) == Below(m, m[f][i], d) && f !in Below(m, m[f][i], d)
  {
    assert Child(m, f, m[f][i], d);
    NextChild(m, now, f, d, i);
  }

  /** freewalk's step from entry i to the next. */
  lemma ChildFreed(m: map<nat, Table>, was: map<nat, Table>, now: map<nat, Table>, f: nat, d: nat, i: nat)
    requires f in m && |m[f]| == ENTRIES && d > 0 && i < ENTRIES && Freeing(m, was, f, d, i)
    requires f !in Below(m, m[f][i], d) && now == (was - Below(m, m[f][i], d))[f := was[f][i := EMPTY]]
    ensures Freeing(m, now, f, d, i + 1)
  {
    assert now.Keys == was.Keys - Below(m, m[f][i], d);
  }

  /** freewalk has freed the subtrees of the first i entries of f. */
  ghost predicate Freeing(m: map<nat, Table>, now: map<nat, Table>, f: nat, d: nat, i: nat)
    requires f in m && |m[f]| == ENTRIES && i <= ENTRIES
  {
    && f in now && |now[f]| == ENTRIES
    && now.Keys == m.Keys - (if d > 0 then UpTo(m, f, d, i) else {})
    && (forall x :: x in now && x != f ==> now[x] == m[x])
    && (forall j :: i <= j < ENTRIES ==> now[f][j] == m[f][j])
  }

  lemma FreedAll(m: map<nat, Table>, now: map<nat, Table>, f: nat, d: nat)
    requires f in m && |m[f]| == ENTRIES && Freeing(m, now, f, d, ENTRIES)
    ensures now - {f} == m - Sub(m, f, d)
  {
    if d > 0 {
      UpToAll(m, f, d);
    }
  }
}

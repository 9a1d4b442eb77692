/** User memory of kernel/vm.zig: alloc, dealloc, growing a process, and a page table's whole life. */
module VmUser {
  import opened Common
  import opened PageTables
  import opened TableCount
  import opened VmCode

  /** The number of pages that size bytes need: pageRoundUp(size) / PGSIZE */
  function PageUp(size: nat): (n: nat)
    ensures n * PGSIZE - PGSIZE < size <= n * PGSIZE
  {
    (size + PGSIZE - 1) / PGSIZE
  }

  /** Exactly the first n pages below TRAPFRAME are mapped, to data pages of their own. */
  ghost predicate User(t: map<nat, Pte>, data: map<nat, seq<Byte>>, n: nat) {
    && n <= TRAPFRAME
    && AllMapped(t, 0, n)
    && OwnFrames(t, 0, n, data)
    && NoneMapped(t, n, TRAPFRAME - n)
  }

  /** t' and data' extend t and data by zeroed pages lo to hi. */
  ghost predicate Extends(t: map<nat, Pte>, data: map<nat, seq<Byte>>, t': map<nat, Pte>,
                          data': map<nat, seq<Byte>>, lo: nat, hi: nat, perm: Flags) {
    && (forall n: nat :: !(lo <= n < hi) ==> Get(t', n) == Get(t, n))
    && (forall n: nat :: lo <= n < hi ==> FreshPage(t', data, data', n, perm))
    && (forall p :: p in data ==> p in data' && data'[p] == data[p])
    && (forall p :: p in data' && p !in data ==> exists n: nat :: lo <= n < hi && n in t' && t'[n].ppn == p)
  }

  ghost predicate FreshPage(t': map<nat, Pte>, data: map<nat, seq<Byte>>, data': map<nat, seq<Byte>>, n: nat,
                            perm: Flags) {
    && n in t' && t'[n] == Pte(true, perm, t'[n].ppn)
    && t'[n].ppn in data' && t'[n].ppn !in data && data'[t'[n].ppn] == ZeroPage()
  }

  lemma ExtendOne(t: map<nat, Pte>, data: map<nat, seq<Byte>>, t1: map<nat, Pte>, data1: map<nat, seq<Byte>>,
                  lo: nat, hi: nat, perm: Flags, g: nat)
    requires Extends(t, data, t1, data1, lo, hi, perm) && User(t1, data1, hi) && lo <= hi < TRAPFRAME && g !in data1
    ensures Extends(t, data, t1[hi := Pte(true, perm, g)], data1[g := ZeroPage()], lo, hi + 1, perm)
    ensures User(t1[hi := Pte(true, perm, g)], data1[g := ZeroPage()], hi + 1)
  {
    var t2, data2 := t1[hi := Pte(true, perm, g)], data1[g := ZeroPage()];
    forall n: nat | lo <= n < hi + 1
      ensures FreshPage(t2, data, data2, n, perm)
    {
      assert n < hi ==> FreshPage(t1, data, data1, n, perm);
    }
    forall n: nat | !(lo <= n < hi + 1)
      ensures Get(t2, n) == Get(t, n)
    {
      assert Get(t1, n) == Get(t, n);
    }
    forall p | p in data2 && p !in data
      ensures exists n: nat :: lo <= n < hi + 1 && n in t2 && t2[n].ppn == p
    {
      if p == g {
        assert t2[hi].ppn == p;
      } else {
        var n: nat :| lo <= n < hi && n in t1 && t1[n].ppn == p;
        assert t2[n].ppn == p;
      }
    }
  }

  /** t' and data' extend t and data by pages lo to hi, in frames of their own. */
  ghost predicate Added(t: map<nat, Pte>, data: map<nat, seq<Byte>>, t': map<nat, Pte>, data': map<nat, seq<Byte>>,
                        lo: nat, hi: nat) {
    && (forall n: nat :: !(lo <= n < hi) ==> Get(t', n) == Get(t, n))
    && (forall n: nat :: lo <= n < hi ==> NewFrame(t', data, data', n))
    && (forall p :: p in data ==> p in data' && data'[p] == data[p])
    && (forall p :: p in data' && p !in data ==> exists n: nat :: lo <= n < hi && n in t' && t'[n].ppn == p)
  }

  ghost predicate NewFrame(t': map<nat, Pte>, data: map<nat, seq<Byte>>, data': map<nat, seq<Byte>>, n: nat) {
    n in t' && t'[n].ppn in data' && t'[n].ppn !in data
  }

  lemma ExtendsAdds(t: map<nat, Pte>, data: map<nat, seq<Byte>>, t1: map<nat, Pte>, data1: map<nat, seq<Byte>>,
                    lo: nat, hi: nat, perm: Flags)
    requires Extends(t, data, t1, data1, lo, hi, perm)
    ensures Added(t, data, t1, data1, lo, hi)
  {
    forall n: nat | lo <= n < hi
      ensures NewFrame(t1, data, data1, n)
    {
      assert FreshPage(t1, data, data1, n, perm);
    }
  }

  /** Undoing an extension gives back what was there before. */
  lemma ExtendUndone(t: map<nat, Pte>, data: map<nat, seq<Byte>>, t1: map<nat, Pte>, data1: map<nat, seq<Byte>>,
                     lo: nat, hi: nat)
    requires Added(t, data, t1, data1, lo, hi) && lo <= hi && AllMapped(t1, lo, hi - lo)
    requires NoneMapped(t, lo, hi - lo)
    ensures Unmapped(t1, lo, hi - lo) == t && data1 - Frames(t1, lo, hi - lo) == data
  {
    forall n: nat
      ensures Get(Unmapped(t1, lo, hi - lo), n) == Get(t, n)
    {
      UnmappedAt(t1, lo, hi - lo, n);
    }
    assert forall n: nat :: n in Unmapped(t1, lo, hi - lo) <==> n in t by {
      forall n: nat
        ensures n in Unmapped(t1, lo, hi - lo) <==> n in t
      {
        assert Get(Unmapped(t1, lo, hi - lo), n) == Get(t, n);
      }
    }
    forall n: nat | n in t
      ensures Unmapped(t1, lo, hi - lo)[n] == t[n]
    {
      assert Get(Unmapped(t1, lo, hi - lo), n) == Get(t, n);
    }
    forall p
      ensures p in data1 && p !in Frames(t1, lo, hi - lo) <==> p in data
    {
      if p in data1 {
        FramesHas(t1, lo, hi - lo, p);
        if n: nat :| lo <= n < hi && t1[n].ppn == p {
          assert NewFrame(t1, data, data1, n);
        }
      }
    }
  }

  lemma RolledBack(t: map<nat, Pte>, data: map<nat, seq<Byte>>, t1: map<nat, Pte>, data1: map<nat, seq<Byte>>,
                   lo: nat, hi: nat, perm: Flags,
                   t': map<nat, Pte>, data': map<nat, seq<Byte>>, a: nat, n: nat)
    requires Extends(t, data, t1, data1, lo, hi, perm) && lo <= hi && AllMapped(t1, lo, hi - lo)
    requires NoneMapped(t, lo, hi - lo)
    requires a == lo && n == hi - lo && t' == Unmapped(t1, a, n) && data' == data1 - Frames(t1, a, n)
    ensures t' == t && data' == data
  {
    ExtendsAdds(t, data, t1, data1, lo, hi, perm);
    ExtendUndone(t, data, t1, data1, lo, hi);
  }

  // ---------- dealloc and alloc ----------

  /** dealloc: does nothing, not even return 0, unless some memory remains; it removes count pages from page lo on. */
  method Dealloc(mem: Memory, root: nat, oldsz: nat, decrease: nat, ghost t: map<nat, Pte>)
    returns (newsz: nat, ghost lo: nat, ghost count: nat, ghost t': map<nat, Pte>)
    requires mem.Valid() && Translates(mem.tables, root, t)
    requires decrease < oldsz ==>
               var lo, n := PageUp(oldsz - decrease), PageUp(oldsz) - PageUp(oldsz - decrease);
               n >= 0 && AllMapped(t, lo, n) && OwnFrames(t, lo, n, mem.data)
    modifies mem
    ensures mem.Valid() && mem.All() == old(mem.All())
    ensures Grown(old(mem.tables), mem.tables, root) && mem.tables.Keys == old(mem.tables).Keys
    ensures newsz == if decrease < oldsz then oldsz - decrease else oldsz
    ensures lo == PageUp(newsz) && lo + count == PageUp(oldsz) && AllMapped(t, lo, count)
    ensures Translates(mem.tables, root, t') && t' == Unmapped(t, lo, count)
    ensures mem.data == old(mem.data) - Frames(t, lo, count)
  {
    newsz := if oldsz <= decrease then oldsz else oldsz - decrease;
    var old_, new_ := PageUp(oldsz), PageUp(newsz);
    lo, count := new_, old_ - new_;
    t' := UnmapPages(mem, root, new_, old_ - new_, t);
  }

  /** dealloc's call of unmap, if there is anything to unmap */
  method UnmapPages(mem: Memory, root: nat, lo: nat, count: nat, ghost t: map<nat, Pte>)
    returns (ghost t': map<nat, Pte>)
    requires mem.Valid() && Translates(mem.tables, root, t) && AllMapped(t, lo, count)
    requires OwnFrames(t, lo, count, mem.data)
    modifies mem
    ensures mem.Valid() && mem.All() == old(mem.All())
    ensures Grown(old(mem.tables), mem.tables, root) && mem.tables.Keys == old(mem.tables).Keys
    ensures Translates(mem.tables, root, t') && t' == Unmapped(t, lo, count)
    ensures mem.data == old(mem.data) - Frames(t, lo, count)
  {
    t' := t;
    if count > 0 {
      t' := mem.Unmap(root, lo, count, true, t);
    }
  }

  /** mappages of a single page */
  method MapPage(mem: Memory, root: nat, n: nat, ppn: nat, perm: Flags, ghost t: map<nat, Pte>, ghost need: nat)
    returns (ok: bool, ghost t': map<nat, Pte>)
    requires Needs(mem.tables, root, n, need)
    requires mem.Valid() && Translates(mem.tables, root, t) && n < MAXPAGES && n !in t && Leaf(Pte(true, perm, ppn))
    modifies mem`tables, mem`free, mem`pages
    ensures mem.Valid() && mem.All() == old(mem.All()) && Grown(old(mem.tables), mem.tables, root)
    ensures Translates(mem.tables, root, t') && t' == if ok then t[n := Pte(true, perm, ppn)] else t
    ensures ok <==> |old(mem.pages)| >= need
    ensures |mem.pages| + (if ok then need else 0) <= |old(mem.pages)|
    ensures ok ==> |mem.pages| + need == |old(mem.pages)| && Opened(old(mem.tables), mem.tables, root, n, n + 1)
  {
    ghost var done;
    LacksOne(mem.tables, root, n, need);
    assert n * PGSIZE / PGSIZE == n && (n * PGSIZE + PGSIZE - 1) / PGSIZE == n && ppn * PGSIZE / PGSIZE == ppn;
    ok, done, t' := mem.MapPages(root, n * PGSIZE, PGSIZE, ppn * PGSIZE, perm, t, need, need);
    assert Mapped(t, n, 1, ppn, perm) == Mapped(t, n, 0, ppn, perm)[n := Pte(true, perm, ppn)];
  }

  /** One page of alloc: a zeroed page is mapped, or nothing changes but for new tables. */
  method AllocOne(mem: Memory, root: nat, n: nat, perm: Flags, ghost t: map<nat, Pte>, ghost need: nat)
    returns (ok: bool, ghost g: nat, ghost t': map<nat, Pte>)
    requires Needs(mem.tables, root, n, need)
    requires mem.Valid() && Translates(mem.tables, root, t) && n < TRAPFRAME && n !in t && perm.readable
    modifies mem
    ensures mem.Valid() && mem.All() == old(mem.All()) && Grown(old(mem.tables), mem.tables, root)
    ensures Translates(mem.tables, root, t')
    ensures ok ==> g !in old(mem.data) && mem.data == old(mem.data)[g := ZeroPage()] && t' == t[n := Pte(true, perm, g)]
    ensures !ok ==> t' == t && mem.data == old(mem.data)
    ensures ok <==> |old(mem.pages)| > need
    ensures ok ==> |mem.pages| + 1 + need == |old(mem.pages)| && Opened(old(mem.tables), mem.tables, root, n, n + 1)
    ensures |mem.pages| <= |old(mem.pages)|
  {
    t', g := t, 0;
    var page := mem.CreatePage();
    if page == None {
      return false, g, t;
    }
    g := page.value;
    ok, t' := MapPage(mem, root, n, page.value, perm, t, need);
    if !ok {
      mem.DestroyPage(page.value);
      assert mem.data == old(mem.data);
    }
  }

  /**
   alloc: grows user memory from oldsz to oldsz + increase by zeroed pages.  On failure
   everything mapped so far is taken back, except that dealloc takes back nothing
   when oldsz is 0; kept counts the pages that stay.
   */
  method Alloc(mem: Memory, root: nat, oldsz: nat, increase: nat, xperm: Flags, ghost t: map<nat, Pte>,
               ghost need: nat, ghost total: nat)
    returns (ok: bool, newsz: nat, ghost kept: nat, ghost t': map<nat, Pte>)
    requires Needs(mem.tables, root, PageUp(oldsz), need)
    requires Lacks(mem.tables, root, PageUp(oldsz), PageUp(oldsz + increase), total)
    requires mem.Valid() && Translates(mem.tables, root, t) && User(t, mem.data, PageUp(oldsz))
    requires oldsz + increase <= TRAPFRAME * PGSIZE
    modifies mem
    ensures mem.Valid() && mem.All() == old(mem.All()) && Grown(old(mem.tables), mem.tables, root)
    ensures Translates(mem.tables, root, t')
    ensures ok ==> newsz == oldsz + increase && kept == PageUp(newsz)
    ensures !ok ==> kept < PageUp(oldsz + increase)
    ensures ok || oldsz == 0 ==>
              Grew(t, old(mem.data), t', mem.data, PageUp(oldsz), kept, xperm.(readable := true, user := true))
    ensures !ok && oldsz > 0 ==> t' == t && mem.data == old(mem.data) && kept == PageUp(oldsz)
    ensures !ok && oldsz == 0 ==> (kept > 0 <==> |old(mem.pages)| > need)
    ensures ok <==> |old(mem.pages)| >= PageUp(oldsz + increase) - PageUp(oldsz) + total
    ensures ok ==> |mem.pages| + PageUp(oldsz + increase) - PageUp(oldsz) + total == |old(mem.pages)|
  {
    var flags := xperm.(readable := true, user := true);
    newsz := oldsz + increase;
    var page;
    ghost var all := mem.All();
    assert GrowingIn(mem, all, mem.tables, mem.data, root, t, PageUp(oldsz), PageUp(oldsz), flags, t);
    ok, page, t' := AllocLoop(mem, root, PageUp(oldsz), newsz, flags, t, need, total, all);
    assert GrowingIn(mem, all, old(mem.tables), old(mem.data), root, t, PageUp(oldsz), page, flags, t');
    kept := page;
    if !ok {
      ghost var m := mem.tables;
      kept, t' := Rollback(mem, root, oldsz, page, t, old(mem.data), flags, t');
      GrownTrans(old(mem.tables), m, mem.tables, root);
    }
  }

  /** alloc has grown memory up to page; behind a quantifier to keep the tables folded */
  ghost predicate Growing(mem: Memory, all: set<nat>, m0: map<nat, Table>, data0: map<nat, seq<Byte>>, root: nat,
                          t: map<nat, Pte>, lo: nat, page: nat, flags: Flags, now: map<nat, Pte>)
    reads mem
  {
    forall u :: u == now ==> GrowingIn(mem, all, m0, data0, root, t, lo, page, flags, u)
  }

  ghost predicate GrowingIn(mem: Memory, all: set<nat>, m0: map<nat, Table>, data0: map<nat, seq<Byte>>, root: nat,
                            t: map<nat, Pte>, lo: nat, page: nat, flags: Flags, now: map<nat, Pte>)
    reads mem
  {
    && mem.Valid() && mem.All() == all && Grown(m0, mem.tables, root) && Translates(mem.tables, root, now)
    && Grew(t, data0, now, mem.data, lo, page, flags)
  }

  /** alloc's loop, up to the first page it cannot have; spent counts the tables that the pages so far have taken. */
  method AllocLoop(mem: Memory, root: nat, page0: nat, newsz: nat, flags: Flags, ghost t: map<nat, Pte>,
                   ghost need: nat, ghost total: nat, ghost all: set<nat>)
    returns (ok: bool, page: nat, ghost t': map<nat, Pte>)
    requires Needs(mem.tables, root, page0, need) && page0 <= PageUp(newsz) <= TRAPFRAME && flags.readable
    requires Lacks(mem.tables, root, page0, PageUp(newsz), total)
    requires Growing(mem, all, mem.tables, mem.data, root, t, page0, page0, flags, t)
    modifies mem
    ensures Growing(mem, all, old(mem.tables), old(mem.data), root, t, page0, page, flags, t')
    ensures page0 <= page && if ok then page == PageUp(newsz) else page < PageUp(newsz)
    ensures !ok ==> (page > page0 <==> |old(mem.pages)| > need)
    ensures ok <==> |old(mem.pages)| >= PageUp(newsz) - page0 + total
    ensures ok ==> |mem.pages| + PageUp(newsz) - page0 + total == |old(mem.pages)|
  {
    page := page0;
    t', ok := t, true;
    ghost var spent := 0;
    LacksNone(mem.tables, root, page0);
    OpenedNone(mem.tables, root, page0);
    LacksOne(mem.tables, root, page0, need);
    while ok && page * PGSIZE < newsz
      invariant page0 <= page <= PageUp(newsz) && (ok || page < PageUp(newsz))
      invariant Growing(mem, all, old(mem.tables), old(mem.data), root, t, page0, page, flags, t')
      invariant ok ==> Opened(old(mem.tables), mem.tables, root, page0, page)
      invariant ok && page == page0 ==> mem.tables == old(mem.tables)
      invariant Lacks(old(mem.tables), root, page0, if ok then page else page + 1, spent)
      invariant if ok then |mem.pages| + (page - page0) + spent == |old(mem.pages)|
                else |old(mem.pages)| < page + 1 - page0 + spent
      invariant page > page0 ==> |old(mem.pages)| > need
      invariant page == page0 && !ok ==> |old(mem.pages)| <= need
      decreases ok, newsz - page * PGSIZE
    {
      ok, t', spent := AllocStep(mem, root, page0, page, flags, t, t', all, old(mem.tables), old(mem.data), spent);
      LacksGrow(old(mem.tables), root, page0, page0 + 1, page + 1, need, spent);
      if ok {
        page := page + 1;
      }
    }
    LacksGrow(old(mem.tables), root, page0, if ok then page else page + 1, PageUp(newsz), spent, total);
  }

  /** One round of alloc's loop; t, m0 and data0 are what there was before the first, and lo its page. */
  method AllocStep(mem: Memory, root: nat, ghost lo: nat, page: nat, flags: Flags, ghost t: map<nat, Pte>,
                   ghost now: map<nat, Pte>, ghost all: set<nat>, ghost m0: map<nat, Table>,
                   ghost data0: map<nat, seq<Byte>>, ghost spent: nat)
    returns (ok: bool, ghost t': map<nat, Pte>, ghost spent': nat)
    requires Growing(mem, all, m0, data0, root, t, lo, page, flags, now) && lo <= page < TRAPFRAME && flags.readable
    requires Opened(m0, mem.tables, root, lo, page) && (page == lo ==> mem.tables == m0)
    requires Lacks(m0, root, lo, page, spent)
    modifies mem
    ensures Growing(mem, all, m0, data0, root, t, lo, if ok then page + 1 else page, flags, t')
    ensures Lacks(m0, root, lo, page + 1, spent') && (ok <==> |old(mem.pages)| + spent > spent')
    ensures ok ==> |mem.pages| + 1 + spent' == |old(mem.pages)| + spent && Opened(m0, mem.tables, root, lo, page + 1)
  {
    ghost var m := mem.tables;
    ghost var need := NeedOf(mem.tables, root, page);
    ok, t' := AllocRound(mem, root, lo, page, flags, t, now, all, m0, data0, need);
    LacksNext(m0, m, root, lo, page, spent, need);
    spent' := spent + need;
    if ok {
      OpenedTrans(m0, m, mem.tables, root, lo, page, page + 1);
    }
  }

  method AllocRound(mem: Memory, root: nat, ghost lo: nat, page: nat, flags: Flags, ghost t: map<nat, Pte>,
                    ghost now: map<nat, Pte>, ghost all: set<nat>, ghost m0: map<nat, Table>,
                    ghost data0: map<nat, seq<Byte>>, ghost need: nat) returns (ok: bool, ghost t': map<nat, Pte>)
    requires Growing(mem, all, m0, data0, root, t, lo, page, flags, now) && page < TRAPFRAME && flags.readable
    requires Needs(mem.tables, root, page, need)
    modifies mem
    ensures Growing(mem, all, m0, data0, root, t, lo, if ok then page + 1 else page, flags, t')
    ensures ok <==> |old(mem.pages)| > need
    ensures ok ==> |mem.pages| + need + 1 == |old(mem.pages)|
    ensures ok ==> Opened(old(mem.tables), mem.tables, root, page, page + 1)
  {
    ghost var g;
    assert GrowingIn(mem, all, m0, data0, root, t, lo, page, flags, now);
    ok, g, t' := AllocOne(mem, root, page, flags, now, need);
    GrownTrans(m0, old(mem.tables), mem.tables, root);
    if ok {
      ExtendOne(t, data0, now, old(mem.data), lo, page, flags, g);
      assert GrowingIn(mem, all, m0, data0, root, t, lo, page + 1, flags, t');
    } else {
      assert GrowingIn(mem, all, m0, data0, root, t, lo, page, flags, t');
    }
  }

  /**
   A failed alloc from size 0 that leaves a page mapped: with three free pages, page 0
   takes them all, for itself and two tables, and page 1 cannot be had.
   */
  method AllocKeeps() returns (mem: Memory, ok: bool, ghost t: map<nat, Pte>)
    ensures mem.Valid() && Translates(mem.tables, 0, t) && !ok && 0 in t && t[0].ppn in mem.data
  {
    mem := new Memory(0, [1, 2, 3]);
    EmptyTranslates(mem.tables, 0);
    EmptyNeeds(mem.tables, 0, 0);
    ghost var total := LacksOf(mem.tables, 0, 0, 2);
    LacksOne(mem.tables, 0, 0, 2);
    LacksGrow(mem.tables, 0, 0, 1, 2, 2, total);
    var size;
    ghost var kept;
    ok, size, kept, t := Alloc(mem, 0, 0, 2 * PGSIZE, NOFLAGS, map[], 2, total);
    assert FreshPage(t, map[], mem.data, 0, Flags(true, false, false, true));
  }

  lemma EmptyNeeds(m: map<nat, Table>, root: nat, n: nat)
    requires root in m && m[root] == ZeroTable()
    ensures Needs(m, root, n, 2)
  {
    ReachEnds(m, root, Split(n), 0, 1);
    ReachEnds(m, root, Split(n), 0, 2);
    assert Missing(m, root, Split(n), 1) == 1;
  }

  /** Pages lo to hi were added and now make up user memory with those before. */
  ghost predicate Grew(t: map<nat, Pte>, data: map<nat, seq<Byte>>, t': map<nat, Pte>, data': map<nat, seq<Byte>>,
                       lo: nat, hi: nat, perm: Flags) {
    lo <= hi && User(t', data', hi) && Extends(t, data, t', data', lo, hi, perm)
  }

  lemma RollbackSizes(oldsz: nat, page: nat)
    requires PageUp(oldsz) <= page
    ensures oldsz <= page * PGSIZE && page * PGSIZE - (page * PGSIZE - oldsz) == oldsz && PageUp(page * PGSIZE) == page
  {
  }

  /** alloc's errdefer */
  method Rollback(mem: Memory, root: nat, oldsz: nat, page: nat, ghost t: map<nat, Pte>,
                  ghost data: map<nat, seq<Byte>>, ghost perm: Flags, ghost now: map<nat, Pte>)
    returns (ghost kept: nat, ghost t': map<nat, Pte>)
    requires mem.Valid() && Translates(mem.tables, root, now) && PageUp(oldsz) <= page && User(now, mem.data, page)
    requires Extends(t, data, now, mem.data, PageUp(oldsz), page, perm) && User(t, data, PageUp(oldsz))
    modifies mem
    ensures mem.Valid() && mem.All() == old(mem.All()) && Grown(old(mem.tables), mem.tables, root)
    ensures Translates(mem.tables, root, t')
    ensures oldsz > 0 ==> t' == t && mem.data == data && kept == PageUp(oldsz)
    ensures oldsz == 0 ==> t' == now && mem.data == old(mem.data) && kept == page
  {
    var sz;
    ghost var count;
    RollbackSizes(oldsz, page);
    sz, kept, count, t' := Dealloc(mem, root, page * PGSIZE, page * PGSIZE - oldsz, now);
    if oldsz > 0 {
      RolledBack(t, data, now, old(mem.data), PageUp(oldsz), page, perm, t', mem.data, kept, count);
    }
  }

  // ---------- A process's memory ----------

  /** The page table of a process with n pages of user memory: those, the trapframe and the trampoline */
  ghost predicate Process(t: map<nat, Pte>, data: map<nat, seq<Byte>>, n: nat) {
    && User(t, data, n)
    && TRAPFRAME in t && TRAMPOLINE in t
  }

  lemma ShrunkUser(t: map<nat, Pte>, data: map<nat, seq<Byte>>, lo: nat, count: nat)
    requires Process(t, data, lo + count)
    ensures Process(Unmapped(t, lo, count), data - Frames(t, lo, count), lo)
  {
    var t', data' := Unmapped(t, lo, count), data - Frames(t, lo, count);
    forall n: nat
      ensures Get(t', n) == if lo <= n < lo + count then None else Get(t, n)
    {
      UnmappedAt(t, lo, count, n);
    }
    assert AllMapped(t', 0, lo) && NoneMapped(t', lo, TRAPFRAME - lo) && TRAPFRAME in t' && TRAMPOLINE in t' by {
      assert forall n: nat :: n in t' <==> Get(t', n).Some?;
    }
    forall n: nat | n < lo
      ensures t'[n] == t[n] && t[n].ppn in data'
    {
      assert Get(t', n) == Get(t, n);
      FramesHas(t, lo, count, t[n].ppn);
    }
  }

  lemma GrewProcess(t: map<nat, Pte>, data: map<nat, seq<Byte>>, t': map<nat, Pte>, data': map<nat, seq<Byte>>,
                    lo: nat, hi: nat, perm: Flags)
    requires Process(t, data, lo) && Grew(t, data, t', data', lo, hi, perm)
    ensures Process(t', data', hi)
  {
    assert Get(t', TRAPFRAME) == Get(t, TRAPFRAME) && Get(t', TRAMPOLINE) == Get(t, TRAMPOLINE);
  }

  /** The data pages that are not this process's */
  ghost function Others(t: map<nat, Pte>, data: map<nat, seq<Byte>>, n: nat): (r: map<nat, seq<Byte>>)
    requires AllMapped(t, 0, n)
  {
    data - Frames(t, 0, n)
  }

  lemma GrewOthers(t: map<nat, Pte>, data: map<nat, seq<Byte>>, t': map<nat, Pte>, data': map<nat, seq<Byte>>,
                   lo: nat, hi: nat, perm: Flags)
    requires User(t, data, lo) && Grew(t, data, t', data', lo, hi, perm)
    ensures Others(t', data', hi) == Others(t, data, lo)
  {
    forall p: nat | p in data'
      ensures p in Frames(t', 0, hi) <==> p !in data || p in Frames(t, 0, lo)
    {
      FramesHas(t', 0, hi, p);
      FramesHas(t, 0, lo, p);
      if p in data {
        if n: nat :| n < hi && t'[n].ppn == p {
          assert lo <= n ==> FreshPage(t', data, data', n, perm);
          assert Get(t', n) == Get(t, n);
        }
        if n: nat :| n < lo && t[n].ppn == p {
          assert Get(t', n) == Get(t, n);
          assert t'[n].ppn == p;
        }
      }
    }
  }

  lemma ShrunkOthers(t: map<nat, Pte>, data: map<nat, seq<Byte>>, lo: nat, count: nat)
    requires AllMapped(t, 0, lo + count) && AllMapped(Unmapped(t, lo, count), 0, lo)
    ensures Others(Unmapped(t, lo, count), data - Frames(t, lo, count), lo) == Others(t, data, lo + count)
  {
    var t' := Unmapped(t, lo, count);
    forall p: nat
      ensures p in Frames(t, 0, lo + count) <==> p in Frames(t', 0, lo) || p in Frames(t, lo, count)
    {
      FramesHas(t, 0, lo + count, p);
      FramesHas(t', 0, lo, p);
      FramesHas(t, lo, count, p);
      forall n: nat | n < lo
        ensures t'[n] == t[n]
      {
        UnmappedAt(t, lo, count, n);
        assert Get(t', n) == Get(t, n);
      }
    }
  }

  // ---------- What is in a process's memory ----------

  /** Page n has the same frame, flags and bytes as before. */
  ghost predicate KeptPage(t: map<nat, Pte>, data: map<nat, seq<Byte>>, t': map<nat, Pte>, data': map<nat, seq<Byte>>,
                           n: nat) {
    && n in t && n in t' && t'[n] == t[n]
    && t[n].ppn in data && t[n].ppn in data' && data'[t[n].ppn] == data[t[n].ppn]
  }

  ghost predicate KeepsPages(t: map<nat, Pte>, data: map<nat, seq<Byte>>, t': map<nat, Pte>,
                             data': map<nat, seq<Byte>>, n: nat) {
    forall k: nat :: k < n ==> KeptPage(t, data, t', data', k)
  }

  /** Page n is the process's to read and write but not to execute, and holds zeros. */
  ghost predicate BlankPage(t: map<nat, Pte>, data: map<nat, seq<Byte>>, n: nat) {
    && n in t && t[n].valid && t[n].flags.user && t[n].flags.readable && t[n].flags.writable && !t[n].flags.executable
    && t[n].ppn in data && |data[t[n].ppn]| == PGSIZE && forall i :: 0 <= i < PGSIZE ==> data[t[n].ppn][i] == 0
  }

  ghost predicate BlankPages(t: map<nat, Pte>, data: map<nat, seq<Byte>>, lo: nat, hi: nat) {
    forall n: nat :: lo <= n < hi ==> BlankPage(t, data, n)
  }

  /** The trapframe and the trampoline stay mapped as they were. */
  ghost predicate KernelKept(t: map<nat, Pte>, t': map<nat, Pte>) {
    Get(t', TRAPFRAME) == Get(t, TRAPFRAME) && Get(t', TRAMPOLINE) == Get(t, TRAMPOLINE)
  }

  lemma GrewPages(t: map<nat, Pte>, data: map<nat, seq<Byte>>, t': map<nat, Pte>, data': map<nat, seq<Byte>>,
                  lo: nat, hi: nat, perm: Flags)
    requires User(t, data, lo) && Grew(t, data, t', data', lo, hi, perm)
    requires perm.readable && perm.writable && !perm.executable && perm.user
    ensures KeepsPages(t, data, t', data', lo) && BlankPages(t', data', lo, hi) && KernelKept(t, t')
  {
    forall n: nat | n < lo
      ensures KeptPage(t, data, t', data', n)
    {
      assert Get(t', n) == Get(t, n);
    }
    forall n: nat | lo <= n < hi
      ensures BlankPage(t', data', n)
    {
      assert FreshPage(t', data, data', n, perm);
    }
  }

  lemma ShrunkPages(t: map<nat, Pte>, data: map<nat, seq<Byte>>, lo: nat, count: nat)
    requires Process(t, data, lo + count)
    ensures var t', data' := Unmapped(t, lo, count), data - Frames(t, lo, count);
            KeepsPages(t, data, t', data', lo) && KernelKept(t, t')
  {
    var t', data' := Unmapped(t, lo, count), data - Frames(t, lo, count);
    forall n: nat | n < lo
      ensures KeptPage(t, data, t', data', n)
    {
      UnmappedAt(t, lo, count, n);
      assert Get(t', n) == Get(t, n);
      FramesHas(t, lo, count, t[n].ppn);
    }
    UnmappedAt(t, lo, count, TRAPFRAME);
    UnmappedAt(t, lo, count, TRAMPOLINE);
  }

  /** Pages that were kept twice were kept; pages that came first or second are blank. */
  lemma PagesOn(t0: map<nat, Pte>, data0: map<nat, seq<Byte>>, t1: map<nat, Pte>, data1: map<nat, seq<Byte>>,
                t2: map<nat, Pte>, data2: map<nat, seq<Byte>>, low: nat, hi1: nat, hi2: nat, low': nat)
    requires low <= hi1 && low' == (if hi2 < low then hi2 else low)
    requires KeepsPages(t0, data0, t1, data1, low) && BlankPages(t1, data1, low, hi1)
    requires KeepsPages(t1, data1, t2, data2, if hi2 < hi1 then hi2 else hi1) && BlankPages(t2, data2, hi1, hi2)
    ensures KeepsPages(t0, data0, t2, data2, low') && BlankPages(t2, data2, low', hi2)
  {
    forall n: nat | n < low'
      ensures KeptPage(t0, data0, t2, data2, n)
    {
      assert KeptPage(t0, data0, t1, data1, n) && KeptPage(t1, data1, t2, data2, n);
    }
    forall n: nat | low' <= n < hi2
      ensures BlankPage(t2, data2, n)
    {
      if n < hi1 {
        assert BlankPage(t1, data1, n) && KeptPage(t1, data1, t2, data2, n);
      }
    }
  }

  /** growproc by more memory: it fails exactly if the new pages and tables are too many, and then changes nothing. */
  method GrowUp(mem: Memory, root: nat, sz: nat, n: nat, ghost t: map<nat, Pte>, ghost total: nat)
    returns (sz': nat, ghost t': map<nat, Pte>)
    requires Lacks(mem.tables, root, PageUp(sz), PageUp(sz + n), total)
    requires mem.Valid() && Translates(mem.tables, root, t) && Process(t, mem.data, PageUp(sz))
    requires sz > 0 && sz + n <= TRAPFRAME * PGSIZE
    modifies mem
    ensures mem.Valid() && mem.All() == old(mem.All()) && Grown(old(mem.tables), mem.tables, root)
    ensures Translates(mem.tables, root, t') && Process(t', mem.data, PageUp(sz'))
    ensures Others(t', mem.data, PageUp(sz')) == Others(t, old(mem.data), PageUp(sz))
    ensures if |old(mem.pages)| >= PageUp(sz + n) - PageUp(sz) + total then sz' == sz + n
            else sz' == sz && t' == t && mem.data == old(mem.data)
    ensures KeepsPages(t, old(mem.data), t', mem.data, PageUp(sz)) && KernelKept(t, t')
    ensures BlankPages(t', mem.data, PageUp(sz), PageUp(sz'))
  {
    var ok, newsz;
    ghost var kept;
    ghost var need := NeedOf(mem.tables, root, PageUp(sz));
    ok, newsz, kept, t' := Alloc(mem, root, sz, n, Flags(false, true, false, false), t, need, total);
    if ok {
      sz' := newsz;
      GrewProcess(t, old(mem.data), t', mem.data, PageUp(sz), kept, Flags(true, true, false, true));
      GrewOthers(t, old(mem.data), t', mem.data, PageUp(sz), kept, Flags(true, true, false, true));
      GrewPages(t, old(mem.data), t', mem.data, PageUp(sz), kept, Flags(true, true, false, true));
    } else {
      sz' := sz;
    }
  }

  /** growproc by less memory; nothing happens unless some memory remains. */
  method GrowDown(mem: Memory, root: nat, sz: nat, n: nat, ghost t: map<nat, Pte>)
    returns (sz': nat, ghost t': map<nat, Pte>)
    requires mem.Valid() && Translates(mem.tables, root, t) && Process(t, mem.data, PageUp(sz))
    modifies mem
    ensures mem.Valid() && mem.All() == old(mem.All()) && Grown(old(mem.tables), mem.tables, root)
    ensures Translates(mem.tables, root, t') && Process(t', mem.data, PageUp(sz'))
    ensures Others(t', mem.data, PageUp(sz')) == Others(t, old(mem.data), PageUp(sz))
    ensures sz' == if n < sz then sz - n else sz
    ensures KeepsPages(t, old(mem.data), t', mem.data, PageUp(sz')) && KernelKept(t, t')
  {
    ghost var lo, count;
    sz', lo, count, t' := Dealloc(mem, root, sz, n, t);
    Shrunk(t, old(mem.data), lo, count, t', mem.data);
  }

  lemma Shrunk(t: map<nat, Pte>, data: map<nat, seq<Byte>>, lo: nat, count: nat, t': map<nat, Pte>,
               data': map<nat, seq<Byte>>)
    requires Process(t, data, lo + count) && t' == Unmapped(t, lo, count) && data' == data - Frames(t, lo, count)
    ensures Process(t', data', lo) && Others(t', data', lo) == Others(t, data, lo + count)
    ensures KeepsPages(t, data, t', data', lo) && KernelKept(t, t')
  {
    ShrunkUser(t, data, lo, count);
    ShrunkOthers(t, data, lo, count);
    ShrunkPages(t, data, lo, count);
  }

  // ---------- The life of a page table ----------

  /** What is left when the whole tree of root is gone does not depend on how it had grown. */
  lemma GrownFreed(m: map<nat, Table>, m': map<nat, Table>, root: nat)
    requires Grown(m, m', root)
    ensures Rest(m', root) == Rest(m, root)
  {
  }

  /** freewalk of a table that translates nothing */
  method FreeEmpty(mem: Memory, root: nat)
    requires mem.Valid() && Translates(mem.tables, root, map[])
    modifies mem`tables, mem`free, mem`pages
    ensures mem.Valid() && mem.All() == old(mem.All()) && mem.tables == Rest(old(mem.tables), root)
  {
    EmptyIsBare(mem.tables, root);
    mem.FreeWalk(root, TOP);
  }

  /** The tables that are not part of root's tree */
  ghost function Rest(m: map<nat, Table>, root: nat): (r: map<nat, Table>) {
    m - Sub(m, root, TOP)
  }

  ghost function KernelPages(trampoline: nat, trapframe: nat): (t: map<nat, Pte>) {
    map[TRAMPOLINE := Pte(true, Flags(true, false, true, false), trampoline),
        TRAPFRAME := Pte(true, Flags(true, true, false, false), trapframe)]
  }

  /** The trampoline may be read and executed and the trapframe read and written, both by the kernel only. */
  ghost predicate KernelOnly(t: map<nat, Pte>, trampoline: nat, trapframe: nat) {
    && t.Keys == {TRAMPOLINE, TRAPFRAME}
    && t[TRAMPOLINE].ppn == trampoline && t[TRAPFRAME].ppn == trapframe
    && !t[TRAMPOLINE].flags.user && !t[TRAPFRAME].flags.user
    && t[TRAMPOLINE].flags.readable && t[TRAMPOLINE].flags.executable && !t[TRAMPOLINE].flags.writable
    && t[TRAPFRAME].flags.readable && t[TRAPFRAME].flags.writable && !t[TRAPFRAME].flags.executable
  }

  /** createPagetable: a table with trampoline and trapframe in three pages, or nothing allocated at all */
  method CreatePagetable(mem: Memory, trampoline: nat, trapframe: nat) returns (r: Option<nat>)
    requires mem.Valid()
    modifies mem
    ensures mem.Valid() && mem.All() == old(mem.All()) && mem.data == old(mem.data)
    ensures r.Some? <==> |old(mem.pages)| >= 3
    ensures r == None ==> mem.tables == old(mem.tables) && mem.free == old(mem.free)
    ensures r.Some? ==> Translates(mem.tables, r.value, KernelPages(trampoline, trapframe))
    ensures KernelOnly(KernelPages(trampoline, trapframe), trampoline, trapframe)
    ensures r.Some? ==> Rest(mem.tables, r.value) == old(mem.tables)
  {
    r := mem.CreateTable();
    if r.Some? {
      var root := r.value;
      EmptyTranslates(mem.tables, root);
      EmptyNeeds(mem.tables, root, TRAMPOLINE);
      assert Rest(mem.tables, root) == old(mem.tables);
      var ok := MapKernel(mem, root, trampoline, trapframe);
      if !ok {
        FreeEmpty(mem, root);
        assert mem.tables == old(mem.tables);
        r := None;
      }
    }
  }

  /** createPagetable's two mappings; when one fails, neither stays. */
  method MapKernel(mem: Memory, root: nat, trampoline: nat, trapframe: nat) returns (ok: bool)
    requires mem.Valid() && Translates(mem.tables, root, map[]) && Needs(mem.tables, root, TRAMPOLINE, 2)
    modifies mem
    ensures mem.Valid() && mem.All() == old(mem.All()) && mem.data == old(mem.data)
    ensures ok <==> |old(mem.pages)| >= 2
    ensures Translates(mem.tables, root, if ok then KernelPages(trampoline, trapframe) else map[])
    ensures Rest(mem.tables, root) == Rest(old(mem.tables), root)
  {
    ghost var t := map[TRAMPOLINE := Pte(true, Flags(true, false, true, false), trampoline)];
    ok := MapTrampoline(mem, root, trampoline, t);
    if ok {
      TrapframeNeeds(mem.tables, root, t);
      ok := MapTrapframe(mem, root, trapframe, t, 0);
      assert KernelPages(trampoline, trapframe) ==
             t[TRAPFRAME := Pte(true, Flags(true, true, false, false), trapframe)];
    }
  }

  method MapTrampoline(mem: Memory, root: nat, trampoline: nat, ghost t: map<nat, Pte>) returns (ok: bool)
    requires mem.Valid() && Translates(mem.tables, root, map[]) && Needs(mem.tables, root, TRAMPOLINE, 2)
    requires t == map[TRAMPOLINE := Pte(true, Flags(true, false, true, false), trampoline)]
    modifies mem
    ensures mem.Valid() && mem.All() == old(mem.All()) && mem.data == old(mem.data)
    ensures ok <==> |old(mem.pages)| >= 2
    ensures Translates(mem.tables, root, if ok then t else map[])
    ensures Rest(mem.tables, root) == Rest(old(mem.tables), root)
  {
    ghost var t';
    ok, t' := MapPage(mem, root, TRAMPOLINE, trampoline, Flags(true, false, true, false), map[], 2);
    GrownFreed(old(mem.tables), mem.tables, root);
    assert ok ==> t' == t;
  }

  lemma TrapframeNeeds(m: map<nat, Table>, root: nat, t: map<nat, Pte>)
    requires Translates(m, root, t) && TRAMPOLINE in t
    ensures Needs(m, root, TRAPFRAME, 0)
  {
    NeighbourNeeds(m, root, t, TRAMPOLINE, TRAPFRAME);
  }

  /** A page in the same level-0 table as a mapped one lacks no table. */
  lemma NeighbourNeeds(m: map<nat, Table>, root: nat, t: map<nat, Pte>, n: nat, q: nat)
    requires Translates(m, root, t) && n in t && n / 512 == q / 512
    ensures Needs(m, root, q, 0)
  {
    ReachLooks(m, root, TOP, Split(n));
    assert Look(m, root, TOP, Split(n)) == Get(t, n);
    assert SamePrefix(Split(q), Split(n), TOP) && SamePrefix(Split(q), Split(n), 1);
    ReachPrefix(m, root, Split(q), Split(n), TOP);
    ReachPrefix(m, root, Split(q), Split(n), 1);
    if Reach(m, root, Split(n), 1) == None {
      ReachNone(m, root, Split(n), 1, TOP);
    }
    assert Missing(m, root, Split(q), 0) == 0;
    assert Missing(m, root, Split(q), 1) == 0;
    assert Missing(m, root, Split(q), 2) == 0;
    assert NeedsOn(m, root, Split(q), 0);
  }

  method MapTrapframe(mem: Memory, root: nat, trapframe: nat, ghost t: map<nat, Pte>, ghost need: nat)
    returns (ok: bool)
    requires mem.Valid() && Translates(mem.tables, root, t) && t.Keys == {TRAMPOLINE}
    requires Needs(mem.tables, root, TRAPFRAME, need)
    modifies mem
    ensures ok <==> |old(mem.pages)| >= need
    ensures mem.Valid() && mem.All() == old(mem.All()) && mem.data == old(mem.data)
    ensures Translates(mem.tables, root, if ok
            then t[TRAPFRAME := Pte(true, Flags(true, true, false, false), trapframe)] else map[])
    ensures Rest(mem.tables, root) == Rest(old(mem.tables), root)
  {
    ghost var t';
    ok, t' := MapPage(mem, root, TRAPFRAME, trapframe, Flags(true, true, false, false), t, need);
    GrownFreed(old(mem.tables), mem.tables, root);
    if !ok {
      t' := UnmapKernel(mem, root, TRAMPOLINE, t);
      assert t' == map[];
    }
  }

  /** unmap of one page, without freeing it */
  method UnmapKernel(mem: Memory, root: nat, n: nat, ghost t: map<nat, Pte>) returns (ghost t': map<nat, Pte>)
    requires mem.Valid() && Translates(mem.tables, root, t) && n in t
    modifies mem
    ensures mem.Valid() && mem.All() == old(mem.All()) && mem.data == old(mem.data)
    ensures Translates(mem.tables, root, t') && t' == t - {n}
    ensures Rest(mem.tables, root) == Rest(old(mem.tables), root)
  {
    t' := mem.Unmap(root, n, 1, false, t);
    GrownFreed(old(mem.tables), mem.tables, root);
    assert Unmapped(t, n, 1) == Unmapped(t, n, 0) - {n};
  }

  /** free: user pages and all table pages go back to the allocator. */
  method Free(mem: Memory, root: nat, size: nat, ghost t: map<nat, Pte>)
    requires mem.Valid() && Translates(mem.tables, root, t) && Process(t, mem.data, PageUp(size))
    modifies mem
    ensures mem.Valid() && mem.All() == old(mem.All())
    ensures mem.tables == Rest(old(mem.tables), root)
    ensures mem.data == old(mem.data) - Frames(t, 0, PageUp(size))
  {
    ghost var t' := UnmapBoth(mem, root, t);
    UserOnly(t, t', mem.data, PageUp(size));
    FreeUser(mem, root, size, t');
  }

  /** The two kernel pages of a process are unmapped. */
  method UnmapBoth(mem: Memory, root: nat, ghost t: map<nat, Pte>) returns (ghost t': map<nat, Pte>)
    requires mem.Valid() && Translates(mem.tables, root, t) && TRAPFRAME in t && TRAMPOLINE in t
    modifies mem
    ensures mem.Valid() && mem.All() == old(mem.All()) && mem.data == old(mem.data)
    ensures Translates(mem.tables, root, t') && t' == t - {TRAMPOLINE} - {TRAPFRAME}
    ensures Rest(mem.tables, root) == Rest(old(mem.tables), root)
  {
    t' := UnmapKernel(mem, root, TRAMPOLINE, t);
    t' := UnmapKernel(mem, root, TRAPFRAME, t');
  }

  lemma UserOnly(t: map<nat, Pte>, t': map<nat, Pte>, data: map<nat, seq<Byte>>, n: nat)
    requires Process(t, data, n) && t' == t - {TRAMPOLINE} - {TRAPFRAME}
    ensures User(t', data, n) && Frames(t', 0, n) == Frames(t, 0, n)
  {
    SameFrames(t, t', 0, n);
  }

  lemma {:induction false} SameFrames(t: map<nat, Pte>, t': map<nat, Pte>, first: nat, count: nat)
    requires AllMapped(t, first, count) && AllMapped(t', first, count)
    requires forall n :: first <= n < first + count ==> t[n] == t'[n]
    ensures Frames(t', first, count) == Frames(t, first, count)
  {
    if count > 0 {
      SameFrames(t, t', first, count - 1);
    }
  }

  method FreeUser(mem: Memory, root: nat, size: nat, ghost t: map<nat, Pte>)
    requires mem.Valid() && Translates(mem.tables, root, t) && User(t, mem.data, PageUp(size))
    requires TRAPFRAME !in t && TRAMPOLINE !in t
    modifies mem
    ensures mem.Valid() && mem.All() == old(mem.All())
    ensures mem.tables == Rest(old(mem.tables), root)
    ensures mem.data == old(mem.data) - Frames(t, 0, PageUp(size))
  {
    ghost var t' := t;
    if size > 0 {
      t' := mem.Unmap(root, 0, PageUp(size), true, t);
      GrownFreed(old(mem.tables), mem.tables, root);
    }
    assert t' == map[] by {
      forall n: nat
        ensures n !in t'
      {
        UnmappedAt(t, 0, PageUp(size), n);
        assert n in t ==> n < MAXPAGES;
      }
    }
    FreeEmpty(mem, root);
  }

  /**
   A process's page table from createPagetable to free, with its memory grown and
   shrunk in between as often as it likes (requests beyond TRAPFRAME are not made):
   in the end every page is back where it was.
   */
  method Lifetime(mem: Memory, trampoline: nat, trapframe: nat, requests: seq<int>)
    requires mem.Valid()
    modifies mem
    ensures mem.Valid() && mem.tables == old(mem.tables) && mem.data == old(mem.data) && mem.free == old(mem.free)
  {
    var root := CreatePagetable(mem, trampoline, trapframe);
    if root.Some? {
      ghost var t := KernelPages(trampoline, trapframe);
      var ok;
      ghost var g, t';
      ghost var m, d := mem.tables, mem.data;
      ghost var need := NeedOf(mem.tables, root.value, 0);
      ok, g, t' := AllocOne(mem, root.value, 0, Flags(true, true, true, true), t, need);
      GrownFreed(m, mem.tables, root.value);
      if ok {
        FirstPage(t, d, g, t', mem.data);
        Live(mem, root.value, requests, t');
      } else {
        FreeKernel(mem, root.value, t);
      }
    }
  }

  method Live(mem: Memory, root: nat, requests: seq<int>, ghost t: map<nat, Pte>)
    requires mem.Valid() && Translates(mem.tables, root, t) && Process(t, mem.data, PageUp(PGSIZE))
    modifies mem
    ensures mem.Valid() && mem.All() == old(mem.All())
    ensures mem.tables == Rest(old(mem.tables), root) && mem.data == Others(t, old(mem.data), PageUp(PGSIZE))
  {
    var sz;
    ghost var sizes, low, t';
    sz, sizes, low, t' := Requests(mem, root, PGSIZE, requests, t);
    Free(mem, root, sz, t');
  }

  /** free of a table without user memory */
  method FreeKernel(mem: Memory, root: nat, ghost t: map<nat, Pte>)
    requires mem.Valid() && Translates(mem.tables, root, t) && t.Keys == {TRAMPOLINE, TRAPFRAME}
    modifies mem
    ensures mem.Valid() && mem.All() == old(mem.All())
    ensures mem.tables == Rest(old(mem.tables), root) && mem.data == old(mem.data)
  {
    ghost var u := UnmapKernel(mem, root, TRAMPOLINE, t);
    u := UnmapKernel(mem, root, TRAPFRAME, u);
    assert u == map[];
    FreeEmpty(mem, root);
  }

  lemma FirstPage(t: map<nat, Pte>, data: map<nat, seq<Byte>>, g: nat, t': map<nat, Pte>, data': map<nat, seq<Byte>>)
    requires t.Keys == {TRAMPOLINE, TRAPFRAME} && g !in data
    requires t' == t[0 := Pte(true, Flags(true, true, true, true), g)] && data' == data[g := ZeroPage()]
    ensures Process(t', data', PageUp(PGSIZE)) && Others(t', data', PageUp(PGSIZE)) == data
  {
    assert PageUp(PGSIZE) == 1;
    assert Frames(t', 0, 1) == Frames(t', 0, 0) + {t'[0].ppn};
  }

  /** The size after one request: shrinking leaves some memory, and growing may fail. */
  predicate NextSize(sz: nat, request: int, sz': nat) {
    if request < 0 then sz' == if -request < sz then sz + request else sz
    else sz' == sz || (sz' == sz + request && sz' <= TRAPFRAME * PGSIZE)
  }

  predicate NextAt(sizes: seq<nat>, requests: seq<int>, k: nat)
    requires k < |requests| && k + 1 < |sizes|
  {
    NextSize(sizes[k], requests[k], sizes[k + 1])
  }

  /** The sizes a process has had in turn */
  ghost predicate SizesOf(sizes: seq<nat>, sz: nat, requests: seq<int>) {
    && |sizes| == |requests| + 1 && sizes[0] == sz
    && forall k :: 0 <= k < |requests| ==> NextAt(sizes, requests, k)
  }

  /** The least number of pages it has had */
  ghost predicate LeastOf(low: nat, sizes: seq<nat>) {
    && (forall k :: 0 <= k < |sizes| ==> low <= PageUp(sizes[k]))
    && exists k :: 0 <= k < |sizes| && low == PageUp(sizes[k])
  }

  /** The sizes after the first k requests; kept folded in the loop below. */
  ghost predicate Past(sizes: seq<nat>, start: nat, requests: seq<int>, k: nat, sz: nat, low: nat) {
    forall ss: seq<nat> :: ss == sizes ==> PastOf(ss, start, requests, k, sz, low)
  }

  ghost predicate PastOf(sizes: seq<nat>, start: nat, requests: seq<int>, k: nat, sz: nat, low: nat) {
    k <= |requests| && SizesOf(sizes, start, requests[..k]) && sz == sizes[k] && LeastOf(low, sizes)
  }

  lemma PastNone(start: nat, requests: seq<int>)
    ensures Past([start], start, requests, 0, start, PageUp(start))
  {
    assert PageUp([start][0]) == PageUp(start);
    assert PastOf([start], start, requests, 0, start, PageUp(start));
  }

  lemma PastNext(sizes: seq<nat>, start: nat, requests: seq<int>, k: nat, sz: nat, low: nat, sz': nat, low': nat)
    requires k < |requests| && Past(sizes, start, requests, k, sz, low)
    requires NextSize(sz, requests[k], sz') && low' == if PageUp(sz') < low then PageUp(sz') else low
    ensures Past(sizes + [sz'], start, requests, k + 1, sz', low')
  {
    assert PastOf(sizes, start, requests, k, sz, low);
    var sizes', done := sizes + [sz'], requests[..k + 1];
    forall j | 0 <= j <= k
      ensures NextAt(sizes', done, j)
    {
      assert j < k ==> NextAt(sizes, requests[..k], j);
    }
    var j :| 0 <= j < |sizes| && low == PageUp(sizes[j]);
    assert low' == PageUp(sizes'[if low' == low then j else k + 1]);
    assert PastOf(sizes', start, requests, k + 1, sz', low');
  }

  lemma PastAll(sizes: seq<nat>, start: nat, requests: seq<int>, sz: nat, low: nat)
    requires Past(sizes, start, requests, |requests|, sz, low)
    ensures SizesOf(sizes, start, requests) && sz == sizes[|requests|] && LeastOf(low, sizes)
  {
    assert PastOf(sizes, start, requests, |requests|, sz, low);
    assert requests[..|requests|] == requests;
  }

  /**
   Any sequence of growing and shrinking.  The pages the process has had all the time are as
   at first, and all others are blank.
   */
  method Requests(mem: Memory, root: nat, start: nat, requests: seq<int>, ghost t: map<nat, Pte>)
    returns (sz: nat, ghost sizes: seq<nat>, ghost low: nat, ghost t': map<nat, Pte>)
    requires mem.Valid() && Translates(mem.tables, root, t) && start > 0 && Process(t, mem.data, PageUp(start))
    modifies mem
    ensures mem.Valid() && mem.All() == old(mem.All()) && Rest(mem.tables, root) == Rest(old(mem.tables), root)
    ensures Translates(mem.tables, root, t') && sz > 0 && Process(t', mem.data, PageUp(sz))
    ensures Others(t', mem.data, PageUp(sz)) == Others(t, old(mem.data), PageUp(start))
    ensures SizesOf(sizes, start, requests) && sz == sizes[|requests|] && LeastOf(low, sizes)
    ensures KeepsPages(t, old(mem.data), t', mem.data, low) && BlankPages(t', mem.data, low, PageUp(sz))
    ensures KernelKept(t, t')
  {
    sz, sizes, low, t' := start, [start], PageUp(start), t;
    PastNone(start, requests);
    for k := 0 to |requests|
      invariant mem.Valid() && mem.All() == old(mem.All()) && Rest(mem.tables, root) == Rest(old(mem.tables), root)
      invariant Translates(mem.tables, root, t') && sz > 0 && Process(t', mem.data, PageUp(sz))
      invariant Others(t', mem.data, PageUp(sz)) == Others(t, old(mem.data), PageUp(start))
      invariant Past(sizes, start, requests, k, sz, low)
      invariant low <= PageUp(sz) && KernelKept(t, t')
      invariant KeepsPages(t, old(mem.data), t', mem.data, low) && BlankPages(t', mem.data, low, PageUp(sz))
    {
      ghost var t1, data1, hi1, sz1 := t', mem.data, PageUp(sz), sz;
      sz, t' := Request(mem, root, sz, requests[k], t');
      ghost var low' := if PageUp(sz) < low then PageUp(sz) else low;
      PagesOn(t, old(mem.data), t1, data1, t', mem.data, low, hi1, PageUp(sz), low');
      PastNext(sizes, start, requests, k, sz1, low, sz, low');
      sizes, low := sizes + [sz], low';
    }
    PastAll(sizes, start, requests, sz, low);
  }

  /** Growing succeeds exactly if there are free pages for the new pages and for the tables they lack. */
  ghost predicate GrowsExactly(m: map<nat, Table>, root: nat, pages: nat, sz: nat, more: nat, sz': nat) {
    var lo, hi := PageUp(sz), PageUp(sz + more);
    exists total :: Lacks(m, root, lo, hi, total) && sz' == if pages >= hi - lo + total then sz + more else sz
  }

  /** sbrk, except that growing into the trapframe is skipped */
  method Request(mem: Memory, root: nat, sz: nat, request: int, ghost t: map<nat, Pte>)
    returns (sz': nat, ghost t': map<nat, Pte>)
    requires mem.Valid() && Translates(mem.tables, root, t) && sz > 0 && Process(t, mem.data, PageUp(sz))
    modifies mem
    ensures mem.Valid() && mem.All() == old(mem.All()) && Rest(mem.tables, root) == Rest(old(mem.tables), root)
    ensures Translates(mem.tables, root, t') && sz' > 0 && Process(t', mem.data, PageUp(sz'))
    ensures Others(t', mem.data, PageUp(sz')) == Others(t, old(mem.data), PageUp(sz))
    ensures NextSize(sz, request, sz')
    ensures 0 <= request <= TRAPFRAME * PGSIZE - sz ==>
              GrowsExactly(old(mem.tables), root, |old(mem.pages)|, sz, request, sz')
    ensures KeepsPages(t, old(mem.data), t', mem.data, if PageUp(sz') < PageUp(sz) then PageUp(sz') else PageUp(sz))
    ensures BlankPages(t', mem.data, PageUp(sz), PageUp(sz')) && KernelKept(t, t')
  {
    sz', t' := sz, t;
    if request < 0 {
      sz', t' := GrowDown(mem, root, sz, -request, t);
      GrownFreed(old(mem.tables), mem.tables, root);
    } else if sz + request <= TRAPFRAME * PGSIZE {
      ghost var total := LacksOf(mem.tables, root, PageUp(sz), PageUp(sz + request));
      sz', t' := GrowUp(mem, root, sz, request, t, total);
      GrownFreed(old(mem.tables), mem.tables, root);
    }
  }
}

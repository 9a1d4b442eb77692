/** fork's copy of user memory: kernel/vm.zig's copy */
module VmFork {
  import opened Common
  import opened PageTables
  import opened TableCount
  import opened VmCode
  import opened VmUser

  // ---------- Two page tables ----------

  /** The trees of the two tables have no page in common. */
  ghost predicate Separate(m: map<nat, Table>, a: nat, b: nat) {
    Sub(m, a, TOP) !! Sub(m, b, TOP)
  }

  /** Growing one tree leaves the other as it is. */
  lemma KeepOther(m: map<nat, Table>, m': map<nat, Table>, root: nat, other: nat, t: map<nat, Pte>)
    requires Translates(m, other, t) && Grown(m, m', root) && Separate(m, root, other)
    ensures Translates(m', other, t) && Separate(m', root, other)
  {
    SubInside(m, other, TOP);
    SubFrame(m, m', other, TOP);
    forall n: nat | n < ALLPAGES
      ensures Look(m', other, TOP, Split(n)) == Get(t, n)
    {
      LookFrame(m, m', other, TOP, Split(n));
    }
  }

  // ---------- What a copy is ----------

  /** Page n of the child has the parent's flags and contents. */
  ghost predicate CopyOf(t: map<nat, Pte>, data: map<nat, seq<Byte>>, t': map<nat, Pte>, data': map<nat, seq<Byte>>,
                         n: nat) {
    && n in t && t[n].ppn in data && n in t' && t'[n].ppn in data'
    && t'[n] == Pte(true, t[n].flags, t'[n].ppn) && data'[t'[n].ppn] == data[t[n].ppn]
  }

  /** The first hi pages of the parent (t) have been copied to the child, which had u: in frames of its own. */
  ghost predicate Copied(t: map<nat, Pte>, data: map<nat, seq<Byte>>, u: map<nat, Pte>, t': map<nat, Pte>,
                         data': map<nat, seq<Byte>>, hi: nat) {
    && Added(u, data, t', data', 0, hi) && User(t', data', hi)
    && forall n: nat :: n < hi ==> CopyOf(t, data, t', data', n)
  }

  lemma CopiedNone(t: map<nat, Pte>, data: map<nat, seq<Byte>>, u: map<nat, Pte>)
    requires NoneMapped(u, 0, TRAPFRAME)
    ensures Copied(t, data, u, u, data, 0)
  {
  }

  lemma CopiedOne(t: map<nat, Pte>, data: map<nat, seq<Byte>>, u: map<nat, Pte>, t1: map<nat, Pte>,
                  data1: map<nat, seq<Byte>>, hi: nat, g: nat)
    requires Copied(t, data, u, t1, data1, hi) && hi < TRAPFRAME && g !in data1
    requires hi in t && t[hi].ppn in data
    ensures Copied(t, data, u, t1[hi := Pte(true, t[hi].flags, g)], data1[g := data[t[hi].ppn]], hi + 1)
  {
    var t2, data2 := t1[hi := Pte(true, t[hi].flags, g)], data1[g := data[t[hi].ppn]];
    forall n: nat | n < hi + 1
      ensures CopyOf(t, data, t2, data2, n) && NewFrame(t2, data, data2, n)
    {
      assert n < hi ==> CopyOf(t, data, t1, data1, n) && NewFrame(t1, data, data1, n);
    }
    CopiedAdds(u, data, t1, data1, hi, g, t2, data2);
  }

  lemma CopiedAdds(u: map<nat, Pte>, data: map<nat, seq<Byte>>, t1: map<nat, Pte>, data1: map<nat, seq<Byte>>,
                   hi: nat, g: nat, t2: map<nat, Pte>, data2: map<nat, seq<Byte>>)
    requires Added(u, data, t1, data1, 0, hi) && g !in data1 && hi in t2 && t2[hi].ppn == g
    requires g in data2 && t2 == t1[hi := t2[hi]] && data2 == data1[g := data2[g]]
    requires forall n: nat :: n < hi + 1 ==> NewFrame(t2, data, data2, n)
    ensures Added(u, data, t2, data2, 0, hi + 1)
  {
    forall n: nat | !(n < hi + 1)
      ensures Get(t2, n) == Get(u, n)
    {
      assert Get(t1, n) == Get(u, n);
    }
    forall p | p in data2 && p !in data
      ensures exists n: nat :: n < hi + 1 && n in t2 && t2[n].ppn == p
    {
      if p == g {
        assert t2[hi].ppn == p;
      } else {
        var n: nat :| n < hi && n in t1 && t1[n].ppn == p;
        assert t2[n].ppn == p;
      }
    }
  }

  // ---------- copy ----------

  datatype Outcome = Done | OutOfMemory | Panics

  /** walk and read: the entry of a mapped page */
  method EntryOf(mem: Memory, root: nat, n: nat, ghost t: map<nat, Pte>) returns (pte: Pte)
    requires mem.Valid() && Translates(mem.tables, root, t) && n in t
    ensures pte == t[n] && Leaf(pte)
  {
    var x := mem.Find(root, n, t);
    pte := mem.GetPte(root, n, x.value, t);
  }

  /** allocator.create and memcpy */
  method CreateCopy(mem: Memory, source: nat) returns (g: Option<nat>)
    requires mem.Valid() && source in mem.data
    modifies mem`data, mem`free, mem`pages
    ensures mem.Valid() && mem.All() == old(mem.All())
    ensures g.Some? <==> |old(mem.pages)| > 0
    ensures g == None ==> mem.data == old(mem.data) && |mem.pages| == |old(mem.pages)|
    ensures g.Some? ==> g.value !in old(mem.data) && mem.data == old(mem.data)[g.value := old(mem.data)[source]]
    ensures g.Some? ==> |mem.pages| == |old(mem.pages)| - 1
  {
    g := mem.CreatePage();
    if g.Some? {
      mem.data := mem.data[g.value := mem.data[source]];
    }
  }

  /** One page: created, filled from the parent's and mapped, or nothing changes but for new tables. */
  method CopyOne(mem: Memory, parent: nat, child: nat, n: nat, ghost t: map<nat, Pte>, ghost now: map<nat, Pte>,
                 ghost need: nat) returns (ok: bool, ghost g: nat, ghost t': map<nat, Pte>)
    requires Needs(mem.tables, child, n, need) && n < TRAPFRAME
    requires mem.Valid() && Translates(mem.tables, parent, t) && n in t && t[n].ppn in mem.data
    requires Translates(mem.tables, child, now) && n !in now
    modifies mem
    ensures mem.Valid() && mem.All() == old(mem.All()) && Grown(old(mem.tables), mem.tables, child)
    ensures Translates(mem.tables, child, t')
    ensures ok ==> g !in old(mem.data) && mem.data == old(mem.data)[g := old(mem.data)[t[n].ppn]]
    ensures ok ==> t' == now[n := Pte(true, t[n].flags, g)]
    ensures !ok ==> t' == now && mem.data == old(mem.data)
    ensures ok <==> |old(mem.pages)| > need
    ensures ok ==> |mem.pages| + 1 + need == |old(mem.pages)| && Opened(old(mem.tables), mem.tables, child, n, n + 1)
  {
    t', g := now, 0;
    var pte := EntryOf(mem, parent, n, t);
    var page := CreateCopy(mem, pte.ppn);
    if page == None {
      return false, g, now;
    }
    g := page.value;
    ok, t' := MapPage(mem, child, n, page.value, pte.flags, now, need);
    if !ok {
      mem.DestroyPage(page.value);
      assert mem.data == old(mem.data);
    }
  }

  /** copy has come to page; behind a quantifier to keep the tables folded */
  ghost predicate Copying(mem: Memory, all: set<nat>, m0: map<nat, Table>, data0: map<nat, seq<Byte>>, parent: nat,
                          child: nat, t: map<nat, Pte>, u: map<nat, Pte>, page: nat, now: map<nat, Pte>)
    reads mem
  {
    forall x :: x == now ==> CopyingIn(mem, all, m0, data0, parent, child, t, u, page, x)
  }

  ghost predicate CopyingIn(mem: Memory, all: set<nat>, m0: map<nat, Table>, data0: map<nat, seq<Byte>>, parent: nat,
                            child: nat, t: map<nat, Pte>, u: map<nat, Pte>, page: nat, now: map<nat, Pte>)
    reads mem
  {
    && mem.Valid() && mem.All() == all && Grown(m0, mem.tables, child) && Separate(mem.tables, child, parent)
    && Translates(mem.tables, parent, t) && Translates(mem.tables, child, now)
    && Copied(t, data0, u, now, mem.data, page)
  }

  method CopyRound(mem: Memory, parent: nat, child: nat, page: nat, ghost t: map<nat, Pte>, ghost u: map<nat, Pte>,
                   ghost now: map<nat, Pte>, ghost all: set<nat>, ghost m0: map<nat, Table>,
                   ghost data0: map<nat, seq<Byte>>, ghost need: nat) returns (ok: bool, ghost t': map<nat, Pte>)
    requires Copying(mem, all, m0, data0, parent, child, t, u, page, now) && page < TRAPFRAME
    requires page in t && t[page].ppn in data0 && Needs(mem.tables, child, page, need)
    modifies mem
    ensures Copying(mem, all, m0, data0, parent, child, t, u, if ok then page + 1 else page, t')
    ensures ok <==> |old(mem.pages)| > need
    ensures ok ==> |mem.pages| + need + 1 == |old(mem.pages)|
    ensures ok ==> Opened(old(mem.tables), mem.tables, child, page, page + 1)
  {
    ghost var g;
    assert CopyingIn(mem, all, m0, data0, parent, child, t, u, page, now);
    ok, g, t' := CopyOne(mem, parent, child, page, t, now, need);
    GrownTrans(m0, old(mem.tables), mem.tables, child);
    KeepOther(old(mem.tables), mem.tables, child, parent, t);
    if ok {
      CopiedOne(t, data0, u, now, old(mem.data), page, g);
      assert CopyingIn(mem, all, m0, data0, parent, child, t, u, page + 1, t');
    } else {
      assert CopyingIn(mem, all, m0, data0, parent, child, t, u, page, t');
    }
  }

  /** One round of copy's loop; spent counts the tables that the pages so far have taken. */
  method CopyStep(mem: Memory, parent: nat, child: nat, page: nat, ghost t: map<nat, Pte>, ghost u: map<nat, Pte>,
                  ghost now: map<nat, Pte>, ghost all: set<nat>, ghost m0: map<nat, Table>,
                  ghost data0: map<nat, seq<Byte>>, ghost spent: nat)
    returns (ok: bool, ghost t': map<nat, Pte>, ghost spent': nat)
    requires Copying(mem, all, m0, data0, parent, child, t, u, page, now) && page < TRAPFRAME
    requires page in t && t[page].ppn in data0
    requires Opened(m0, mem.tables, child, 0, page) && (page == 0 ==> mem.tables == m0)
    requires Lacks(m0, child, 0, page, spent)
    modifies mem
    ensures Copying(mem, all, m0, data0, parent, child, t, u, if ok then page + 1 else page, t')
    ensures Lacks(m0, child, 0, page + 1, spent') && (ok <==> |old(mem.pages)| + spent > spent')
    ensures ok ==> |mem.pages| + 1 + spent' == |old(mem.pages)| + spent && Opened(m0, mem.tables, child, 0, page + 1)
  {
    ghost var m := mem.tables;
    ghost var need := NeedOf(mem.tables, child, page);
    ok, t' := CopyRound(mem, parent, child, page, t, u, now, all, m0, data0, need);
    LacksNext(m0, m, child, 0, page, spent, need);
    spent' := spent + need;
    if ok {
      OpenedTrans(m0, m, mem.tables, child, 0, page, page + 1);
    }
  }

  /** copy's loop, up to the first page it cannot have */
  method CopyLoop(mem: Memory, parent: nat, child: nat, size: nat, ghost t: map<nat, Pte>, ghost u: map<nat, Pte>,
                  ghost need: nat, ghost total: nat, ghost all: set<nat>)
    returns (ok: bool, page: nat, ghost t': map<nat, Pte>)
    requires Needs(mem.tables, child, 0, need) && Lacks(mem.tables, child, 0, PageUp(size), total)
    requires PageUp(size) <= TRAPFRAME && AllMapped(t, 0, PageUp(size)) && OwnFrames(t, 0, PageUp(size), mem.data)
    requires Copying(mem, all, mem.tables, mem.data, parent, child, t, u, 0, u)
    modifies mem
    ensures Copying(mem, all, old(mem.tables), old(mem.data), parent, child, t, u, page, t')
    ensures if ok then page == PageUp(size) else page < PageUp(size)
    ensures !ok ==> (page > 0 <==> |old(mem.pages)| > need)
    ensures ok <==> |old(mem.pages)| >= PageUp(size) + total
  {
    page := 0;
    t', ok := u, true;
    ghost var spent := 0;
    LacksNone(mem.tables, child, 0);
    OpenedNone(mem.tables, child, 0);
    LacksOne(mem.tables, child, 0, need);
    while ok && page * PGSIZE < size
      invariant page <= PageUp(size) && (ok || page < PageUp(size))
      invariant Copying(mem, all, old(mem.tables), old(mem.data), parent, child, t, u, page, t')
      invariant ok ==> Opened(old(mem.tables), mem.tables, child, 0, page)
      invariant ok && page == 0 ==> mem.tables == old(mem.tables)
      invariant Lacks(old(mem.tables), child, 0, if ok then page else page + 1, spent)
      invariant if ok then |mem.pages| + page + spent == |old(mem.pages)| else |old(mem.pages)| < page + 1 + spent
      invariant page > 0 ==> |old(mem.pages)| > need
      invariant page == 0 && !ok ==> |old(mem.pages)| <= need
      decreases ok, size - page * PGSIZE
    {
      ok, t', spent := CopyStep(mem, parent, child, page, t, u, t', all, old(mem.tables), old(mem.data), spent);
      LacksGrow(old(mem.tables), child, 0, 1, page + 1, need, spent);
      if ok {
        page := page + 1;
      }
    }
    LacksGrow(old(mem.tables), child, 0, if ok then page else page + 1, PageUp(size), spent, total);
  }

  /** copy's errdefer: what was copied is taken back; without anything to take back unmap's assertion fails. */
  method TakeBack(mem: Memory, parent: nat, child: nat, page: nat, ghost t: map<nat, Pte>, ghost u: map<nat, Pte>,
                  ghost now: map<nat, Pte>, ghost all: set<nat>, ghost m0: map<nat, Table>,
                  ghost data0: map<nat, seq<Byte>>) returns (ok: bool, ghost t': map<nat, Pte>)
    requires Copying(mem, all, m0, data0, parent, child, t, u, page, now) && page <= TRAPFRAME
    requires NoneMapped(u, 0, TRAPFRAME)
    modifies mem
    ensures ok <==> page > 0
    ensures mem.Valid() && mem.All() == all && Grown(m0, mem.tables, child)
    ensures Translates(mem.tables, parent, t) && Translates(mem.tables, child, u) && mem.data == data0
  {
    t' := u;
    ok := page >= 1;
    if ok {
      UnmapCopies(mem, parent, child, page, t, u, now, all, m0, data0);
    } else {
      assert CopyingIn(mem, all, m0, data0, parent, child, t, u, page, now);
      NothingCopied(t, data0, u, now, mem.data);
    }
  }

  method UnmapCopies(mem: Memory, ghost parent: nat, child: nat, page: nat, ghost t: map<nat, Pte>,
                     ghost u: map<nat, Pte>, ghost now: map<nat, Pte>, ghost all: set<nat>, ghost m0: map<nat, Table>,
                     ghost data0: map<nat, seq<Byte>>)
    requires Copying(mem, all, m0, data0, parent, child, t, u, page, now) && 0 < page <= TRAPFRAME
    requires NoneMapped(u, 0, TRAPFRAME)
    modifies mem
    ensures mem.Valid() && mem.All() == all && Grown(m0, mem.tables, child)
    ensures Translates(mem.tables, parent, t) && Translates(mem.tables, child, u) && mem.data == data0
  {
    assert CopyingIn(mem, all, m0, data0, parent, child, t, u, page, now);
    ExtendUndone(u, data0, now, mem.data, 0, page);
    ghost var t' := mem.Unmap(child, 0, page, true, now);
    GrownTrans(m0, old(mem.tables), mem.tables, child);
    KeepOther(old(mem.tables), mem.tables, child, parent, t);
  }

  lemma NothingCopied(t: map<nat, Pte>, data: map<nat, seq<Byte>>, u: map<nat, Pte>, t': map<nat, Pte>,
                      data': map<nat, seq<Byte>>)
    requires Copied(t, data, u, t', data', 0)
    ensures t' == u && data' == data
  {
    assert forall n: nat :: n in t' <==> Get(t', n).Some?;
    assert forall n: nat :: n in u <==> Get(u, n).Some?;
    assert forall n: nat :: Get(t', n) == Get(u, n);
  }

  /**
   copy: the child gets a copy of each page of the parent.  When memory runs out everything
   is taken back, but if that happens with the first page, copy panics.
   */
  method Copy(mem: Memory, parent: nat, child: nat, size: nat, ghost t: map<nat, Pte>, ghost u: map<nat, Pte>,
              ghost need: nat, ghost total: nat) returns (r: Outcome, ghost t': map<nat, Pte>)
    requires mem.Valid() && Translates(mem.tables, parent, t) && User(t, mem.data, PageUp(size))
    requires Translates(mem.tables, child, u) && NoneMapped(u, 0, TRAPFRAME) && Separate(mem.tables, child, parent)
    requires Needs(mem.tables, child, 0, need) && Lacks(mem.tables, child, 0, PageUp(size), total)
    modifies mem
    ensures mem.Valid() && mem.All() == old(mem.All()) && Grown(old(mem.tables), mem.tables, child)
    ensures Translates(mem.tables, parent, t) && Translates(mem.tables, child, t')
    ensures r == Done <==> |old(mem.pages)| >= PageUp(size) + total
    ensures r == Panics <==> size > 0 && |old(mem.pages)| <= need
    ensures if r == Done then Copied(t, old(mem.data), u, t', mem.data, PageUp(size))
            else t' == u && mem.data == old(mem.data)
  {
    ghost var all, m0, data0 := mem.All(), mem.tables, mem.data;
    CopiedNone(t, data0, u);
    assert CopyingIn(mem, all, m0, data0, parent, child, t, u, 0, u);
    var ok, page;
    ok, page, t' := CopyLoop(mem, parent, child, size, t, u, need, total, all);
    if ok {
      assert CopyingIn(mem, all, m0, data0, parent, child, t, u, page, t');
      FirstNeeds(m0, child, size, need, total);
      return Done, t';
    }
    ok, t' := TakeBack(mem, parent, child, page, t, u, t', all, m0, data0);
    r, t' := if ok then OutOfMemory else Panics, u;
  }

  lemma FirstNeeds(m: map<nat, Table>, root: nat, size: nat, need: nat, total: nat)
    requires Needs(m, root, 0, need) && Lacks(m, root, 0, PageUp(size), total)
    ensures size > 0 ==> need <= total
  {
    if size > 0 {
      LacksOne(m, root, 0, need);
      LacksGrow(m, root, 0, 1, PageUp(size), need, total);
    }
  }

  /** A new table has its own tree. */
  lemma NewTree(m: map<nat, Table>, parent: nat, t: map<nat, Pte>, child: nat)
    requires Translates(m, parent, t) && child !in m
    ensures var m' := m[child := ZeroTable()];
            Translates(m', parent, t) && Translates(m', child, map[]) && Separate(m', child, parent)
  {
    var m' := m[child := ZeroTable()];
    SubInside(m, parent, TOP);
    assert Sub(m, child, TOP) == {child};
    EmptyTranslates(m', child);
    assert m'.Keys - m.Keys == {child};
    KeepOther(m, m', child, parent, t);
  }

  /** A process with one page forks when no page is left. */
  method CopyPanics() returns (mem: Memory, r: Outcome)
    ensures mem.Valid() && r == Panics
  {
    mem := new Memory(0, [1, 2, 3, 4]);
    EmptyTranslates(mem.tables, 0);
    EmptyNeeds(mem.tables, 0, 0);
    var ok;
    ghost var g, t, t';
    ok, g, t := AllocOne(mem, 0, 0, Flags(true, true, true, true), map[], 2);
    NewPage(mem.data, g, t);
    ghost var m := mem.tables;
    var child := mem.CreateTable();
    NewTree(m, 0, t, child.value);
    EmptyNeeds(mem.tables, child.value, 0);
    ghost var total := LacksOf(mem.tables, child.value, 0, 1);
    r, t' := Copy(mem, 0, child.value, PGSIZE, t, map[], 2, total);
  }

  lemma NewPage(data: map<nat, seq<Byte>>, g: nat, t: map<nat, Pte>)
    requires data == map[g := ZeroPage()] && t == map[0 := Pte(true, Flags(true, true, true, true), g)]
    ensures PageUp(PGSIZE) == 1 && User(t, data, 1)
  {
  }
}

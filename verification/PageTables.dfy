/**
 Three-level page tables as kernel/vm.zig keeps them (Sv39, section 4.4 of the
 RISC-V Instruction Set Manual Volume II, version 20211203): a tree of 512-entry
 tables in physical pages, and the translation of page numbers it stands for.
 */
module PageTables {
  import opened Common

  const PGSIZE: nat := 4096
  const ENTRIES: nat := 512
  /** The highest level; tables of level 0 hold leaves. */
  const TOP: nat := 2
  /** The pages that three indices can name */
  const ALLPAGES: nat := 0x800_0000
  /** Pages below MAXVA; one bit less than Sv39 allows */
  const MAXPAGES: nat := 0x400_0000
  /** The page numbers of TRAMPOLINE and TRAPFRAME */
  const TRAMPOLINE: nat := MAXPAGES - 1
  const TRAPFRAME: nat := MAXPAGES - 2

  datatype Flags = Flags(readable: bool, writable: bool, executable: bool, user: bool)

  datatype Pte = Pte(valid: bool, flags: Flags, ppn: nat)

  const NOFLAGS := Flags(false, false, false, false)
  const EMPTY := Pte(false, NOFLAGS, 0)

  type Table = seq<Pte>
  type Path = seq<nat>

  function Node(ppn: nat): Pte {
    Pte(true, NOFLAGS, ppn)
  }

  predicate Leaf(e: Pte) {
    e.valid && (e.flags.readable || e.flags.writable || e.flags.executable)
  }

  function ZeroTable(): (t: Table) {
    seq(ENTRIES, i => EMPTY)
  }

  /** l2, l1, l0 of the page with number n */
  function Split(n: nat): (p: Path)
    ensures |p| == 3 && Indices(p)
  {
    [n / 512 / 512 % 512, n / 512 % 512, n % 512]
  }

  ghost predicate Indices(p: Path) {
    forall k :: 0 <= k < |p| ==> p[k] < ENTRIES
  }

  /** The indices are the digits of the page number, the root table's first. */
  lemma SplitDigits(n: nat)
    requires n < ALLPAGES
    ensures (Split(n)[0] * ENTRIES + Split(n)[1]) * ENTRIES + Split(n)[2] == n
  {
    assert n / 512 / 512 < 512;
  }

  lemma SplitUnique(n: nat, m: nat)
    requires n < ALLPAGES && m < ALLPAGES && Split(n) == Split(m)
    ensures n == m
  {
    SplitDigits(n);
    SplitDigits(m);
  }

  // ---------- The tree below a table ----------

  /** The pages of the tables at and below f, a table of level d */
  ghost function Sub(m: map<nat, Table>, f: nat, d: nat): (s: set<nat>)
    ensures f in s
    decreases d, 1
  {
    if d == 0 || f !in m then {f}
    else {f} + set i: nat, x: nat | i < |m[f]| && x in Below(m, m[f][i], d) :: x
  }

  /** The pages of the tables below entry e of a table of level d */
  ghost function Below(m: map<nat, Table>, e: Pte, d: nat): (s: set<nat>)
    requires d > 0
    decreases d, 0
  {
    if e.valid then Sub(m, e.ppn, d - 1) else {}
  }

  /** Below f no table is reached twice; leaves are at level 0 only. */
  ghost predicate Tree(m: map<nat, Table>, f: nat, d: nat)
    decreases d, 1
  {
    && f in m && |m[f]| == ENTRIES
    && (d == 0 ==> forall i :: 0 <= i < ENTRIES && m[f][i].valid ==> Leaf(m[f][i]))
    && (d > 0 ==>
          && (forall i :: 0 <= i < ENTRIES && m[f][i].valid ==> Child(m, f, m[f][i], d))
          && (forall i, j :: 0 <= i < j < ENTRIES && m[f][i].valid && m[f][j].valid ==> Apart(m, m[f][i], m[f][j], d)))
  }

  ghost predicate Child(m: map<nat, Table>, f: nat, e: Pte, d: nat)
    requires d > 0
    decreases d, 0
  {
    e == Node(e.ppn) && Tree(m, e.ppn, d - 1) && f !in Below(m, e, d)
  }

  ghost predicate Apart(m: map<nat, Table>, a: Pte, b: Pte, d: nat)
    requires d > 0
    decreases d, 0
  {
    Below(m, a, d) !! Below(m, b, d)
  }

  /** The entry that translates path below f */
  ghost function Look(m: map<nat, Table>, f: nat, d: nat, path: Path): (e: Option<Pte>)
    requires |path| == d + 1
    decreases d
  {
    if f !in m || path[0] >= |m[f]| || !m[f][path[0]].valid then None
    else if d == 0 then Some(m[f][path[0]])
    else Look(m, m[f][path[0]].ppn, d - 1, path[1..])
  }

  /** The table reached from f after k levels along path */
  ghost function Reach(m: map<nat, Table>, f: nat, path: Path, k: nat): (g: Option<nat>)
    requires k <= |path|
    decreases k
  {
    if k == 0 then Some(f)
    else if f !in m || path[0] >= |m[f]| || !m[f][path[0]].valid then None
    else Reach(m, m[f][path[0]].ppn, path[1..], k - 1)
  }

  /** Nothing below f depends on other tables. */
  lemma {:induction false} SubFrame(m: map<nat, Table>, m': map<nat, Table>, f: nat, d: nat)
    requires Tree(m, f, d)
    requires forall x :: x in Sub(m, f, d) ==> x in m' && x in m && m'[x] == m[x]
    ensures Tree(m', f, d) && Sub(m', f, d) == Sub(m, f, d)
    decreases d
  {
    assert f in Sub(m, f, d);
    if d > 0 {
      forall i | 0 <= i < ENTRIES && m[f][i].valid
        ensures Tree(m', m[f][i].ppn, d - 1) && Sub(m', m[f][i].ppn, d - 1) == Sub(m, m[f][i].ppn, d - 1)
      {
        assert Child(m, f, m[f][i], d);
        assert Below(m, m[f][i], d) <= Sub(m, f, d);
        SubFrame(m, m', m[f][i].ppn, d - 1);
      }
      forall i | 0 <= i < ENTRIES && m[f][i].valid
        ensures Child(m', f, m[f][i], d)
      {
        assert Child(m, f, m[f][i], d);
      }
      forall i, j | 0 <= i < j < ENTRIES && m[f][i].valid && m[f][j].valid
        ensures Apart(m', m[f][i], m[f][j], d)
      {
        assert Apart(m, m[f][i], m[f][j], d);
      }
    }
  }

  lemma {:induction false} LookFrame(m: map<nat, Table>, m': map<nat, Table>, f: nat, d: nat, path: Path)
    requires Tree(m, f, d) && |path| == d + 1
    requires forall x :: x in Sub(m, f, d) ==> x in m' && x in m && m'[x] == m[x]
    ensures Look(m', f, d, path) == Look(m, f, d, path)
    decreases d
  {
    assert f in Sub(m, f, d);
    if d > 0 && path[0] < ENTRIES && m[f][path[0]].valid {
      var e := m[f][path[0]];
      assert Child(m, f, e, d);
      assert Below(m, e, d) <= Sub(m, f, d);
      LookFrame(m, m', e.ppn, d - 1, path[1..]);
    }
  }

  // ---------- Changing one table ----------

  lemma {:induction false} ReachIn(m: map<nat, Table>, f: nat, d: nat, path: Path, k: nat)
    requires Tree(m, f, d) && |path| == d + 1 && k <= d && Reach(m, f, path, k).Some?
    ensures Reach(m, f, path, k).value in Sub(m, f, d)
    ensures Tree(m, Reach(m, f, path, k).value, d - k)
    decreases d
  {
    if k > 0 {
      var e := m[f][path[0]];
      assert Child(m, f, e, d);
      ReachIn(m, e.ppn, d - 1, path[1..], k - 1);
      assert Below(m, e, d) <= Sub(m, f, d);
    }
  }

  /** m' is m with entry path[k] of the table at level d - k along path replaced. */
  ghost predicate Changed(m: map<nat, Table>, m': map<nat, Table>, x: nat, i: nat, e: Pte) {
    && x in m && i < |m[x]| && x in m' && m'[x] == m[x][i := e]
    && forall y :: y in m && y != x ==> y in m' && m'[y] == m[y]
  }

  /** A new empty table g under an empty entry: the tree grows by g and translates as before. */
  lemma {:induction false} LinkKeeps(m: map<nat, Table>, m': map<nat, Table>, f: nat, d: nat, path: Path, k: nat,
                                     x: nat, g: nat)
    requires Tree(m, f, d) && |path| == d + 1 && Indices(path) && k < d
    requires Reach(m, f, path, k) == Some(x)
    requires g !in m && g in m' && m'[g] == ZeroTable()
    requires Changed(m, m', x, path[k], Node(g)) && !m[x][path[k]].valid
    ensures Tree(m', f, d) && Sub(m', f, d) == Sub(m, f, d) + {g}
    decreases d
  {
    assert path[0] < ENTRIES;
    if k == 0 {
      LinkHere(m, m', f, d, path[0], g);
    } else {
      var e := m[f][path[0]];
      assert Child(m, f, e, d);
      assert Indices(path[1..]) && path[1..][k - 1] == path[k];
      LinkKeeps(m, m', e.ppn, d - 1, path[1..], k - 1, x, g);
      ReachIn(m, e.ppn, d - 1, path[1..], k - 1);
      UnderChild(m, m', f, d, path[0], x, {g});
    }
  }

  lemma LinkHere(m: map<nat, Table>, m': map<nat, Table>, f: nat, d: nat, i: nat, g: nat)
    requires Tree(m, f, d) && d > 0 && i < ENTRIES && !m[f][i].valid
    requires g !in m && g in m' && m'[g] == ZeroTable()
    requires Changed(m, m', f, i, Node(g))
    ensures Tree(m', f, d) && Sub(m', f, d) == Sub(m, f, d) + {g}
  {
    assert Tree(m', g, d - 1) && Sub(m', g, d - 1) == {g};
    forall j | 0 <= j < ENTRIES && m[f][j].valid
      ensures Child(m', f, m'[f][j], d) && Below(m', m'[f][j], d) == Below(m, m[f][j], d) && g !in Below(m, m[f][j], d)
    {
      assert Child(m, f, m[f][j], d);
      SubInside(m, m[f][j].ppn, d - 1);
      SubFrame(m, m', m[f][j].ppn, d - 1);
    }
    assert forall j :: 0 <= j < ENTRIES && m'[f][j].valid ==> j == i || m[f][j].valid;
    forall j, l | 0 <= j < l < ENTRIES && m'[f][j].valid && m'[f][l].valid
      ensures Apart(m', m'[f][j], m'[f][l], d)
    {
      assert j != i && l != i ==> Apart(m, m[f][j], m[f][l], d);
    }
    assert Sub(m', f, d) == Sub(m, f, d) + {g} by {
      assert Below(m', m'[f][i], d) == {g};
    }
  }

  /** All tables of a tree are there. */
  lemma {:induction false} SubInside(m: map<nat, Table>, f: nat, d: nat)
    requires Tree(m, f, d)
    ensures Sub(m, f, d) <= m.Keys
    decreases d
  {
    if d > 0 {
      forall i | 0 <= i < ENTRIES && m[f][i].valid
        ensures Below(m, m[f][i], d) <= m.Keys
      {
        assert Child(m, f, m[f][i], d);
        SubInside(m, m[f][i].ppn, d - 1);
      }
    }
  }

  /** A change inside the subtree of entry i, adding the tables new, leaves the other subtrees alone. */
  lemma UnderChild(m: map<nat, Table>, m': map<nat, Table>, f: nat, d: nat, i: nat, x: nat, new': set<nat>)
    requires Tree(m, f, d) && d > 0 && i < ENTRIES && m[f][i].valid
    requires x in Below(m, m[f][i], d) && new' !! m.Keys
    requires forall y :: y in m && y != x ==> y in m' && m'[y] == m[y]
    requires Tree(m', m[f][i].ppn, d - 1) && Sub(m', m[f][i].ppn, d - 1) == Sub(m, m[f][i].ppn, d - 1) + new'
    ensures Tree(m', f, d) && Sub(m', f, d) == Sub(m, f, d) + new'
  {
    assert Child(m, f, m[f][i], d);
    assert m'[f] == m[f];
    forall j | 0 <= j < ENTRIES && m[f][j].valid && j != i
      ensures Tree(m', m[f][j].ppn, d - 1) && Below(m', m[f][j], d) == Below(m, m[f][j], d)
      ensures Below(m, m[f][j], d) !! new'
    {
      assert Child(m, f, m[f][j], d);
      assert if j < i then Apart(m, m[f][j], m[f][i], d) else Apart(m, m[f][i], m[f][j], d);
      SubInside(m, m[f][j].ppn, d - 1);
      SubFrame(m, m', m[f][j].ppn, d - 1);
    }
    forall j | 0 <= j < ENTRIES && m[f][j].valid
      ensures Child(m', f, m[f][j], d)
    {
      assert Child(m, f, m[f][j], d);
    }
    forall j, l | 0 <= j < l < ENTRIES && m[f][j].valid && m[f][l].valid
      ensures Apart(m', m[f][j], m[f][l], d)
    {
      assert Apart(m, m[f][j], m[f][l], d);
    }
  }

  /** A new empty table translates nothing. */
  lemma {:induction false} LinkLooks(m: map<nat, Table>, m': map<nat, Table>, f: nat, d: nat, path: Path, k: nat,
                                     g: nat, q: Path)
    requires Tree(m, f, d) && |path| == d + 1 == |q| && Indices(path) && k < d
    requires Reach(m, f, path, k).Some?
    requires g !in m && g in m' && m'[g] == ZeroTable()
    requires Changed(m, m', Reach(m, f, path, k).value, path[k], Node(g))
    requires !m[Reach(m, f, path, k).value][path[k]].valid
    ensures Look(m', f, d, q) == Look(m, f, d, q)
    decreases d
  {
    var x := Reach(m, f, path, k).value;
    ReachIn(m, f, d, path, k);
    if k == 0 {
      if q[0] < ENTRIES && m[f][q[0]].valid {
        assert Child(m, f, m[f][q[0]], d);
        SubInside(m, m[f][q[0]].ppn, d - 1);
        LookFrame(m, m', m[f][q[0]].ppn, d - 1, q[1..]);
      }
    } else {
      var e := m[f][path[0]];
      assert Child(m, f, e, d);
      ReachIn(m, e.ppn, d - 1, path[1..], k - 1);
      assert x != f && m'[f] == m[f];
      if q[0] == path[0] {
        assert Indices(path[1..]);
        LinkLooks(m, m', e.ppn, d - 1, path[1..], k - 1, g, q[1..]);
      } else if q[0] < ENTRIES && m[f][q[0]].valid {
        Elsewhere(m, m', f, d, path[0], q[0], x);
        LookFrame(m, m', m[f][q[0]].ppn, d - 1, q[1..]);
      }
    }
  }

  lemma Elsewhere(m: map<nat, Table>, m': map<nat, Table>, f: nat, d: nat, i: nat, j: nat, x: nat)
    requires Tree(m, f, d) && d > 0 && i < ENTRIES && j < ENTRIES && i != j && m[f][i].valid && m[f][j].valid
    requires x in Below(m, m[f][i], d)
    requires forall y :: y in m && y != x ==> y in m' && m'[y] == m[y]
    ensures Tree(m, m[f][j].ppn, d - 1)
    ensures forall y :: y in Sub(m, m[f][j].ppn, d - 1) ==> y in m && y in m' && m'[y] == m[y]
  {
    assert Child(m, f, m[f][j], d);
    assert if i < j then Apart(m, m[f][i], m[f][j], d) else Apart(m, m[f][j], m[f][i], d);
    SubInside(m, m[f][j].ppn, d - 1);
  }

  /** Changing the leaf entry of path changes no table page and only the translation of path. */
  lemma {:induction false} LeafKeeps(m: map<nat, Table>, m': map<nat, Table>, f: nat, d: nat, path: Path, e: Pte)
    requires Tree(m, f, d) && |path| == d + 1 && Indices(path) && Reach(m, f, path, d).Some?
    requires Changed(m, m', Reach(m, f, path, d).value, path[d], e)
    requires e.valid ==> Leaf(e)
    ensures Tree(m', f, d) && Sub(m', f, d) == Sub(m, f, d)
    decreases d
  {
    assert path[0] < ENTRIES;
    if d > 0 {
      var c := m[f][path[0]];
      assert Child(m, f, c, d);
      assert Indices(path[1..]);
      LeafKeeps(m, m', c.ppn, d - 1, path[1..], e);
      ReachIn(m, c.ppn, d - 1, path[1..], d - 1);
      UnderChild(m, m', f, d, path[0], Reach(m, f, path, d).value, {});
    }
  }

  lemma {:induction false} LeafLooks(m: map<nat, Table>, m': map<nat, Table>, f: nat, d: nat, path: Path, e: Pte,
                                     q: Path)
    requires Tree(m, f, d) && |path| == d + 1 == |q| && Indices(path) && Reach(m, f, path, d).Some?
    requires Changed(m, m', Reach(m, f, path, d).value, path[d], e)
    ensures Look(m', f, d, q) == if q == path then (if e.valid then Some(e) else None) else Look(m, f, d, q)
    decreases d
  {
    assert path[0] < ENTRIES;
    if d == 0 {
      assert q[0] == path[0] ==> q == path;
    } else {
      var x, c := Reach(m, f, path, d).value, m[f][path[0]];
      assert Child(m, f, c, d);
      ReachIn(m, c.ppn, d - 1, path[1..], d - 1);
      assert x != f && m'[f] == m[f];
      if q[0] == path[0] {
        assert Indices(path[1..]);
        LeafLooks(m, m', c.ppn, d - 1, path[1..], e, q[1..]);
        assert q == [q[0]] + q[1..] && path == [path[0]] + path[1..];
      } else if q[0] < ENTRIES && m[f][q[0]].valid {
        Elsewhere(m, m', f, d, path[0], q[0], x);
        LookFrame(m, m', m[f][q[0]].ppn, d - 1, q[1..]);
      }
    }
  }

  /** Following path step by step and looking it up agree. */
  lemma {:induction false} ReachLooks(m: map<nat, Table>, f: nat, d: nat, path: Path)
    requires Tree(m, f, d) && |path| == d + 1 && Indices(path)
    ensures Reach(m, f, path, d) == None ==> Look(m, f, d, path) == None
    ensures Reach(m, f, path, d).Some? ==>
              var x := Reach(m, f, path, d).value;
              x in m && |m[x]| == ENTRIES &&
              Look(m, f, d, path) == if m[x][path[d]].valid then Some(m[x][path[d]]) else None
    decreases d
  {
    assert path[0] < ENTRIES;
    if d > 0 && m[f][path[0]].valid {
      assert Child(m, f, m[f][path[0]], d);
      assert Indices(path[1..]);
      ReachLooks(m, m[f][path[0]].ppn, d - 1, path[1..]);
    }
  }

  // ---------- Following a path ----------

  lemma {:induction false} ReachStep(m: map<nat, Table>, f: nat, path: Path, k: nat)
    requires k < |path| && Reach(m, f, path, k).Some?
    requires var x := Reach(m, f, path, k).value; x in m && path[k] < |m[x]| && m[x][path[k]].valid
    ensures Reach(m, f, path, k + 1) == Some(m[Reach(m, f, path, k).value][path[k]].ppn)
    decreases k
  {
    if k > 0 {
      ReachStep(m, m[f][path[0]].ppn, path[1..], k - 1);
    }
  }

  lemma {:induction false} ReachEnds(m: map<nat, Table>, f: nat, path: Path, k: nat, n: nat)
    requires k < n <= |path| && Reach(m, f, path, k).Some?
    requires var x := Reach(m, f, path, k).value; x in m && path[k] < |m[x]| && !m[x][path[k]].valid
    ensures Reach(m, f, path, n) == None
    decreases k
  {
    if k > 0 {
      ReachEnds(m, m[f][path[0]].ppn, path[1..], k - 1, n - 1);
    }
  }

  /** How many of the first k tables below the root are missing on a path */
  ghost function Missing(m: map<nat, Table>, root: nat, path: Path, k: nat): (n: nat)
    requires k <= |path|
  {
    if k == 0 then 0 else Missing(m, root, path, k - 1) + if Reach(m, root, path, k).Some? then 0 else 1
  }

  /**
   need is the number of tables missing on the path to page n; a walk there has to create
   them.  The quantifier keeps the count folded.
   */
  ghost predicate Needs(m: map<nat, Table>, root: nat, n: nat, need: nat) {
    forall path: Path :: path == Split(n) ==> NeedsOn(m, root, path, need)
  }

  ghost predicate NeedsOn(m: map<nat, Table>, root: nat, path: Path, need: nat) {
    |path| == TOP + 1 && need == Missing(m, root, path, TOP)
  }

  lemma NeedOf(m: map<nat, Table>, root: nat, n: nat) returns (need: nat)
    ensures Needs(m, root, n, need)
  {
    need := Missing(m, root, Split(n), TOP);
  }

  lemma {:induction false} MissingGrows(m: map<nat, Table>, root: nat, path: Path, k: nat, n: nat)
    requires k <= n <= |path|
    ensures Missing(m, root, path, k) <= Missing(m, root, path, n)
    decreases n
  {
    if k < n {
      MissingGrows(m, root, path, k, n - 1);
    }
  }

  lemma {:induction false} ReachNone(m: map<nat, Table>, f: nat, path: Path, k: nat, n: nat)
    requires k <= n <= |path| && Reach(m, f, path, k) == None
    ensures Reach(m, f, path, n) == None
    decreases k
  {
    if f in m && path[0] < |m[f]| && m[f][path[0]].valid {
      ReachNone(m, m[f][path[0]].ppn, path[1..], k - 1, n - 1);
    }
  }

  /** The new table is where the path leads next. */
  lemma {:induction false} LinkReach(m: map<nat, Table>, m': map<nat, Table>, f: nat, d: nat, path: Path, k: nat,
                                     g: nat)
    requires Tree(m, f, d) && |path| == d + 1 && Indices(path) && k < d && Reach(m, f, path, k).Some?
    requires Changed(m, m', Reach(m, f, path, k).value, path[k], Node(g))
    ensures Reach(m', f, path, k + 1) == Some(g)
    decreases d
  {
    assert path[0] < ENTRIES;
    if k > 0 {
      var e := m[f][path[0]];
      assert Child(m, f, e, d);
      assert Indices(path[1..]);
      ReachIn(m, e.ppn, d - 1, path[1..], k - 1);
      LinkReach(m, m', e.ppn, d - 1, path[1..], k - 1, g);
    }
  }

  // ---------- The translation as a finite map ----------

  ghost function Get(t: map<nat, Pte>, n: nat): (e: Option<Pte>) {
    if n in t then Some(t[n]) else None
  }

  /** The tables at root translate exactly as t says, and nothing at or above MAXVA. */
  ghost predicate Translates(m: map<nat, Table>, root: nat, t: map<nat, Pte>) {
    && Tree(m, root, TOP)
    && (forall n: nat :: n < ALLPAGES ==> Look(m, root, TOP, Split(n)) == Get(t, n))
    && (forall n :: n in t ==> n < MAXPAGES)
  }

  /** A freshly created table translates nothing. */
  lemma EmptyTranslates(m: map<nat, Table>, root: nat)
    requires root in m && m[root] == ZeroTable()
    ensures Translates(m, root, map[]) && Sub(m, root, TOP) == {root}
  {
  }

  lemma LinkTranslates(m: map<nat, Table>, m': map<nat, Table>, root: nat, t: map<nat, Pte>, path: Path, k: nat, g: nat)
    requires Translates(m, root, t) && |path| == TOP + 1 && Indices(path) && k < TOP && Reach(m, root, path, k).Some?
    requires g !in m && g in m' && m'[g] == ZeroTable()
    requires Changed(m, m', Reach(m, root, path, k).value, path[k], Node(g))
    requires !m[Reach(m, root, path, k).value][path[k]].valid
    ensures Translates(m', root, t) && Sub(m', root, TOP) == Sub(m, root, TOP) + {g}
  {
    LinkKeeps(m, m', root, TOP, path, k, Reach(m, root, path, k).value, g);
    forall n: nat | n < ALLPAGES
      ensures Look(m', root, TOP, Split(n)) == Get(t, n)
    {
      LinkLooks(m, m', root, TOP, path, k, g, Split(n));
    }
  }

  /** What writing entry e for page n makes of the translation */
  ghost function Put(t: map<nat, Pte>, n: nat, e: Pte): (r: map<nat, Pte>) {
    if e.valid then t[n := e] else t - {n}
  }

  lemma LeafTranslates(m: map<nat, Table>, m': map<nat, Table>, root: nat, t: map<nat, Pte>, n: nat, e: Pte)
    requires Translates(m, root, t) && n < MAXPAGES && Reach(m, root, Split(n), TOP).Some?
    requires Changed(m, m', Reach(m, root, Split(n), TOP).value, Split(n)[TOP], e)
    requires e.valid ==> Leaf(e)
    ensures Translates(m', root, Put(t, n, e)) && Sub(m', root, TOP) == Sub(m, root, TOP)
  {
    LeafKeeps(m, m', root, TOP, Split(n), e);
    forall q: nat | q < ALLPAGES
      ensures Look(m', root, TOP, Split(q)) == Get(Put(t, n, e), q)
    {
      LeafLooks(m, m', root, TOP, Split(n), e, Split(q));
      if Split(q) == Split(n) {
        SplitUnique(q, n);
      }
    }
  }

  // ---------- Trees without leaves ----------

  /** No entry of a level-0 table below f is valid. */
  ghost predicate Bare(m: map<nat, Table>, f: nat, d: nat)
    requires Tree(m, f, d)
    decreases d
  {
    if d == 0 then forall i :: 0 <= i < ENTRIES ==> !m[f][i].valid
    else forall i :: 0 <= i < ENTRIES && m[f][i].valid ==> Child(m, f, m[f][i], d) && Bare(m, m[f][i].ppn, d - 1)
  }

  lemma {:induction false} NothingFound(m: map<nat, Table>, f: nat, d: nat)
    requires Tree(m, f, d)
    requires forall path: Path :: |path| == d + 1 && Indices(path) ==> Look(m, f, d, path) == None
    ensures Bare(m, f, d)
    decreases d
  {
    if d == 0 {
      forall i: nat | i < ENTRIES
        ensures !m[f][i].valid
      {
        assert Look(m, f, 0, [i]) == None;
      }
    } else {
      forall i: nat | i < ENTRIES && m[f][i].valid
        ensures Child(m, f, m[f][i], d) && Bare(m, m[f][i].ppn, d - 1)
      {
        assert Child(m, f, m[f][i], d);
        forall path: Path | |path| == d && Indices(path)
          ensures Look(m, m[f][i].ppn, d - 1, path) == None
        {
          var q := [i] + path;
          assert q[1..] == path;
          assert Look(m, f, d, q) == None;
        }
        NothingFound(m, m[f][i].ppn, d - 1);
      }
    }
  }

  lemma EmptyIsBare(m: map<nat, Table>, root: nat)
    requires Translates(m, root, map[])
    ensures Bare(m, root, TOP)
  {
    forall path: Path | |path| == TOP + 1 && Indices(path)
      ensures Look(m, root, TOP, path) == None
    {
      var n := (path[0] * 512 + path[1]) * 512 + path[2];
      assert path[0] < 512 && path[1] < 512 && path[2] < 512;
      assert n / 512 == path[0] * 512 + path[1];
      assert Split(n) == path;
    }
    NothingFound(m, root, TOP);
  }

  lemma {:induction false} BareFrame(m: map<nat, Table>, m': map<nat, Table>, f: nat, d: nat)
    requires Tree(m, f, d) && Bare(m, f, d) && Tree(m', f, d)
    requires forall x :: x in Sub(m, f, d) ==> x in m' && x in m && m'[x] == m[x]
    ensures Bare(m', f, d)
    decreases d
  {
    assert f in Sub(m, f, d);
    if d > 0 {
      forall i | 0 <= i < ENTRIES && m'[f][i].valid
        ensures Child(m', f, m'[f][i], d) && Bare(m', m'[f][i].ppn, d - 1)
      {
        assert Child(m, f, m[f][i], d);
        assert Below(m, m[f][i], d) <= Sub(m, f, d);
        BareFrame(m, m', m[f][i].ppn, d - 1);
      }
    }
  }

  /** The pages of the tables below the first i entries of f */
  ghost function UpTo(m: map<nat, Table>, f: nat, d: nat, i: nat): (s: set<nat>)
    requires f in m && |m[f]| == ENTRIES && i <= ENTRIES && d > 0
  {
    if i == 0 then {} else UpTo(m, f, d, i - 1) + Below(m, m[f][i - 1], d)
  }

  lemma {:induction false} UpToHas(m: map<nat, Table>, f: nat, d: nat, i: nat, x: nat)
    requires f in m && |m[f]| == ENTRIES && i <= ENTRIES && d > 0
    ensures x in UpTo(m, f, d, i) <==> exists j :: 0 <= j < i && x in Below(m, m[f][j], d)
  {
    if i > 0 {
      UpToHas(m, f, d, i - 1, x);
      if j :| 0 <= j < i && x in Below(m, m[f][j], d) {
        assert j == i - 1 || 0 <= j < i - 1;
      }
    }
  }

  lemma UpToAll(m: map<nat, Table>, f: nat, d: nat)
    requires f in m && |m[f]| == ENTRIES && d > 0
    ensures Sub(m, f, d) == {f} + UpTo(m, f, d, ENTRIES)
  {
    forall x
      ensures x in Sub(m, f, d) <==> x in {f} + UpTo(m, f, d, ENTRIES)
    {
      if x >= 0 {
        UpToHas(m, f, d, ENTRIES, x);
      }
    }
  }

  /** The subtree of entry i is untouched while the subtrees before it and the entries before it go. */
  lemma NextChild(m: map<nat, Table>, m': map<nat, Table>, f: nat, d: nat, i: nat)
    requires Tree(m, f, d) && Bare(m, f, d) && d > 0 && i < ENTRIES && m[f][i].valid
    requires forall x :: x in m && x != f && x !in UpTo(m, f, d, i) ==> x in m' && m'[x] == m[x]
    ensures Tree(m', m[f][i].ppn, d - 1) && Bare(m', m[f][i].ppn, d - 1)
    ensures Sub(m', m[f][i].ppn, d - 1) == Below(m, m[f][i], d)
    ensures f !in Below(m, m[f][i], d) && Below(m, m[f][i], d) !! UpTo(m, f, d, i)
  {
    var c := m[f][i].ppn;
    assert Child(m, f, m[f][i], d);
    SubInside(m, c, d - 1);
    forall x | x in Below(m, m[f][i], d)
      ensures x !in UpTo(m, f, d, i)
    {
      UpToHas(m, f, d, i, x);
      assert forall j :: 0 <= j < i && m[f][j].valid ==> Apart(m, m[f][j], m[f][i], d);
    }
    SubFrame(m, m', c, d - 1);
    BareFrame(m, m', c, d - 1);
  }
}

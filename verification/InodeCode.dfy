/** The functions of kernel/fs.c over the inode table; each runs steps of the machine in InodeTable. */
module InodeCode {
  import opened Common
  import opened InodeTable

  /** trace leads from s to s' by steps of the machine. */
  ghost predicate Runs(trace: seq<State>, s: State, s': State) {
    && |trace| > 0 && trace[0] == s && trace[|trace| - 1] == s'
    && forall k :: 0 < k < |trace| ==> FollowsAt(trace, k)
  }

  class Inodes {
    var disk: map<nat, Dinode>
    var table: seq<Entry>
    var used: set<Ref>

    /** A table of n unused entries */
    constructor (disk: map<nat, Dinode>, n: nat)
      ensures Init(Now()) && this.disk == disk && |table| == n
    {
      this.disk := disk;
      table := seq(n, _ => Entry(0, 0, false, Dinode(0, 0, 0), None, {}, false, NotFreeing));
      used := {};
    }

    ghost function Now(): State
      reads this
    {
      State(disk, table, used)
    }

    /** The entry of inode inum if it is in the table, else the first unused entry. */
    method Find(inum: nat) returns (i: nat, hit: bool, ok: bool)
      ensures ok ==> i < |table|
      ensures ok && hit ==> table[i].ref > 0 && table[i].inum == inum
      ensures !hit ==> forall j :: 0 <= j < |table| && table[j].ref > 0 ==> table[j].inum != inum
      ensures ok && !hit ==> table[i].ref == 0 && forall j :: 0 <= j < i ==> table[j].ref != 0
      ensures !ok ==> !hit && forall j :: 0 <= j < |table| ==> table[j].ref != 0
    {
      var empty := |table|;
      for k := 0 to |table|
        invariant forall j :: 0 <= j < k && table[j].ref > 0 ==> table[j].inum != inum
        invariant empty == |table| || (0 <= empty < k && table[empty].ref == 0)
        invariant forall j :: 0 <= j < k && j < empty ==> table[j].ref != 0
      {
        if table[k].ref > 0 && table[k].inum == inum {
          return k, true, true;
        }
        if empty == |table| && table[k].ref == 0 {
          empty := k;
        }
      }
      return empty, false, empty < |table|;
    }

    /** iget; without an unused entry the kernel panics. */
    method Iget(inum: nat, r: Ref) returns (i: nat, ok: bool)
      requires r !in used && inum in disk
      modifies this
      ensures ok ==> i < |table| && table[i].inum == inum && r in table[i].refs
      ensures ok ==> Follows(old(Now()), Now()) && disk == old(disk) && used == old(used) + {r}
      ensures old(Inv(Now())) ==> Inv(Now())
      ensures ok ==> |table| == |old(table)| && table == old(table)[i := table[i]]
      ensures ok ==> if old(table)[i].ref == 0
                     then table[i] == old(table)[i].(inum := inum, ref := 1, refs := {r}, valid := false)
                     else old(table)[i].inum == inum && table[i] == old(table)[i].(ref := old(table)[i].ref + 1,
                                                                                   refs := old(table)[i].refs + {r})
      ensures !ok ==> Now() == old(Now()) && forall j :: 0 <= j < |table| ==> table[j].ref != 0
      ensures !ok ==> forall j :: 0 <= j < |table| && table[j].ref > 0 ==> table[j].inum != inum
    {
      var hit;
      i, hit, ok := Find(inum);
      if ok {
        var e := table[i];
        if hit {
          table := table[i := e.(ref := e.ref + 1, refs := e.refs + {r})];
        } else {
          table := table[i := e.(inum := inum, ref := 1, refs := {r}, valid := false)];
        }
        used := used + {r};
        StepKeeps(old(Now()), Now(), if hit then SGetHit(r, i) else SGetMiss(r, i, inum));
      }
    }

    /** ialloc's scan of the inodes on disk; its iget follows. */
    method Claim(ninodes: nat, typ: nat) returns (inum: nat, ok: bool)
      requires typ != 0 && forall k :: 1 <= k < ninodes ==> k in disk
      modifies this
      ensures ok ==> 1 <= inum < ninodes && Follows(old(Now()), Now())
      ensures ok ==> disk == old(disk)[inum := Dinode(typ, 0, 0)] && table == old(table) && used == old(used)
      ensures ok ==> inum in old(disk) && old(disk)[inum].typ == 0
      ensures ok ==> forall k :: 1 <= k < inum ==> k in disk && disk[k].typ != 0
      ensures !ok ==> Now() == old(Now()) && forall k :: 1 <= k < ninodes ==> disk[k].typ != 0
    {
      inum := 1;
      while inum < ninodes
        invariant 1 <= inum
        invariant forall k :: 1 <= k < inum && k < ninodes ==> disk[k].typ != 0
      {
        if disk[inum].typ == 0 {
          disk := disk[inum := Dinode(typ, 0, 0)];
          assert Next(old(Now()), Now(), SClaim(inum, typ));
          return inum, true;
        }
        inum := inum + 1;
      }
      ok := false;
    }

    /** ilock, once the sleep lock is free; an inode without a type panics. */
    method Ilock(r: Ref, i: nat) returns (ok: bool, ghost trace: seq<State>)
      requires Inv(Now()) && Owns(Now(), r, i) && table[i].holder == None
      modifies this
      ensures Runs(trace, old(Now()), Now()) && Inv(Now()) && disk == old(disk) && used == old(used)
      ensures i < |table| == |old(table)| && table == old(table)[i := table[i]]
      ensures table[i] == old(table)[i].(holder := Some(r), valid := table[i].valid, data := table[i].data)
      ensures old(table)[i].valid ==> table[i].data == old(table)[i].data
      ensures ok ==> table[i].holder == Some(r) && table[i].valid
      ensures ok ==> table[i].inum in disk && table[i].data == disk[table[i].inum] && table[i].data.typ != 0
      ensures !ok <==> !old(table)[i].valid && old(table)[i].inum in disk && disk[old(table)[i].inum].typ == 0
    {
      assert EntryCounts(table[i], used) && EntryFresh(table[i], disk);
      assert table[i].refs != {};
      table := table[i := table[i].(holder := Some(r))];
      StepKeeps(old(Now()), Now(), SLock(r, i));
      trace := [old(Now()), Now()];
      ok := true;
      if !table[i].valid {
        if disk[table[i].inum].typ == 0 {
          return false, trace;
        }
        ghost var before := Now();
        table := table[i := table[i].(data := disk[table[i].inum], valid := true)];
        StepKeeps(before, Now(), SLoad(r, i));
        trace := trace + [Now()];
      }
    }

    /** iunlock, after iupdate if there were changes */
    method Iunlock(r: Ref, i: nat)
      requires Owns(Now(), r, i) && table[i].holder == Some(r) && !table[i].dirty
      modifies this`table
      ensures Follows(old(Now()), Now()) && table == old(table)[i := old(table)[i].(holder := None)]
      ensures old(Inv(Now())) ==> Inv(Now())
    {
      table := table[i := table[i].(holder := None)];
      StepKeeps(old(Now()), Now(), SUnlock(r, i));
    }

    /**
     iput when nothing runs in between: the reference is gone, and an inode without
     links whose last reference this was is free on disk.
     */
    method Iput(r: Ref, i: nat, truncated: Dinode) returns (frees: bool, ghost trace: seq<State>)
      requires Inv(Now()) && Owns(Now(), r, i) && table[i].holder != Some(r)
      requires truncated.typ == table[i].data.typ && truncated.nlink == table[i].data.nlink  // itrunc
      modifies this
      ensures Runs(trace, old(Now()), Now())
      ensures |table| == |old(table)| && forall j :: 0 <= j < |table| && j != i ==> table[j] == old(table)[j]
      ensures table[i].refs == old(table)[i].refs - {r} && table[i].ref == old(table)[i].ref - 1
      ensures table[i].inum == old(table)[i].inum && table[i].holder == old(table)[i].holder
      ensures used == old(used) && table[i].freeing == (if frees then NotFreeing else old(table)[i].freeing)
      ensures frees <==> old(table)[i].ref == 1 && old(table)[i].valid && old(table)[i].data.nlink == 0
      ensures disk == if frees then old(disk)[table[i].inum := truncated.(typ := 0)] else old(disk)
      ensures table[i].valid == (old(table)[i].valid && !frees)
      ensures !frees ==> table[i].data == old(table)[i].data
    {
      trace := [Now()];
      frees := table[i].ref == 1 && table[i].valid && table[i].data.nlink == 0;
      if frees {
        trace := PutFree(r, i, truncated);
      } else {
        var e := table[i];
        table := table[i := e.(ref := e.ref - 1, refs := e.refs - {r})];
        assert Next(old(Now()), Now(), SPut(r, i));
        trace := trace + [Now()];
      }
    }

    /** iput's branch for the last reference, as one run. */
    method PutFree(r: Ref, i: nat, truncated: Dinode) returns (ghost trace: seq<State>)
      requires Inv(Now()) && Owns(Now(), r, i) && table[i].holder != Some(r) && MustFree(table[i])
      requires truncated.typ == table[i].data.typ && truncated.nlink == table[i].data.nlink
      modifies this
      ensures Runs(trace, old(Now()), Now())
      ensures used == old(used) && disk == old(disk)[old(table)[i].inum := truncated.(typ := 0)]
      ensures table == old(table)[i := old(table)[i].(ref := 0, refs := old(table)[i].refs - {r}, valid := false,
                                                      data := truncated.(typ := 0), dirty := false,
                                                      freeing := NotFreeing)]
    {
      Unlocked(Now(), r, i);
      ghost var first := PutTruncate(r, i, truncated);
      ghost var second := PutRelease(r, i);
      trace := first + second[1..];
      Joined(first, second, old(Now()), first[|first| - 1], Now());
      assert table[i].holder == None;
    }

    method PutTruncate(r: Ref, i: nat, truncated: Dinode) returns (ghost trace: seq<State>)
      requires Owns(Now(), r, i) && MustFree(table[i]) && table[i].holder == None
      requires truncated.typ != 0 && truncated.nlink == table[i].data.nlink
      requires !table[i].freeing.Cleared?
      modifies this
      ensures Runs(trace, old(Now()), Now())
      ensures used == old(used) && disk == old(disk)[old(table)[i].inum := truncated]
      ensures table == old(table)[i := old(table)[i].(holder := Some(r), data := truncated, dirty := false,
              freeing := Truncating(r))]
    {
      table := table[i := table[i].(holder := Some(r), freeing := Truncating(r))];
      ghost var s1 := Now();
      assert Next(old(Now()), s1, SPutLock(r, i));
      table := table[i := table[i].(data := truncated, dirty := true)];
      ghost var s2 := Now();
      assert Next(s1, s2, SModify(r, i, truncated));
      disk, table := disk[table[i].inum := truncated], table[i := table[i].(dirty := false)];
      assert Next(s2, Now(), SUpdate(r, i));
      trace := [old(Now()), s1, s2, Now()];
    }

    method PutRelease(r: Ref, i: nat) returns (ghost trace: seq<State>)
      requires i < |table| && table[i].freeing == Truncating(r)
      modifies this
      ensures Runs(trace, old(Now()), Now())
      ensures used == old(used) && disk == old(disk)[old(table)[i].inum := old(table)[i].data.(typ := 0)]
      ensures table == old(table)[i := old(table)[i].(ref := old(table)[i].ref - 1, refs := old(table)[i].refs - {r},
                                                      valid := false, data := old(table)[i].data.(typ := 0),
                                                      holder := None, dirty := false, freeing := NotFreeing)]
    {
      ghost var s1 := PutClear(r, i);
      ghost var s2 := PutUnlock(r, i);
      ghost var s3 := PutDrop(r, i);
      trace := FourSteps(old(Now()), s1, s2, s3, Now());
    }

    method PutDrop(r: Ref, i: nat) returns (ghost was: State)
      requires i < |table| && table[i].freeing == Dropping(r)
      modifies this`table
      ensures was == old(Now()) && Leads(was, Now())
      ensures table == old(table)[i := old(table)[i].(ref := old(table)[i].ref - 1, refs := old(table)[i].refs - {r},
              freeing := NotFreeing)]
    {
      was := Now();
      table := table[i := table[i].(ref := table[i].ref - 1, refs := table[i].refs - {r}, freeing := NotFreeing)];
      assert Next(was, Now(), SPutDrop(r, i));
    }

    method PutClear(r: Ref, i: nat) returns (ghost now: State)
      requires i < |table| && table[i].freeing == Truncating(r)
      modifies this
      ensures Leads(old(Now()), now) && now == Now() && used == old(used)
      ensures disk == old(disk)[old(table)[i].inum := old(table)[i].data.(typ := 0)]
      ensures table == old(table)[i := old(table)[i].(data := old(table)[i].data.(typ := 0), dirty := false,
              freeing := Cleared(r))]
    {
      var cleared := table[i].data.(typ := 0);
      disk, table := disk[table[i].inum := cleared],
          table[i := table[i].(data := cleared, dirty := false, freeing := Cleared(r))];
      now := Now();
      assert Next(old(Now()), now, SPutClear(r, i));
    }

    method PutUnlock(r: Ref, i: nat) returns (ghost middle: State)
      requires i < |table| && table[i].freeing == Cleared(r)
      modifies this`table
      ensures Leads(old(Now()), middle) && Leads(middle, Now())
      ensures table == old(table)[i := old(table)[i].(valid := false, holder := None, freeing := Dropping(r))]
    {
      table := table[i := table[i].(valid := false, freeing := Invalid(r))];
      middle := Now();
      assert Next(old(Now()), middle, SPutInvalid(r, i));
      table := table[i := table[i].(holder := None, freeing := Dropping(r))];
      assert Next(middle, Now(), SPutUnlock(r, i));
    }
  }

  lemma StepKeeps(s: State, s': State, step: Step)
    requires Next(s, s', step)
    ensures Follows(s, s') && (Inv(s) ==> Inv(s'))
  {
    if Inv(s) {
      NextKeeps(s, s', step);
    }
  }

  /** s' follows s; behind a quantifier, so that the step is looked for only where it is asserted. */
  ghost predicate Leads(s: State, s': State) {
    forall t :: t == s' ==> Follows(s, t)
  }

  lemma FourSteps(s0: State, s1: State, s2: State, s3: State, s4: State) returns (trace: seq<State>)
    requires Leads(s0, s1) && Leads(s1, s2) && Leads(s2, s3) && Leads(s3, s4)
    ensures Runs(trace, s0, s4)
  {
    trace := [s0, s1, s2, s3, s4];
    assert Follows(s0, s1) && Follows(s1, s2) && Follows(s2, s3) && Follows(s3, s4);
  }

  lemma Joined(first: seq<State>, second: seq<State>, a: State, b: State, c: State)
    requires Runs(first, a, b) && Runs(second, b, c)
    ensures Runs(first + second[1..], a, c)
  {
    var trace := first + second[1..];
    forall k | 0 < k < |trace|
      ensures FollowsAt(trace, k)
    {
      if k < |first| {
        assert FollowsAt(first, k);
      } else {
        assert FollowsAt(second, k - |first| + 1);
        assert trace[k] == second[k - |first| + 1] && trace[k - 1] == second[k - |first|];
      }
    }
  }

  lemma Unlocked(s: State, r: Ref, i: nat)
    requires Inv(s) && Owns(s, r, i) && s.table[i].holder != Some(r) && MustFree(s.table[i])
    ensures s.table[i].holder == None && s.table[i].data.typ != 0
  {
    assert EntryCounts(s.table[i], s.used) && EntryFresh(s.table[i], s.disk);
    OnlyOne(s.table[i].refs, r);
  }

  // ---------- An unlinked inode that nobody frees ----------

  /**
   An inode that stays allocated without links and without references: an iput has freed it
   but not yet dropped its reference; ialloc takes it again, and whoever got it gives it up
   without having linked it.
   */
  method LeakedInode() returns (t: Inodes)
    ensures 1 in t.disk && t.disk[1].typ != 0 && t.disk[1].nlink == 0 && |t.table| == 1 && t.table[0].ref == 0
  {
    t := Dropping7();
    var inum, ok := t.Claim(2, 2);
    TakenAgain(t);
    ghost var now := t.PutDrop(7, 0);
  }

  /** iget, ilock and iunlock of a lone inode by reference r, in a table of one entry */
  method UseOnce(t: Inodes, r: Ref)
    requires |t.table| == 1 && 1 in t.disk && t.disk[1].typ != 0 && r !in t.used && Inv(t.Now())
    requires t.table[0].holder == None && (t.table[0].ref == 0 || (t.table[0].inum == 1 && !t.table[0].valid))
    modifies t
    ensures Inv(t.Now()) && t.disk == old(t.disk) && t.used == old(t.used) + {r} && |t.table| == 1
    ensures t.table[0] == old(t.table)[0].(inum := 1, ref := old(t.table)[0].ref + 1, valid := true,
                                           data := t.disk[1], refs := old(t.table)[0].refs + {r})
  {
    TakeOnce(t, r);
    LoadOnce(t, r);
  }

  method TakeOnce(t: Inodes, r: Ref)
    requires |t.table| == 1 && 1 in t.disk && r !in t.used && Inv(t.Now())
    requires t.table[0].holder == None && (t.table[0].ref == 0 || (t.table[0].inum == 1 && !t.table[0].valid))
    modifies t
    ensures Inv(t.Now()) && t.disk == old(t.disk) && t.used == old(t.used) + {r} && |t.table| == 1
    ensures Owns(t.Now(), r, 0)
    ensures t.table[0] == old(t.table)[0].(inum := 1, ref := old(t.table)[0].ref + 1, valid := false,
                                           refs := old(t.table)[0].refs + {r})
  {
    NotYet(t.table[0], t.used, r);
    var i, ok := t.Iget(1, r);
  }

  lemma NotYet(e: Entry, used: set<Ref>, r: Ref)
    requires EntryCounts(e, used) && r !in used
    ensures e.ref == 0 ==> e.refs == {} && e.freeing.NotFreeing? && !e.dirty
    ensures e.freeing.NotFreeing? || e.freeing.r != r
  {
  }

  method LoadOnce(t: Inodes, r: Ref)
    requires |t.table| == 1 && 1 in t.disk && t.disk[1].typ != 0 && Inv(t.Now()) && Owns(t.Now(), r, 0)
    requires t.table[0].holder == None && t.table[0].inum == 1 && !t.table[0].valid
    modifies t
    ensures Inv(t.Now()) && t.disk == old(t.disk) && t.used == old(t.used) && |t.table| == 1
    ensures t.table[0] == old(t.table)[0].(valid := true, data := t.disk[1])
  {
    assert EntryCounts(t.table[0], t.used);
    var typed;
    ghost var trace;
    typed, trace := t.Ilock(r, 0);
    t.Iunlock(r, 0);
  }

  /** iput of an inode without links, up to where it drops its reference */
  method Dropping7() returns (t: Inodes)
    ensures Inv(t.Now()) && t.disk == map[1 := Dinode(0, 0, 0)] && t.used == {7} && fresh(t)
    ensures |t.table| == 1 && t.table[0] == Entry(1, 1, false, Dinode(0, 0, 0), None, {7}, false, Dropping(7))
  {
    t := new Inodes(map[1 := Dinode(2, 0, 0)], 1);
    InitInv(t.Now());
    UseOnce(t, 7);
    assert t.table[0] == Entry(1, 1, true, Dinode(2, 0, 0), None, {7}, false, NotFreeing);
    ghost var trace := t.PutTruncate(7, 0, Dinode(2, 0, 0));
    ghost var now := t.PutClear(7, 0);
    now := t.PutUnlock(7, 0);
    assert t.table[0] == Entry(1, 1, false, Dinode(0, 0, 0), None, {7}, false, Dropping(7));
    assert t.used == {7} && t.disk == map[1 := Dinode(0, 0, 0)];
    SingleRef(t.table[0].refs, 7);
    OneEntry(t.table[0], t.Now());
  }

  lemma OneEntry(e: Entry, s: State)
    requires |s.table| == 1 && s.table[0] == e && EntryCounts(e, s.used) && EntryFresh(e, s.disk)
    ensures Inv(s)
  {
  }

  /** The inode's next user, who does not link it */
  method TakenAgain(t: Inodes)
    requires t.disk == map[1 := Dinode(2, 0, 0)] && t.used == {7}
    requires |t.table| == 1 && t.table[0] == Entry(1, 1, false, Dinode(0, 0, 0), None, {7}, false, Dropping(7))
    modifies t
    ensures t.disk == old(t.disk) && |t.table| == 1 && t.table[0].ref == 1 && t.table[0].freeing == Dropping(7)
  {
    OneEntry(t.table[0], t.Now());
    UseOnce(t, 8);
    var frees;
    ghost var trace;
    frees, trace := t.Iput(8, 0, Dinode(2, 0, 0));
  }
}

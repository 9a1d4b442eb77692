/**
 The in-memory inode table of kernel/fs.c as a state machine: iget, idup, ilock,
 iunlock, iput and ialloc in any interleaving.

 A Ref is one counted pointer to a table entry, as returned by iget, idup or
 ialloc and given up by iput; whoever uses it acts as that Ref.  Steps are the
 critical sections under itable.lock and the work done under an entry's sleep
 lock.
 */
module InodeTable {
  import opened Common

  type Ref = nat

  /** What an inode holds on disk and in memory; typ 0 means free. */
  datatype Dinode = Dinode(typ: nat, nlink: nat, rest: nat)

  /** How far the iput that frees an entry's inode has come. */
  datatype Freeing =
    | NotFreeing
    | Truncating(r: Ref)  // holds the sleep lock, itable.lock released
    | Cleared(r: Ref)     // type 0 in memory and on disk
    | Invalid(r: Ref)     // valid is 0
    | Dropping(r: Ref)    // sleep lock released, ref not yet decremented

  datatype Entry = Entry(
    inum: nat,
    ref: int,
    valid: bool,
    data: Dinode,
    holder: Option<Ref>,  // who holds the sleep lock
    refs: set<Ref>,       // who the count stands for
    dirty: bool,          // changed since the last iupdate
    freeing: Freeing
  )

  datatype State = State(
    disk: map<nat, Dinode>,   // the inodes on disk
    table: seq<Entry>,
    used: set<Ref>            // references handed out so far
  )

  // ---------- The invariant ----------

  ghost predicate EntryCounts(e: Entry, used: set<Ref>) {
    && e.ref == |e.refs|
    && e.refs <= used
    && (e.holder.Some? ==> e.holder.value in e.refs)
    && (e.freeing.NotFreeing? || e.freeing.r in e.refs)
    && (e.freeing.Truncating? || e.freeing.Cleared? || e.freeing.Invalid? ==> e.holder == Some(e.freeing.r))
    && (e.freeing.Dropping? ==> e.holder != Some(e.freeing.r))
    && (e.freeing.Invalid? ==> !e.valid)
    && (e.freeing.Truncating? || e.freeing.Cleared? ==> e.valid)
    && (e.freeing.Truncating? ==> e.data.nlink == 0)
    && (e.dirty ==> e.holder.Some? && e.valid && !e.freeing.Cleared?)
  }

  /** What is in memory agrees with the disk, except while its holder has changes to write. */
  ghost predicate EntryFresh(e: Entry, disk: map<nat, Dinode>) {
    e.ref > 0 ==>
      && e.inum in disk
      && (e.dirty ==> e.data.typ != 0 && disk[e.inum].typ != 0)
      && (e.valid && !e.dirty && !e.freeing.Cleared? ==> e.data == disk[e.inum] && e.data.typ != 0)
  }

  ghost predicate Unique(table: seq<Entry>) {
    forall i, j :: 0 <= i < j < |table| && table[i].ref > 0 && table[j].ref > 0 ==> table[i].inum != table[j].inum
  }

  ghost predicate Inv(s: State) {
    && Unique(s.table)
    && (forall i :: 0 <= i < |s.table| ==> EntryCounts(s.table[i], s.used))
    && (forall i :: 0 <= i < |s.table| ==> EntryFresh(s.table[i], s.disk))
  }

  ghost predicate Init(s: State) {
    && s.used == {}
    && forall i :: 0 <= i < |s.table| ==> s.table[i] == Entry(0, 0, false, Dinode(0, 0, 0), None, {}, false, NotFreeing)
  }

  // ---------- Steps ----------

  predicate Index(s: State, i: nat) {
    i < |s.table|
  }

  /** r is a reference to entry i whose user is not inside iput. */
  predicate Owns(s: State, r: Ref, i: nat) {
    Index(s, i) && r in s.table[i].refs && (s.table[i].freeing.NotFreeing? || s.table[i].freeing.r != r)
  }

  ghost predicate InTable(s: State, inum: nat) {
    exists j :: 0 <= j < |s.table| && s.table[j].ref > 0 && s.table[j].inum == inum
  }

  /** iget of an inode that is in the table */
  ghost predicate GetHit(s: State, s': State, r: Ref, i: nat) {
    && Index(s, i) && s.table[i].ref > 0 && r !in s.used
    && var e := s.table[i];
    s' == State(s.disk, s.table[i := e.(ref := e.ref + 1, refs := e.refs + {r})], s.used + {r})
  }

  /** iget taking over an unused entry */
  ghost predicate GetMiss(s: State, s': State, r: Ref, i: nat, inum: nat) {
    && Index(s, i) && s.table[i].ref == 0 && r !in s.used && inum in s.disk && !InTable(s, inum)
    && var e := s.table[i];
    s' == State(s.disk, s.table[i := e.(inum := inum, ref := 1, refs := {r}, valid := false)], s.used + {r})
  }

  /** idup of reference q */
  ghost predicate Dup(s: State, s': State, q: Ref, r: Ref, i: nat) {
    && Owns(s, q, i) && r !in s.used
    && var e := s.table[i];
    s' == State(s.disk, s.table[i := e.(ref := e.ref + 1, refs := e.refs + {r})], s.used + {r})
  }

  /** ilock's acquiresleep */
  ghost predicate Lock(s: State, s': State, r: Ref, i: nat) {
    && Owns(s, r, i) && s.table[i].holder == None
    && s' == s.(table := s.table[i := s.table[i].(holder := Some(r))])
  }

  /** ilock's read of the disk; an inode without a type panics instead */
  ghost predicate Load(s: State, s': State, r: Ref, i: nat) {
    && Owns(s, r, i) && s.table[i].holder == Some(r) && !s.table[i].valid
    && s.table[i].inum in s.disk && s.disk[s.table[i].inum].typ != 0
    && s' == s.(table := s.table[i := s.table[i].(data := s.disk[s.table[i].inum], valid := true)])
  }

  /** A change of a locked inode; itrunc, inside iput, leaves the link count alone */
  ghost predicate Modify(s: State, s': State, r: Ref, i: nat, data: Dinode) {
    && Index(s, i) && s.table[i].holder == Some(r) && s.table[i].valid && data.typ != 0
    && !s.table[i].freeing.Cleared? && (s.table[i].freeing.Truncating? ==> data.nlink == s.table[i].data.nlink)
    && s' == s.(table := s.table[i := s.table[i].(data := data, dirty := true)])
  }

  /** iupdate */
  ghost predicate Update(s: State, s': State, r: Ref, i: nat) {
    && Index(s, i) && s.table[i].holder == Some(r) && s.table[i].valid && !s.table[i].freeing.Cleared?
    && s' == State(s.disk[s.table[i].inum := s.table[i].data], s.table[i := s.table[i].(dirty := false)], s.used)
  }

  /** iunlock, after iupdate if there were changes */
  ghost predicate Unlock(s: State, s': State, r: Ref, i: nat) {
    && Owns(s, r, i) && s.table[i].holder == Some(r) && !s.table[i].dirty
    && s' == s.(table := s.table[i := s.table[i].(holder := None)])
  }

  /** iput's test: the last reference to an inode without links */
  predicate MustFree(e: Entry) {
    e.ref == 1 && e.valid && e.data.nlink == 0
  }

  /** iput of a reference that need not free the inode */
  ghost predicate Put(s: State, s': State, r: Ref, i: nat) {
    && Owns(s, r, i) && s.table[i].holder != Some(r) && !MustFree(s.table[i])
    && var e := s.table[i];
    s' == s.(table := s.table[i := e.(ref := e.ref - 1, refs := e.refs - {r})])
  }

  /** iput that frees: acquiresleep under itable.lock, possible only if the lock is free */
  ghost predicate PutLock(s: State, s': State, r: Ref, i: nat) {
    && Owns(s, r, i) && s.table[i].holder != Some(r) && MustFree(s.table[i])
    && s.table[i].holder == None
    && s' == s.(table := s.table[i := s.table[i].(holder := Some(r), freeing := Truncating(r))])
  }

  /** type = 0; iupdate */
  ghost predicate PutClear(s: State, s': State, r: Ref, i: nat) {
    && Index(s, i) && s.table[i].freeing == Truncating(r)
    && var data := s.table[i].data.(typ := 0);
    s' == State(s.disk[s.table[i].inum := data],
        s.table[i := s.table[i].(data := data, dirty := false, freeing := Cleared(r))], s.used)
  }

  /** valid = 0 */
  ghost predicate PutInvalid(s: State, s': State, r: Ref, i: nat) {
    && Index(s, i) && s.table[i].freeing == Cleared(r)
    && s' == s.(table := s.table[i := s.table[i].(valid := false, freeing := Invalid(r))])
  }

  /** releasesleep */
  ghost predicate PutUnlock(s: State, s': State, r: Ref, i: nat) {
    && Index(s, i) && s.table[i].freeing == Invalid(r)
    && s' == s.(table := s.table[i := s.table[i].(holder := None, freeing := Dropping(r))])
  }

  /** ref-- under itable.lock */
  ghost predicate PutDrop(s: State, s': State, r: Ref, i: nat) {
    && Index(s, i) && s.table[i].freeing == Dropping(r)
    && var e := s.table[i];
    s' == s.(table := s.table[i := e.(ref := e.ref - 1, refs := e.refs - {r}, freeing := NotFreeing)])
  }

  /** ialloc claims a free inode on disk; its iget follows as a step of its own */
  ghost predicate Claim(s: State, s': State, inum: nat, typ: nat) {
    && inum in s.disk && s.disk[inum].typ == 0 && typ != 0
    && s' == s.(disk := s.disk[inum := Dinode(typ, 0, 0)])
  }

  datatype Step =
    | SGetHit(r: Ref, i: nat)
    | SGetMiss(r: Ref, i: nat, inum: nat)
    | SDup(q: Ref, r: Ref, i: nat)
    | SLock(r: Ref, i: nat)
    | SLoad(r: Ref, i: nat)
    | SModify(r: Ref, i: nat, data: Dinode)
    | SUpdate(r: Ref, i: nat)
    | SUnlock(r: Ref, i: nat)
    | SPut(r: Ref, i: nat)
    | SPutLock(r: Ref, i: nat)
    | SPutClear(r: Ref, i: nat)
    | SPutInvalid(r: Ref, i: nat)
    | SPutUnlock(r: Ref, i: nat)
    | SPutDrop(r: Ref, i: nat)
    | SClaim(inum: nat, typ: nat)

  ghost predicate Next(s: State, s': State, step: Step) {
    match step
    case SGetHit(r, i) => GetHit(s, s', r, i)
    case SGetMiss(r, i, inum) => GetMiss(s, s', r, i, inum)
    case SDup(q, r, i) => Dup(s, s', q, r, i)
    case SLock(r, i) => Lock(s, s', r, i)
    case SLoad(r, i) => Load(s, s', r, i)
    case SModify(r, i, data) => Modify(s, s', r, i, data)
    case SUpdate(r, i) => Update(s, s', r, i)
    case SUnlock(r, i) => Unlock(s, s', r, i)
    case SPut(r, i) => Put(s, s', r, i)
    case SPutLock(r, i) => PutLock(s, s', r, i)
    case SPutClear(r, i) => PutClear(s, s', r, i)
    case SPutInvalid(r, i) => PutInvalid(s, s', r, i)
    case SPutUnlock(r, i) => PutUnlock(s, s', r, i)
    case SPutDrop(r, i) => PutDrop(s, s', r, i)
    case SClaim(inum, typ) => Claim(s, s', inum, typ)
  }

  // ---------- Proof ----------

  lemma InitInv(s: State)
    requires Init(s)
    ensures Inv(s)
  {
  }

  /** A change of one entry that keeps its inode number, or of an entry's disk inode along with it. */
  lemma EntryStep(s: State, s': State, i: nat)
    requires Inv(s) && Index(s, i) && |s'.table| == |s.table| && s.used <= s'.used
    requires s'.table == s.table[i := s'.table[i]]
    requires s'.table[i].ref > 0 && s.table[i].ref == 0 ==>
               forall j :: 0 <= j < |s.table| && s.table[j].ref > 0 ==> s.table[j].inum != s'.table[i].inum
    requires s.table[i].ref > 0 ==> s'.table[i].inum == s.table[i].inum
    requires EntryCounts(s'.table[i], s'.used) && EntryFresh(s'.table[i], s'.disk)
    requires s'.disk.Keys == s.disk.Keys
    requires forall inum :: inum in s.disk && inum != s'.table[i].inum ==> s'.disk[inum] == s.disk[inum]
    requires s'.table[i].ref == 0 || s.table[i].ref == 0 ==> s'.disk == s.disk
    ensures Inv(s')
  {
    forall j | 0 <= j < |s.table|
      ensures EntryCounts(s'.table[j], s'.used) && EntryFresh(s'.table[j], s'.disk)
    {
      assert EntryCounts(s.table[j], s.used) && EntryFresh(s.table[j], s.disk);
    }
  }

  lemma ClaimKeeps(s: State, s': State, inum: nat, typ: nat)
    requires Inv(s) && Claim(s, s', inum, typ)
    ensures Inv(s')
  {
    forall j | 0 <= j < |s.table|
      ensures EntryFresh(s'.table[j], s'.disk)
    {
      assert EntryFresh(s.table[j], s.disk);
    }
  }

  lemma NextKeeps(s: State, s': State, step: Step)
    requires Inv(s) && Next(s, s', step)
    ensures Inv(s')
  {
    if step.SClaim? {
      ClaimKeeps(s, s', step.inum, step.typ);
    } else {
      var i := step.i;
      assert EntryCounts(s.table[i], s.used) && EntryFresh(s.table[i], s.disk);
      EntryStep(s, s', i);
    }
  }

  ghost predicate Follows(s: State, s': State) {
    exists step :: Next(s, s', step)
  }

  ghost predicate IsRun(run: seq<State>) {
    && |run| > 0
    && Init(run[0])
    && forall k :: 0 < k < |run| ==> FollowsAt(run, k)
  }

  /** State k of a run follows from the one before. */
  ghost predicate FollowsAt(run: seq<State>, k: nat)
    requires 0 < k < |run|
  {
    Follows(run[k - 1], run[k])
  }

  lemma {:induction false} RunInv(run: seq<State>, k: nat)
    requires IsRun(run) && k < |run|
    ensures Inv(run[k])
  {
    if k == 0 {
      InitInv(run[0]);
    } else {
      RunInv(run, k - 1);
      assert FollowsAt(run, k);
      var step :| Next(run[k - 1], run[k], step);
      NextKeeps(run[k - 1], run[k], step);
    }
  }

  // ---------- What the table promises ----------

  /** Whoever holds an inode's lock owns one of its counted references. */
  lemma HolderOwnsReference(run: seq<State>, k: nat, i: nat)
    requires IsRun(run) && k < |run| && Index(run[k], i)
    ensures run[k].table[i].ref == |run[k].table[i].refs|
    ensures run[k].table[i].holder.Some? ==> run[k].table[i].holder.value in run[k].table[i].refs
  {
    RunInv(run, k);
    assert EntryCounts(run[k].table[i], run[k].used);
  }

  /** iput's acquiresleep, called with itable.lock held, never has to wait. */
  lemma IputNeverBlocks(run: seq<State>, k: nat, r: Ref, i: nat)
    requires IsRun(run) && k < |run| && Owns(run[k], r, i) && run[k].table[i].holder != Some(r)
    requires run[k].table[i].ref == 1 && run[k].table[i].valid && run[k].table[i].data.nlink == 0
    ensures run[k].table[i].holder == None
    ensures exists s' :: PutLock(run[k], s', r, i)
  {
    RunInv(run, k);
    var e := run[k].table[i];
    assert EntryCounts(e, run[k].used);
    OnlyOne(e.refs, r);
    var s' := run[k].(table := run[k].table[i := e.(holder := Some(r), freeing := Truncating(r))]);
    assert PutLock(run[k], s', r, i);
  }

  lemma OnlyOne(a: set<Ref>, r: Ref)
    requires |a| == 1 && r in a
    ensures a == {r}
  {
    assert |a - {r}| == 0;
  }

  /** A valid inode that nobody has locked is exactly the one on disk, and it is allocated. */
  lemma ValidIsOnDisk(run: seq<State>, k: nat, i: nat)
    requires IsRun(run) && k < |run| && Index(run[k], i)
    requires run[k].table[i].ref > 0 && run[k].table[i].valid && run[k].table[i].holder == None
    ensures run[k].table[i].inum in run[k].disk && run[k].table[i].data == run[k].disk[run[k].table[i].inum]
    ensures run[k].table[i].data.typ != 0
  {
    RunInv(run, k);
    var e := run[k].table[i];
    assert EntryCounts(e, run[k].used) && EntryFresh(e, run[k].disk);
  }

  /** An inode is in the table at most once. */
  lemma InTableOnce(run: seq<State>, k: nat, i: nat, j: nat)
    requires IsRun(run) && k < |run| && i < j < |run[k].table|
    requires run[k].table[i].ref > 0 && run[k].table[j].ref > 0
    ensures run[k].table[i].inum != run[k].table[j].inum
  {
    RunInv(run, k);
  }

  /**
   ialloc may reuse an inode before the iput that freed it has dropped its
   reference: until then the entry is either still locked, or invalid, or has been
   read from disk again by the new user.
   */
  lemma ReuseIsSafe(run: seq<State>, k: nat, i: nat)
    requires IsRun(run) && k < |run| && Index(run[k], i)
    requires !run[k].table[i].freeing.NotFreeing?
    ensures run[k].table[i].ref > 0
    ensures run[k].table[i].holder == None ==> run[k].table[i].freeing.Dropping?
    ensures run[k].table[i].holder == None && run[k].table[i].valid ==>
              run[k].table[i].inum in run[k].disk && run[k].table[i].data == run[k].disk[run[k].table[i].inum]
  {
    RunInv(run, k);
    var e := run[k].table[i];
    assert EntryCounts(e, run[k].used) && EntryFresh(e, run[k].disk);
    assert e.freeing.r in e.refs;
  }

  /** An inode on disk becomes free only through an iput, and only when it has no links left. */
  lemma FreedUnlinked(run: seq<State>, k: nat, inum: nat) returns (r: Ref, i: nat)
    requires IsRun(run) && 0 < k < |run|
    requires inum in run[k - 1].disk && inum in run[k].disk
    requires run[k - 1].disk[inum].typ != 0 && run[k].disk[inum].typ == 0
    ensures run[k].disk[inum].nlink == 0
    ensures FreedBy(run[k - 1], run[k], i, r) && run[k - 1].table[i].inum == inum && r in run[k - 1].table[i].refs
  {
    RunInv(run, k - 1);
    var s, s' := run[k - 1], run[k];
    assert FollowsAt(run, k);
    var step :| Next(s, s', step);
    assert step.SPutClear?;
    r, i := step.r, step.i;
    assert EntryCounts(s.table[i], s.used) && EntryFresh(s.table[i], s.disk);
  }

  // ---------- Unlinked inodes are freed ----------

  /** The reference to entry i that goes in this step is the last one. */
  predicate LastGoes(s: State, s': State, i: nat) {
    Index(s, i) && Index(s', i) && s.table[i].refs != {} && s'.table[i].refs == {}
  }

  lemma LastStep(s: State, s': State, step: Step, i: nat)
    requires Inv(s) && Next(s, s', step) && LastGoes(s, s', i)
    ensures s'.disk == s.disk && s'.table[i].data == s.table[i].data && s'.table[i].inum == s.table[i].inum
    ensures s.table[i].freeing.NotFreeing? && s.table[i].valid ==> s.table[i].data.nlink > 0
    ensures !s.table[i].freeing.NotFreeing? ==> s.table[i].freeing.Dropping?
    ensures s.table[i].ref > 0 && s.table[i].holder == None
  {
    assert EntryCounts(s.table[i], s.used);
    assert step.SPut? || step.SPutDrop?;
    SingleRef(s.table[i].refs, step.r);
  }

  lemma SingleRef(a: set<Ref>, r: Ref)
    requires r in a && a - {r} == {}
    ensures |a| == 1 && a == {r}
  {
    assert a == {r};
  }

  /**
   When the last reference to a valid entry goes, the inode has a link, unless the iput that
   drops it had freed the inode before and it was taken up again meanwhile: otherwise an
   inode without links is freed.
   */
  lemma LastPutLinked(run: seq<State>, k: nat, i: nat)
    requires IsRun(run) && 0 < k < |run| && LastGoes(run[k - 1], run[k], i) && run[k - 1].table[i].valid
    ensures run[k - 1].table[i].data.nlink > 0 || run[k - 1].table[i].freeing.Dropping?
    ensures var e, disk := run[k - 1].table[i], run[k].disk;
            && e.inum in disk && disk[e.inum].typ != 0
            && (disk[e.inum].nlink == 0 <==> e.freeing.Dropping? && e.data.nlink == 0)
  {
    RunInv(run, k - 1);
    assert FollowsAt(run, k);
    var step :| Next(run[k - 1], run[k], step);
    LastStep(run[k - 1], run[k], step, i);
    ValidIsOnDisk(run, k - 1, i);
  }

  /** The iput of r has come past the point where it writes type 0. */
  predicate PastClear(e: Entry, r: Ref) {
    e.freeing == Cleared(r) || e.freeing == Invalid(r) || e.freeing == Dropping(r)
  }

  lemma ClearStep(s: State, s': State, step: Step, i: nat, r: Ref)
    requires Inv(s) && Next(s, s', step) && Index(s, i) && Index(s', i) && PastClear(s'.table[i], r)
    ensures s'.table[i].inum == s.table[i].inum && r in s.table[i].refs
    ensures PastClear(s.table[i], r) || FreedBy(s, s', i, r)
  {
    assert EntryCounts(s.table[i], s.used) && EntryFresh(s.table[i], s.disk);
  }

  /** The step writes type 0 to the disk for the inode of entry i, whose last reference r is, and which has no links. */
  predicate FreedBy(s: State, s': State, i: nat, r: Ref) {
    && Index(s, i) && s.table[i].inum in s.disk && s.table[i].inum in s'.disk
    && s.table[i].holder == Some(r) && s.table[i].data.nlink == 0
    && s.disk[s.table[i].inum].typ != 0 && s'.disk[s.table[i].inum].typ == 0
  }

  /** An iput past that point has freed the inode on disk, under its reference. */
  lemma {:induction false} ClearedOnDisk(run: seq<State>, k: nat, i: nat, r: Ref) returns (m: nat)
    requires IsRun(run) && k < |run| && Index(run[k], i) && PastClear(run[k].table[i], r)
    ensures m < k && Index(run[m], i) && run[m].table[i].inum == run[k].table[i].inum
    ensures FreedBy(run[m], run[m + 1], i, r)
  {
    if k > 0 {
      RunInv(run, k - 1);
      assert FollowsAt(run, k);
      var step :| Next(run[k - 1], run[k], step);
      ClearStep(run[k - 1], run[k], step, i, r);
      if PastClear(run[k - 1].table[i], r) {
        m := ClearedOnDisk(run, k - 1, i, r);
      } else {
        m := k - 1;
      }
    }
  }

  /** An iput can always begin: it drops its reference or, exactly for the last one without links, locks the inode. */
  lemma IputBegins(run: seq<State>, k: nat, r: Ref, i: nat)
    requires IsRun(run) && k < |run| && Owns(run[k], r, i) && run[k].table[i].holder != Some(r)
    ensures exists s' :: Follows(run[k], s') && |s'.table| == |run[k].table|
              && if run[k].table[i].ref == 1 && run[k].table[i].valid && run[k].table[i].data.nlink == 0
                 then s'.table[i].holder == Some(r) && s'.table[i].freeing == Truncating(r)
                 else s'.table[i].refs == run[k].table[i].refs - {r}
  {
    var s := run[k];
    var e := s.table[i];
    if e.ref == 1 && e.valid && e.data.nlink == 0 {
      IputNeverBlocks(run, k, r, i);
      var s' :| PutLock(s, s', r, i);
      assert Next(s, s', SPutLock(r, i));
    } else {
      var s' := s.(table := s.table[i := e.(ref := e.ref - 1, refs := e.refs - {r})]);
      assert Next(s, s', SPut(r, i));
    }
  }
}

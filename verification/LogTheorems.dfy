/**
 What the log promises, over whole runs: crash atomicity, durability, cache
 coherence, group commit, and when log_write can run out of log.
 */
module LogTheorems {
  import opened Common
  import opened Blocks
  import opened LogFormat
  import LogReplay
  import opened LogMachine
  import opened LogSafety

  // ---------- Crash atomicity ----------

  /** The log_write calls whose effect a crash cannot undo any more. */
  ghost function Committed(c: Core): seq<Event>
    requires c.commits <= |c.events|
  {
    c.events[..c.commits]
  }

  lemma RecoverableRecovers(c: Core)
    requires Shape(c) && Recoverable(c)
    ensures LogReplay.GoodDisk(c.l, c.disk)
    ensures forall b: nat :: c.l.Home(b) ==> LogReplay.Recover(c.l, c.disk)[b] == Last(c.image, Committed(c), b)
  {
    forall b: nat | c.l.Home(b)
      ensures LogReplay.Recover(c.l, c.disk)[b] == Last(c.image, Committed(c), b)
    {
      LogReplay.RecoverAt(c.l, c.disk, b);
      if b in Header(c) {
        var j :| 0 <= j < |Header(c)| && Header(c)[j] == b;
      }
    }
  }

  /**
   Crash atomicity: whenever the power fails, recovery turns the disk into the
   effect of the committed log_write calls and nothing else.
   */
  lemma CrashAtomicity(run: seq<State>, k: nat)
    requires IsRun(run) && k < |run|
    ensures var c := run[k].c;
            && Shape(c) && c.commits <= |c.events|
            && LogReplay.GoodDisk(c.l, c.disk)
            && forall b: nat :: c.l.Home(b) ==> LogReplay.Recover(c.l, c.disk)[b] == Last(c.image, Committed(c), b)
  {
    RunInv(run, k);
    RecoverableRecovers(run[k].c);
  }

  /** A transaction is whole operations: of any operation, all calls are committed or none is. */
  lemma WholeOperations(run: seq<State>, k: nat, i: nat, j: nat)
    requires IsRun(run) && k < |run|
    requires i < |run[k].c.events| && j < |run[k].c.events| && run[k].c.events[i].op == run[k].c.events[j].op
    ensures i < run[k].c.commits <==> j < run[k].c.commits
    ensures i < run[k].c.commits ==> run[k].c.events[i].op !in run[k].c.active
  {
    RunInv(run, k);
  }

  lemma CommittedGrows(s: State, s': State, step: Step)
    requires s.c.commits <= |s.c.events| && Next(s, s', step)
    ensures s'.c.commits <= |s'.c.events| && Committed(s.c) <= Committed(s'.c)
  {
  }

  lemma FollowsGrows(s: State, s': State)
    requires s.c.commits <= |s.c.events| && Follows(s, s')
    ensures s'.c.commits <= |s'.c.events| && Committed(s.c) <= Committed(s'.c)
  {
    var step :| Next(s, s', step);
    CommittedGrows(s, s', step);
  }

  lemma CommitsBounded(run: seq<State>, k: nat)
    requires IsRun(run) && k < |run|
    ensures run[k].c.commits <= |run[k].c.events|
  {
    RunInv(run, k);
  }

  lemma StepGrows(run: seq<State>, k: nat)
    requires IsRun(run) && 0 < k < |run|
    ensures run[k - 1].c.commits <= |run[k - 1].c.events| && run[k].c.commits <= |run[k].c.events|
    ensures Committed(run[k - 1].c) <= Committed(run[k].c)
  {
    CommitsBounded(run, k - 1);
    assert FollowsAt(run, k);
    FollowsGrows(run[k - 1], run[k]);
  }

  lemma {:induction false} PrefixChain(xs: seq<seq<Event>>, j: nat, k: nat)
    requires j <= k < |xs| && forall i :: 0 < i < |xs| ==> xs[i - 1] <= xs[i]
    ensures xs[j] <= xs[k]
    decreases k
  {
    if j < k {
      PrefixChain(xs, j, k - 1);
      assert xs[k - 1] <= xs[k];
    }
  }

  /** What is committed stays committed, through every later step and crash. */
  lemma Durability(run: seq<State>, j: nat, k: nat)
    requires IsRun(run) && j <= k < |run|
    ensures run[j].c.commits <= |run[j].c.events| && run[k].c.commits <= |run[k].c.events|
    ensures Committed(run[j].c) <= Committed(run[k].c)
  {
    forall i | 0 <= i < |run|
      ensures run[i].c.commits <= |run[i].c.events|
    {
      CommitsBounded(run, i);
    }
    var xs := seq(|run|, i requires 0 <= i < |run| => Committed(run[i].c));
    forall i | 0 < i < |xs|
      ensures xs[i - 1] <= xs[i]
    {
      StepGrows(run, i);
    }
    PrefixChain(xs, j, k);
  }

  /** When end_op's commit has returned, all log_write calls so far are durable and installed. */
  lemma CommitInstallsAll(run: seq<State>, k: nat)
    requires IsRun(run) && k < |run|
    requires run[k].c.phase.EndCommit? || (run[k].c.phase.Normal? && run[k].c.blocks == [])
    ensures var c := run[k].c;
            && Shape(c) && c.commits == |c.events|
            && forall b: nat :: c.l.Home(b) ==> c.disk[b] == Last(c.image, c.events, b)
  {
    RunInv(run, k);
    var c := run[k].c;
    assert Pending(c) == [];
    forall b: nat | c.l.Home(b)
      ensures c.disk[b] == Last(c.image, c.events, b)
    {
      assert CleanAt(c, b);
    }
  }

  /** Nothing is left in the log when no operation and no commit is running. */
  ghost predicate Quiet(c: Core) {
    c.phase.Normal? && c.active == map[] ==> c.blocks == []
  }

  lemma QuietNext(s: State, s': State, step: Step)
    requires Quiet(s.c) && Protocol(s.c) && Next(s, s', step)
    ensures Quiet(s'.c)
  {
    if step.SEndOp? {
      MapSizes(s.c.active, step.t, 0);
    }
  }

  lemma {:induction false} RunQuiet(run: seq<State>, k: nat)
    requires IsRun(run) && k < |run|
    ensures Quiet(run[k].c)
    decreases k
  {
    if k > 0 {
      RunQuiet(run, k - 1);
      RunInv(run, k - 1);
      assert FollowsAt(run, k);
      FollowsQuiet(run[k - 1], run[k]);
    }
  }

  lemma FollowsQuiet(s: State, s': State)
    requires Quiet(s.c) && Protocol(s.c) && Follows(s, s')
    ensures Quiet(s'.c)
  {
    var step :| Next(s, s', step);
    QuietNext(s, s', step);
  }

  /** The last end_op leaves nothing behind: while no operation is running, every log_write call is durable at home. */
  lemma IdleInstalled(run: seq<State>, k: nat)
    requires IsRun(run) && k < |run|
    requires run[k].c.phase.Normal? && run[k].c.active == map[]
    ensures var c := run[k].c;
            && Shape(c) && c.blocks == [] && c.commits == |c.events|
            && forall b: nat :: c.l.Home(b) ==> c.disk[b] == Last(c.image, c.events, b)
  {
    RunQuiet(run, k);
    CommitInstallsAll(run, k);
  }

  // ---------- Buffer cache coherence ----------

  /** Outside recovery, a locked buffer that its holder has not changed shows the last contents given to its block. */
  lemma CacheCoherence(run: seq<State>, k: nat, t: Tid, i: nat)
    requires IsRun(run) && k < |run|
    requires Index(run[k], i) && Holds(run[k], t, i, run[k].slots[i].blockno) && !run[k].slots[i].dirty
    requires !Recovering(run[k].c) && run[k].c.l.Home(run[k].slots[i].blockno)
    ensures Shape(run[k].c)
    ensures run[k].slots[i].data == Last(run[k].c.image, run[k].c.events, run[k].slots[i].blockno)
  {
    RunInv(run, k);
    assert SlotCoherent(run[k].c, run[k].slots[i]);
  }

  /** No block is cached twice, and a buffer newer than its home block is pinned. */
  lemma CachedOnceAndPinned(run: seq<State>, k: nat, i: nat, j: nat)
    requires IsRun(run) && k < |run| && i < |run[k].slots| && j < |run[k].slots|
    requires run[k].slots[i].dev == ROOTDEV && run[k].slots[j].dev == ROOTDEV
    ensures i != j ==> run[k].slots[i].blockno != run[k].slots[j].blockno
    ensures run[k].slots[i].blockno < |run[k].c.disk|
    ensures var sl := run[k].slots[i];
            !Recovering(run[k].c) && sl.valid && sl.data != run[k].c.disk[sl.blockno] ==> sl.refcnt > 0
  {
    RunInv(run, k);
    var sl := run[k].slots[i];
    assert SlotCoherent(run[k].c, sl) && SlotRefs(run[k].c, sl);
    if !Recovering(run[k].c) && sl.valid && sl.data != run[k].c.disk[sl.blockno] && !sl.dirty {
      assert CleanAt(run[k].c, sl.blockno);
    }
  }

  // ---------- Group commit ----------

  /** The log never holds more than it has room for, with what running operations may still add. */
  lemma GroupCommit(run: seq<State>, k: nat)
    requires IsRun(run) && k < |run|
    ensures var c := run[k].c;
            && |c.blocks| + Unspent(c.active) <= LOGSIZE
            && Distinct(c.blocks)
            && c.outstanding == |c.active|
            && (!c.phase.Normal? ==> c.active == map[])
  {
    RunInv(run, k);
  }

  // ---------- When the log is big enough ----------

  ghost predicate Reachable(s: State) {
    exists run :: IsRun(run) && run[|run| - 1] == s
  }

  /** Operation t, within its budget, calls log_write on slot i and hits "too big a transaction". */
  ghost predicate Overflows(s: State, t: Tid, i: nat) {
    && Index(s, i) && Holds(s, t, i, s.slots[i].blockno) && s.c.l.Home(s.slots[i].blockno)
    && t in s.c.active && s.c.active[t] < MAXOPBLOCKS
    && LogFull(s.c)
  }

  ghost predicate NeverOverflows(l: Layout) {
    forall s, t, i: nat :: Reachable(s) && s.c.l == l ==> !Overflows(s, t, i)
  }

  lemma BigLogNeverOverflows(s: State, t: Tid, i: nat)
    requires Reachable(s) && s.c.l.size > LOGSIZE
    ensures !Overflows(s, t, i)
  {
    ReachProtocol(s);
    if t in s.c.active {
      UnspentRemove(s.c.active, t);
      UnspentBound(s.c.active - {t});
    }
  }

  lemma ReachProtocol(s: State)
    requires Reachable(s)
    ensures Protocol(s.c)
  {
    var run :| IsRun(run) && run[|run| - 1] == s;
    RunInv(run, |run| - 1);
  }

  lemma ReachNext(s: State, s': State, step: Step)
    requires Reachable(s) && Next(s, s', step)
    ensures Reachable(s')
  {
    var run :| IsRun(run) && run[|run| - 1] == s;
    var run' := run + [s'];
    assert Follows(s, s');
    forall k | 0 < k < |run'|
      ensures FollowsAt(run', k)
    {
      assert k < |run| ==> FollowsAt(run, k);
    }
    assert run'[|run'| - 1] == s';
  }

  /** Slot i is free to be recycled. */
  ghost predicate Idle(s: State, i: nat) {
    && Index(s, i)
    && s.slots[i].refcnt == 0 && s.slots[i].holder == None && s.slots[i].refs == {} && !s.slots[i].dirty
  }

  /** bread of a block that is not cached. */
  lemma Load(s: State, t: Tid, i: nat, b: nat) returns (s': State)
    requires Reachable(s) && Shape(s.c) && Idle(s, i) && b < s.c.l.nblocks && !Cached(s, b)
    ensures Reachable(s') && s'.c == s.c && Holds(s', t, i, b)
    ensures |s'.slots| == |s.slots| && s'.slots[i].refcnt == 1 && s'.slots[i].refs == {t} && !s'.slots[i].dirty
    ensures s'.slots[i].data == s.c.disk[b]
    ensures forall j :: 0 <= j < |s.slots| && j != i ==> s'.slots[j] == s.slots[j]
  {
    var sl := s.slots[i].(dev := ROOTDEV, blockno := b, valid := false, refcnt := 1, refs := {t});
    var s1 := State(s.c, s.slots[i := sl]);
    assert s.slots[i].refs + {t} == {t};
    ReachNext(s, s1, SGetMiss(t, i, b));
    var s2 := State(s.c, s1.slots[i := s1.slots[i].(holder := Some(t))]);
    ReachNext(s1, s2, SAcquire(t, i));
    s' := State(s.c, s2.slots[i := s2.slots[i].(data := s.c.disk[b], valid := true)]);
    ReachNext(s2, s', SReadIn(t, i));
  }

  lemma BootStart(l: Layout) returns (s: State)
    requires l.Valid()
    ensures Reachable(s) && Shape(s.c) && |s.slots| == NBUF && HeadOk(s.c.disk[s.c.l.start]) && Header(s.c) == []
    ensures s.c.l == l && s.c.phase == Boot && s.c.outstanding == 0 && s.c.active == map[] && s.c.started == {}
    ensures forall i :: 0 <= i < NBUF ==> Idle(s, i) && s.slots[i].dev == 0
  {
    var image := seq(l.nblocks, _ => ZeroBlock());
    s := State(Core(l, image, image, [], 0, Boot, 0, map[], {}, [], 0), FreshSlots());
    ZeroWord(0);
    assert Header(s.c) == [];
    assert IsRun([s]) && [s][|[s]| - 1] == s;
  }

  /** The first boot of an all-zero disk: the header has been read and the log is empty. */
  lemma BootReadHead(l: Layout) returns (s: State)
    requires l.Valid()
    ensures Reachable(s) && Shape(s.c) && s.c.l == l && |s.slots| == NBUF
    ensures s.c.phase == RecInstall(0) && s.c.blocks == [] && s.c.outstanding == 0 && s.c.committer == 0
    ensures s.c.active == map[] && s.c.started == {}
    ensures Holds(s, 0, 0, l.start) && s.slots[0].refs == {0} && s.slots[0].refcnt == 1 && !s.slots[0].dirty
    ensures forall i :: 1 <= i < NBUF ==> Idle(s, i) && s.slots[i].dev == 0
  {
    var s0 := BootStart(l);
    var s1 := Load(s0, 0, 0, l.start);
    s := State(s1.c.(blocks := [], phase := RecInstall(0), committer := 0), s1.slots);
    ReachNext(s1, s, SReadHead(0, 0));
  }

  /** ... up to the end of recovery. */
  lemma BootZeroDisk(l: Layout) returns (s: State)
    requires l.Valid()
    ensures Reachable(s) && Shape(s.c) && s.c.l == l && |s.slots| == NBUF
    ensures s.c.phase == Normal && s.c.blocks == [] && s.c.outstanding == 0 && s.c.active == map[] && s.c.started == {}
    ensures forall i :: 0 <= i < NBUF ==> Idle(s, i) && (s.slots[i].dev == ROOTDEV ==> s.slots[i].blockno == l.start)
  {
    var s2 := BootReadHead(l);
    var s3 := s2.(c := s2.c.(phase := RecClear, blocks := []));
    ReachNext(s2, s3, SRecInstalled);
    var head := EncodeHead(s3.slots[0].data, []);
    var s4 := State(s3.c.(disk := s3.c.disk[l.start := head], phase := Normal),
        s3.slots[0 := s3.slots[0].(data := head)]);
    ReachNext(s3, s4, SEraseHead(0));
    var s5 := State(s4.c, s4.slots[0 := s4.slots[0].(holder := None)]);
    ReachNext(s4, s5, SRelease(0, 0));
    s := State(s5.c, s5.slots[0 := s5.slots[0].(refcnt := 0, refs := s5.slots[0].refs - {0})]);
    ReachNext(s5, s, SUnref(0, 0));
  }

  function Calls(t: Tid, k: nat): nat {
    if k < MAXOPBLOCKS * (t - 1) then 0
    else if k >= MAXOPBLOCKS * t then MAXOPBLOCKS
    else k - MAXOPBLOCKS * (t - 1)
  }

  /** Operations 1, 2 and 3 are running and have together logged the first k blocks of hs. */
  ghost predicate Filled(s: State, l: Layout, hs: seq<nat>, k: nat)
    requires k <= |hs|
  {
    Reachable(s) && FillState(s, l, hs, k)
  }

  ghost predicate FillState(s: State, l: Layout, hs: seq<nat>, k: nat)
    requires k <= |hs|
  {
    && Shape(s.c) && s.c.l == l && |s.slots| == NBUF
    && s.c.phase == Normal && s.c.blocks == hs[..k] && s.c.active.Keys == {1, 2, 3} && s.c.outstanding == 3
    && (forall t :: t in {1, 2, 3} ==> s.c.active[t] == Calls(t, k))
    && (forall i :: 0 <= i < k && i < NBUF ==> Pins(s, i, hs[i]))
    && (forall i :: k <= i < NBUF ==> Idle(s, i) && (s.slots[i].dev == ROOTDEV ==> s.slots[i].blockno == l.start))
  }

  /** Slot i caches block b, pinned by the log and used by nobody. */
  ghost predicate Pins(s: State, i: nat, b: nat) {
    && Index(s, i) && s.slots[i].dev == ROOTDEV && s.slots[i].blockno == b
    && s.slots[i].refcnt == 1 && s.slots[i].holder == None && s.slots[i].refs == {} && !s.slots[i].dirty
  }

  lemma FillStart(l: Layout, hs: seq<nat>) returns (s: State)
    requires l.Valid()
    ensures Filled(s, l, hs, 0)
  {
    s := BootZeroDisk(l);
    var t := 0;
    while t < 3
      invariant 0 <= t <= 3
      invariant Reachable(s) && Shape(s.c) && s.c.l == l && |s.slots| == NBUF
      invariant s.c.phase == Normal && s.c.blocks == [] && s.c.outstanding == t
      invariant forall u :: u in s.c.started ==> u <= t
      invariant forall u: nat :: u in s.c.active <==> 1 <= u <= t
      invariant forall u :: 1 <= u <= t ==> s.c.active[u] == 0
      invariant forall i :: 0 <= i < NBUF ==>
                Idle(s, i) && (s.slots[i].dev == ROOTDEV ==> s.slots[i].blockno == l.start)
    {
      t := t + 1;
      var s' := s.(c := s.c.(outstanding := s.c.outstanding + 1, active := s.c.active[t := 0],
          started := s.c.started + {t}));
      ReachNext(s, s', SBeginOp(t));
      s := s';
    }
  }

  lemma FillNext(s: State, l: Layout, hs: seq<nat>, k: nat) returns (s1: State, t: Tid)
    requires k < |hs| <= NBUF && Filled(s, l, hs, k) && Distinct(hs)
    requires forall j :: 0 <= j < |hs| ==> l.Home(hs[j])
    ensures Reachable(s1) && s1.c == s.c && t == 1 + k / MAXOPBLOCKS && t in s1.c.active && s1.c.active[t] < MAXOPBLOCKS
    ensures Holds(s1, t, k, hs[k]) && |s1.slots| == NBUF && s1.slots[k].refs == {t} && s1.slots[k].refcnt == 1
    ensures forall j :: 0 <= j < NBUF && j != k ==> s1.slots[j] == s.slots[j]
  {
    t := 1 + k / MAXOPBLOCKS;
    assert t in {1, 2, 3};
    forall i | 0 <= i < NBUF && s.slots[i].dev == ROOTDEV
      ensures s.slots[i].blockno != hs[k]
    {
      assert if i < k then Pins(s, i, hs[i]) else Idle(s, i);
    }
    s1 := Load(s, t, k, hs[k]);
  }

  /** log_write and brelse of a block that is not in the log yet. */
  lemma LogOne(s: State, t: Tid, i: nat) returns (s': State)
    requires Reachable(s) && Shape(s.c) && Index(s, i) && Holds(s, t, i, s.slots[i].blockno)
    requires s.slots[i].refs == {t} && s.slots[i].refcnt == 1
    requires s.c.l.Home(s.slots[i].blockno) && s.slots[i].blockno !in s.c.blocks
    requires t in s.c.active && s.c.active[t] < MAXOPBLOCKS && !LogFull(s.c)
    ensures Reachable(s') && Shape(s'.c) && s'.c.l == s.c.l && s'.c.phase == s.c.phase
    ensures s'.c.blocks == s.c.blocks + [s.slots[i].blockno] && s'.c.outstanding == s.c.outstanding
    ensures s'.c.active == s.c.active[t := s.c.active[t] + 1]
    ensures |s'.slots| == |s.slots| && Pins(s', i, s.slots[i].blockno)
    ensures forall j :: 0 <= j < |s.slots| && j != i ==> s'.slots[j] == s.slots[j]
  {
    var sl := s.slots[i];
    var s1 := State(
      s.c.(blocks := s.c.blocks + [sl.blockno], active := s.c.active[t := s.c.active[t] + 1],
           events := s.c.events + [Event(t, sl.blockno, sl.data)]),
      s.slots[i := sl.(refcnt := 2, dirty := false)]);
    ReachNext(s, s1, SLogWrite(t, i));
    s' := Brelse(s1, t, i);
  }

  lemma Brelse(s: State, t: Tid, i: nat) returns (s': State)
    requires Reachable(s) && Index(s, i) && s.slots[i].holder == Some(t) && s.slots[i].refs == {t}
    requires !s.slots[i].dirty && s.slots[i].refcnt == 2
    ensures Reachable(s') && s'.c == s.c
    ensures s'.slots == s.slots[i := s.slots[i].(holder := None, refcnt := 1, refs := {})]
  {
    var s1 := State(s.c, s.slots[i := s.slots[i].(holder := None)]);
    ReachNext(s, s1, SRelease(t, i));
    s' := State(s.c, s1.slots[i := s1.slots[i].(refcnt := 1, refs := {})]);
    assert s1.slots[i].refs - {t} == {};
    ReachNext(s1, s', SUnref(t, i));
  }

  lemma CallsNext(k: nat, t: Tid, u: Tid)
    requires k < LOGSIZE && t == 1 + k / MAXOPBLOCKS && u in {1, 2, 3}
    ensures Calls(u, k + 1) == Calls(u, k) + if t == u then 1 else 0
  {
  }

  lemma FillOneState(s0: State, s: State, l: Layout, hs: seq<nat>, k: nat, t: Tid)
    requires k < |hs| <= NBUF && FillState(s0, l, hs, k) && t == 1 + k / MAXOPBLOCKS && t in s0.c.active
    requires Shape(s.c) && s.c.l == l && s.c.phase == s0.c.phase && s.c.blocks == s0.c.blocks + [hs[k]]
    requires s.c.active == s0.c.active[t := s0.c.active[t] + 1] && s.c.outstanding == s0.c.outstanding
    requires |s.slots| == NBUF && Pins(s, k, hs[k])
    requires forall j :: 0 <= j < NBUF && j != k ==> s.slots[j] == s0.slots[j]
    ensures FillState(s, l, hs, k + 1)
  {
    assert hs[..k + 1] == hs[..k] + [hs[k]];
    forall u | u in {1, 2, 3}
      ensures s.c.active[u] == Calls(u, k + 1)
    {
      CallsNext(k, t, u);
    }
    assert forall i :: k + 1 <= i < NBUF ==> s.slots[i] == s0.slots[i];
    assert forall i :: 0 <= i < k ==> Pins(s0, i, hs[i]);
  }

  lemma FillOne(s0: State, l: Layout, hs: seq<nat>, k: nat) returns (s: State)
    requires l.Valid() && k < |hs| <= NBUF && k + 1 < l.size && Filled(s0, l, hs, k) && Distinct(hs)
    requires forall j :: 0 <= j < |hs| ==> l.Home(hs[j])
    ensures Filled(s, l, hs, k + 1)
  {
    var s1, t := FillNext(s0, l, hs, k);
    assert hs[k] !in hs[..k];
    s := LogOne(s1, t, k);
    FillOneState(s0, s, l, hs, k, t);
  }

  lemma {:induction false} Fill(l: Layout, hs: seq<nat>, k: nat) returns (s: State)
    requires l.Valid() && k <= |hs| <= NBUF && k < l.size && Distinct(hs)
    requires forall j :: 0 <= j < |hs| ==> l.Home(hs[j])
    ensures Filled(s, l, hs, k)
  {
    if k == 0 {
      s := FillStart(l, hs);
    } else {
      var s0 := Fill(l, hs, k - 1);
      s := FillOne(s0, l, hs, k - 1);
    }
  }

  lemma SmallLogOverflows(l: Layout, hs: seq<nat>) returns (s: State, t: Tid, i: nat)
    requires l.Valid() && l.size <= LOGSIZE
    requires |hs| == LOGSIZE && Distinct(hs) && forall j :: 0 <= j < |hs| ==> l.Home(hs[j])
    ensures Reachable(s) && s.c.l == l && Overflows(s, t, i)
  {
    var s0 := Fill(l, hs, l.size - 1);
    i := l.size - 1;
    s, t := FillNext(s0, l, hs, i);
  }

  /**
   begin_op's reservation keeps log_write from panicking exactly when the log
   area is larger than LOGSIZE blocks.  The image built by Build/Fs.zig has
   nlog == LOGSIZE, one block too few.
   */
  lemma LogCapacity(l: Layout, hs: seq<nat>)
    requires l.Valid()
    requires |hs| == LOGSIZE && Distinct(hs) && forall j :: 0 <= j < |hs| ==> l.Home(hs[j])
    ensures NeverOverflows(l) <==> l.size > LOGSIZE
  {
    if l.size > LOGSIZE {
      forall s, t, i: nat | Reachable(s) && s.c.l == l
        ensures !Overflows(s, t, i)
      {
        BigLogNeverOverflows(s, t, i);
      }
    } else {
      var s, t, i := SmallLogOverflows(l, hs);
    }
  }
}

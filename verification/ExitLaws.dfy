/**
 What exit, wait, fork, wakeup and kill do to processes, over every run of ExitWait: who
 may change a process's state and parent and when, that no process has a dead parent, and
 when wait sleeps, gives up and returns.
 */
module ExitLaws {
  import opened Common
  import opened ProcStates
  import opened ExitWait

  // ---------- What threads know about children ----------

  /** Past reparent, dead or not yet born: such a process has no children. */
  predicate Childless(a: Proc) {
    || a.pc.ExitLock? || a.pc.ExitLocked? || a.pc.ExitDone? || Wakes(a.pc, BecomeZombie)
    || a.state == Zombie || a.state == Unused || a.state == Used
  }

  /** The children that reparent has come to are given away. */
  predicate GivenAway(a: Proc, p: nat, e: Proc, q: nat) {
    && (a.pc.Exiting? && q < a.pc.k ==> e.parent != Some(p))
    && ((a.pc.Waking? || a.pc.WakeLocked?) && a.pc.after.Reparent? && q < a.pc.after.j ==> e.parent != Some(p))
    && (Childless(a) ==> e.parent != Some(p))
  }

  /** Without kids the scan of wait has found no child so far. */
  predicate Scanned(a: Proc, p: nat, e: Proc, q: nat) {
    (a.pc.WaitScan? || a.pc.WaitLocked?) && !a.pc.kids && q < a.pc.k ==> e.parent != Some(p)
  }

  /** The slot that fork is making into a child has no parent until it gets p. */
  predicate Adopted(a: Proc, p: nat, e: Proc, q: nat) {
    Child(a.pc) == Some(q) ==> e.parent == if ForkedParent(a.pc, q) then Some(p) else None
  }

  predicate KidsOk(a: Proc, p: nat, e: Proc, q: nat) {
    GivenAway(a, p, e, q) && Scanned(a, p, e, q) && Adopted(a, p, e, q)
  }

  /** An unused slot has no parent, and who sleeps on its own slot sleeps in wait. */
  predicate OwnOk(a: Proc, p: nat) {
    && (a.state == Unused ==> a.parent == None)
    && (a.state == Sleeping && a.chan == Some(p) ==> (a.pc.Off? || a.pc.Leave?) && a.pc.next == ToWait)
    && ((a.pc.Off? || a.pc.Leave?) && a.pc.next == ToUser ==> a.state != Sleeping)
  }

  // ---------- One thread's own steps ----------

  lemma SoloOwn(step: Step, n: nat, init: nat, p: nat, a: Proc, w: Option<nat>, b: Proc, w': Option<nat>)
    requires Solo(step, n, init, p, a, w, b, w') && p < n && SelfOk(a, p, w, init) && OwnOk(a, p)
    ensures OwnOk(b, p) && b.parent == a.parent
  {
    if Runs(step, n, init, p, a, w, b, w') {
      RunsOwn(step, n, init, p, a, w, b, w');
    } else if Exits(step, n, init, p, a, w, b, w') {
      ExitsOwn(step, n, init, p, a, w, b, w');
    } else {
      WaitsOwn(step, n, init, p, a, w, b, w');
    }
  }

  lemma RunsOwn(step: Step, n: nat, init: nat, p: nat, a: Proc, w: Option<nat>, b: Proc, w': Option<nat>)
    requires Runs(step, n, init, p, a, w, b, w') && p < n && SelfOk(a, p, w, init) && OwnOk(a, p)
    ensures OwnOk(b, p) && b.parent == a.parent
  {
  }

  lemma ExitsOwn(step: Step, n: nat, init: nat, p: nat, a: Proc, w: Option<nat>, b: Proc, w': Option<nat>)
    requires Exits(step, n, init, p, a, w, b, w') && p < n && SelfOk(a, p, w, init) && OwnOk(a, p)
    ensures OwnOk(b, p) && b.parent == a.parent
  {
  }

  lemma WaitsOwn(step: Step, n: nat, init: nat, p: nat, a: Proc, w: Option<nat>, b: Proc, w': Option<nat>)
    requires Waits(step, n, init, p, a, w, b, w') && p < n && SelfOk(a, p, w, init) && OwnOk(a, p)
    ensures OwnOk(b, p) && b.parent == a.parent
  {
  }

  lemma RunsKids(step: Step, n: nat, init: nat, p: nat, a: Proc, w: Option<nat>, b: Proc, w': Option<nat>, q: nat,
                 e: Proc)
    requires Runs(step, n, init, p, a, w, b, w') && p != q && q < n && SelfOk(a, p, w, init) && KidsOk(a, p, e, q)
    ensures KidsOk(b, p, e, q)
  {
    RunsGiven(step, n, init, p, a, w, b, w', q, e);
  }

  lemma RunsGiven(step: Step, n: nat, init: nat, p: nat, a: Proc, w: Option<nat>, b: Proc, w': Option<nat>, q: nat,
                  e: Proc)
    requires Runs(step, n, init, p, a, w, b, w') && p != q && q < n && SelfOk(a, p, w, init) && KidsOk(a, p, e, q)
    ensures GivenAway(b, p, e, q)
  {
  }

  lemma ExitsKids(step: Step, n: nat, init: nat, p: nat, a: Proc, w: Option<nat>, b: Proc, w': Option<nat>, q: nat,
                  e: Proc)
    requires Exits(step, n, init, p, a, w, b, w') && p != q && q < n && SelfOk(a, p, w, init) && KidsOk(a, p, e, q)
    ensures KidsOk(b, p, e, q)
  {
    ExitsGiven(step, n, init, p, a, w, b, w', q, e);
  }

  lemma ExitsGiven(step: Step, n: nat, init: nat, p: nat, a: Proc, w: Option<nat>, b: Proc, w': Option<nat>, q: nat,
                   e: Proc)
    requires Exits(step, n, init, p, a, w, b, w') && p != q && q < n && SelfOk(a, p, w, init) && KidsOk(a, p, e, q)
    ensures GivenAway(b, p, e, q)
  {
  }

  lemma WaitsKids(step: Step, n: nat, init: nat, p: nat, a: Proc, w: Option<nat>, b: Proc, w': Option<nat>, q: nat,
                  e: Proc)
    requires Waits(step, n, init, p, a, w, b, w') && p != q && q < n && SelfOk(a, p, w, init) && KidsOk(a, p, e, q)
    ensures KidsOk(b, p, e, q)
  {
    WaitsGiven(step, n, init, p, a, w, b, w', q, e);
  }

  lemma WaitsGiven(step: Step, n: nat, init: nat, p: nat, a: Proc, w: Option<nat>, b: Proc, w': Option<nat>, q: nat,
                   e: Proc)
    requires Waits(step, n, init, p, a, w, b, w') && p != q && q < n && SelfOk(a, p, w, init) && KidsOk(a, p, e, q)
    ensures GivenAway(b, p, e, q)
  {
  }

  lemma SoloKids(step: Step, n: nat, init: nat, p: nat, a: Proc, w: Option<nat>, b: Proc, w': Option<nat>, q: nat,
                 e: Proc)
    requires Solo(step, n, init, p, a, w, b, w') && p != q && p < n && q < n && SelfOk(a, p, w, init)
    requires OwnOk(a, p) && KidsOk(a, p, e, q) && KidsOk(e, q, a, p)
    ensures KidsOk(b, p, e, q) && KidsOk(e, q, b, p)
  {
    SoloOwn(step, n, init, p, a, w, b, w');
    if Runs(step, n, init, p, a, w, b, w') {
      RunsKids(step, n, init, p, a, w, b, w', q, e);
    } else if Exits(step, n, init, p, a, w, b, w') {
      ExitsKids(step, n, init, p, a, w, b, w', q, e);
    } else {
      WaitsKids(step, n, init, p, a, w, b, w', q, e);
    }
  }

  // ---------- Steps with a second process ----------

  lemma DuoOwn(step: Step, init: nat, p: nat, a: Proc, q: nat, e: Proc, b: Proc, f: Proc)
    requires Duo(step, init, p, a, q, e, b, f) && p != q && OwnOk(a, p) && OwnOk(e, q)
    requires Knows(a, p, e, q) && KidsOk(a, p, e, q)
    ensures OwnOk(b, p) && OwnOk(f, q) && b.parent == a.parent
  {
  }

  lemma DuoKids(step: Step, init: nat, p: nat, a: Proc, q: nat, e: Proc, b: Proc, f: Proc, w: Option<nat>)
    requires Duo(step, init, p, a, q, e, b, f) && p != q && OwnOk(e, q)
    requires SelfOk(a, p, w, init) && SelfOk(e, q, w, init) && Knows(a, p, e, q) && KidsOk(a, p, e, q)
    ensures KidsOk(b, p, f, q)
  {
    DuoGivenAway(step, init, p, a, q, e, b, f, w);
    DuoScanned(step, init, p, a, q, e, b, f, w);
  }

  lemma DuoGivenAway(step: Step, init: nat, p: nat, a: Proc, q: nat, e: Proc, b: Proc, f: Proc, w: Option<nat>)
    requires Duo(step, init, p, a, q, e, b, f) && p != q && OwnOk(e, q)
    requires SelfOk(a, p, w, init) && SelfOk(e, q, w, init) && Knows(a, p, e, q) && KidsOk(a, p, e, q)
    ensures GivenAway(b, p, f, q)
  {
  }

  lemma DuoScanned(step: Step, init: nat, p: nat, a: Proc, q: nat, e: Proc, b: Proc, f: Proc, w: Option<nat>)
    requires Duo(step, init, p, a, q, e, b, f) && p != q && OwnOk(e, q)
    requires SelfOk(a, p, w, init) && SelfOk(e, q, w, init) && Knows(a, p, e, q) && KidsOk(a, p, e, q)
    ensures Scanned(b, p, f, q) && Adopted(b, p, f, q)
  {
  }

  lemma DuoKidsBack(step: Step, init: nat, p: nat, a: Proc, q: nat, e: Proc, b: Proc, f: Proc, w: Option<nat>)
    requires Duo(step, init, p, a, q, e, b, f) && p != q
    requires SelfOk(a, p, w, init) && SelfOk(e, q, w, init) && Knows(a, p, e, q) && KidsOk(e, q, a, p)
    ensures KidsOk(f, q, b, p)
  {
  }

  lemma DuoKidsActor(step: Step, init: nat, p: nat, a: Proc, q: nat, e: Proc, b: Proc, f: Proc, w: Option<nat>,
                     r: nat, t: Proc)
    requires Duo(step, init, p, a, q, e, b, f) && p != q && r != p && r != q && SelfOk(a, p, w, init)
    requires KidsOk(a, p, t, r) && KidsOk(t, r, a, p)
    ensures KidsOk(b, p, t, r) && KidsOk(t, r, b, p)
  {
    DuoActorGiven(step, init, p, a, q, e, b, f, w, r, t);
  }

  lemma DuoActorGiven(step: Step, init: nat, p: nat, a: Proc, q: nat, e: Proc, b: Proc, f: Proc, w: Option<nat>,
                      r: nat, t: Proc)
    requires Duo(step, init, p, a, q, e, b, f) && p != q && r != p && r != q && SelfOk(a, p, w, init)
    requires KidsOk(a, p, t, r) && KidsOk(t, r, a, p)
    ensures GivenAway(b, p, t, r)
  {
  }

  lemma DuoKidsTarget(step: Step, init: nat, p: nat, a: Proc, q: nat, e: Proc, b: Proc, f: Proc, w: Option<nat>,
                      r: nat, t: Proc)
    requires Duo(step, init, p, a, q, e, b, f) && p != q && r != p && r != q
    requires SelfOk(e, q, w, init) && Knows(a, p, e, q) && KidsOk(e, q, t, r)
    ensures KidsOk(f, q, t, r)
  {
  }

  lemma DuoKidsThird(step: Step, init: nat, p: nat, a: Proc, q: nat, e: Proc, b: Proc, f: Proc, w: Option<nat>,
                     r: nat, t: Proc)
    requires Duo(step, init, p, a, q, e, b, f) && p != q && r != p && r != q
    requires SelfOk(a, p, w, init) && SelfOk(t, r, w, init) && Knows(a, p, e, q) && KidsOk(a, p, e, q)
    requires KidsOk(t, r, e, q) && ForkApart(a, t)
    ensures KidsOk(t, r, f, q)
  {
  }

  // ---------- Every step keeps it ----------

  ghost predicate KidsInv(s: State) {
    && (forall p :: 0 <= p < |s.procs| ==> OwnOk(s.procs[p], p))
    && (forall p, q :: 0 <= p < |s.procs| && 0 <= q < |s.procs| && p != q ==> KidsOk(s.procs[p], p, s.procs[q], q))
  }

  lemma AloneKids(s: State, s': State, step: Step, init: nat, p: nat)
    requires Inv(s, init) && KidsInv(s) && Alone(s, s', step, init, p)
    ensures KidsInv(s')
  {
    var n, w, w' := |s.procs|, s.waitLock, s'.waitLock;
    var a, b := s.procs[p], s'.procs[p];
    assert SelfOk(a, p, w, init) && OwnOk(a, p);
    SoloOwn(step, n, init, p, a, w, b, w');
    forall q | 0 <= q < n && q != p
      ensures KidsOk(b, p, s.procs[q], q) && KidsOk(s.procs[q], q, b, p)
    {
      SoloKids(step, n, init, p, a, w, b, w', q, s.procs[q]);
    }
    KidsOne(s, s', p);
  }

  lemma KidsOne(s: State, s': State, p: nat)
    requires KidsInv(s) && p < |s.procs| == |s'.procs| && s'.procs == s.procs[p := s'.procs[p]]
    requires OwnOk(s'.procs[p], p)
    requires forall q :: 0 <= q < |s.procs| && q != p ==>
               KidsOk(s'.procs[p], p, s.procs[q], q) && KidsOk(s.procs[q], q, s'.procs[p], p)
    ensures KidsInv(s')
  {
    forall r, t | 0 <= r < |s.procs| && 0 <= t < |s.procs| && r != t
      ensures KidsOk(s'.procs[r], r, s'.procs[t], t)
    {
      assert r != p && t != p ==> KidsOk(s.procs[r], r, s.procs[t], t);
    }
  }

  /** What a step with a second process needs to know about the pair */
  lemma BothKnow(s: State, s': State, step: Step, init: nat, p: nat, q: nat)
    requires Inv(s, init) && KidsInv(s) && Both(s, s', step, init, p, q)
    ensures var a, e := s.procs[p], s.procs[q];
            && SelfOk(a, p, s.waitLock, init) && SelfOk(e, q, s.waitLock, init) && Knows(a, p, e, q)
            && OwnOk(a, p) && OwnOk(e, q) && KidsOk(a, p, e, q) && KidsOk(e, q, a, p)
  {
    assert PairOk(s.procs[p], p, s.procs[q], q, init, PendingNow(s, init));
  }

  lemma BothKidsPair(s: State, s': State, step: Step, init: nat, p: nat, q: nat)
    requires Inv(s, init) && KidsInv(s) && Both(s, s', step, init, p, q)
    ensures OwnOk(s'.procs[p], p) && OwnOk(s'.procs[q], q)
    ensures KidsOk(s'.procs[p], p, s'.procs[q], q) && KidsOk(s'.procs[q], q, s'.procs[p], p)
  {
    BothKnow(s, s', step, init, p, q);
    DuoOwn(step, init, p, s.procs[p], q, s.procs[q], s'.procs[p], s'.procs[q]);
    DuoKids(step, init, p, s.procs[p], q, s.procs[q], s'.procs[p], s'.procs[q], s.waitLock);
    DuoKidsBack(step, init, p, s.procs[p], q, s.procs[q], s'.procs[p], s'.procs[q], s.waitLock);
  }

  lemma BothKidsThird(s: State, s': State, step: Step, init: nat, p: nat, q: nat, r: nat)
    requires Inv(s, init) && KidsInv(s) && Both(s, s', step, init, p, q) && r < |s.procs| && r != p && r != q
    ensures KidsOk(s'.procs[p], p, s.procs[r], r) && KidsOk(s.procs[r], r, s'.procs[p], p)
    ensures KidsOk(s'.procs[q], q, s.procs[r], r) && KidsOk(s.procs[r], r, s'.procs[q], q)
  {
    var w := s.waitLock;
    var a, b, e, f, t := s.procs[p], s'.procs[p], s.procs[q], s'.procs[q], s.procs[r];
    BothKnow(s, s', step, init, p, q);
    assert SelfOk(t, r, w, init) && PairOk(a, p, t, r, init, PendingNow(s, init));
    assert KidsOk(a, p, t, r) && KidsOk(t, r, a, p) && KidsOk(e, q, t, r) && KidsOk(t, r, e, q);
    DuoKidsActor(step, init, p, a, q, e, b, f, w, r, t);
    DuoKidsTarget(step, init, p, a, q, e, b, f, w, r, t);
    DuoKidsThird(step, init, p, a, q, e, b, f, w, r, t);
  }

  lemma BothKids(s: State, s': State, step: Step, init: nat, p: nat, q: nat)
    requires Inv(s, init) && KidsInv(s) && Both(s, s', step, init, p, q)
    ensures KidsInv(s')
  {
    BothKidsPair(s, s', step, init, p, q);
    forall r | 0 <= r < |s.procs| && r != p && r != q
      ensures KidsOk(s'.procs[p], p, s.procs[r], r) && KidsOk(s.procs[r], r, s'.procs[p], p)
      ensures KidsOk(s'.procs[q], q, s.procs[r], r) && KidsOk(s.procs[r], r, s'.procs[q], q)
    {
      BothKidsThird(s, s', step, init, p, q, r);
    }
    forall r, t | 0 <= r < |s.procs| && 0 <= t < |s.procs| && r != t
      ensures KidsOk(s'.procs[r], r, s'.procs[t], t)
    {
      assert r != p && r != q && t != p && t != q ==> KidsOk(s.procs[r], r, s.procs[t], t);
    }
  }

  lemma {:induction false} RunKids(run: seq<State>, init: nat, k: nat)
    requires IsRun(run, init) && k < |run|
    ensures Inv(run[k], init) && KidsInv(run[k])
  {
    RunInv(run, init, k);
    if k == 0 {
      InitKids(run[0], init);
    } else {
      RunKids(run, init, k - 1);
      NextKids(run, init, k);
    }
  }

  lemma NextKids(run: seq<State>, init: nat, k: nat)
    requires IsRun(run, init) && 0 < k < |run| && Inv(run[k - 1], init) && KidsInv(run[k - 1])
    ensures KidsInv(run[k])
  {
    assert FollowsAt(run, init, k);
    KidsStep(run[k - 1], run[k], init);
  }

  lemma InitKids(s: State, init: nat)
    requires Init(s, init)
    ensures KidsInv(s)
  {
    forall p, q | 0 <= p < |s.procs| && 0 <= q < |s.procs| && p != q
      ensures KidsOk(s.procs[p], p, s.procs[q], q)
    {
      assert s.procs[p].pc == Off(ToUser) && s.procs[q].parent == None;
    }
  }

  lemma KidsStep(s: State, s': State, init: nat)
    requires Inv(s, init) && KidsInv(s) && Follows(s, s', init)
    ensures KidsInv(s')
  {
    if step, p :| Alone(s, s', step, init, p) {
      AloneKids(s, s', step, init, p);
    } else {
      var step, p, q :| Both(s, s', step, init, p, q);
      BothKids(s, s', step, init, p, q);
    }
  }

  // ---------- Who changes what ----------

  /** Follows, behind a quantifier to keep the steps folded */
  ghost predicate Steps(s: State, s': State, init: nat) {
    forall x :: x == s' ==> Follows(s, x, init)
  }

  lemma RunSteps(run: seq<State>, init: nat, k: nat)
    requires IsRun(run, init) && 0 < k < |run|
    ensures Steps(run[k - 1], run[k], init)
  {
    assert FollowsAt(run, init, k);
  }

  /** Process q's parent changes only under wait_lock: in fork, in its parent's exit, and when its parent frees it. */
  predicate ParentLaw(s: State, s': State, q: nat, init: nat)
    requires q < |s.procs| == |s'.procs|
  {
    var e, f := s.procs[q], s'.procs[q];
    e.parent != f.parent ==>
      && s.waitLock.Some? && s.waitLock.value < |s.procs|
      && var h := s.waitLock.value;
         || (e.parent == None && f.parent == Some(h) && e.state == Used)
         || (e.parent == Some(h) && f.parent == Some(init) && InExit(s.procs[h].pc))
         || (e.parent == Some(h) && f.parent == None && e.state == Zombie && f.state == Unused
             && s.procs[h].pc.WaitLocked? && s'.procs[h].pc == WaitDone)
  }

  /** Some thread has q's lock to wake those that sleep on q's channel. */
  predicate WakesIt(s: State, q: nat)
    requires q < |s.procs|
  {
    var e := s.procs[q];
    && e.lock.Some? && e.lock.value.Thread? && e.lock.value.p < |s.procs| && e.lock.value.p != q
    && var pc := s.procs[e.lock.value.p].pc; pc.WakeLocked? && pc.k == q && e.chan == Some(pc.chan)
  }

  /** Under which conditions a process goes from one state to another; there is no other way. */
  predicate StateLaw(s: State, s': State, q: nat)
    requires q < |s.procs| == |s'.procs|
  {
    var e, f := s.procs[q], s'.procs[q];
    e.state != f.state ==>
      match e.state
      case Unused => f.state == Used && e.lock.Some? && e.lock != Some(Kernel) && e.lock != Some(Thread(q))
      case Used => f.state == Runnable && e.parent.Some? && e.lock == Some(Thread(e.parent.value))
      case Runnable => f.state == Running && e.lock == Some(Kernel) && f.lock == Some(Thread(q))
      case Running =>
        && e.lock == Some(Thread(q))
        && (|| f.state == Runnable
            || (f.state == Sleeping && f.chan.Some?)
            || (f.state == Zombie && s.waitLock == Some(q)))
      case Sleeping =>
        f.state == Runnable && (WakesIt(s, q) || (f.killed && e.lock.Some? && e.lock.value.Thread?))
      case Zombie =>
        f.state == Unused && e.parent.Some? && s.waitLock == e.parent && e.lock == Some(Thread(e.parent.value))
  }

  /** killed is set by another thread with the lock, which leaves the process awake, and reset when it is freed. */
  predicate KilledLaw(e: Proc, f: Proc, q: nat) {
    && (f.killed && !e.killed ==>
          e.lock.Some? && e.lock.value.Thread? && e.lock.value.p != q && f.lock == None && f.state != Sleeping)
    && (e.killed && !f.killed ==> e.state == Zombie && f.state == Unused)
  }

  predicate Laws(s: State, s': State, q: nat, init: nat)
    requires q < |s.procs| == |s'.procs|
  {
    ParentLaw(s, s', q, init) && StateLaw(s, s', q) && KilledLaw(s.procs[q], s'.procs[q], q)
  }

  lemma SoloLaw(step: Step, n: nat, init: nat, p: nat, a: Proc, w: Option<nat>, b: Proc, w': Option<nat>)
    requires Solo(step, n, init, p, a, w, b, w') && p < n && SelfOk(a, p, w, init)
    ensures b.parent == a.parent && b.killed == a.killed
    ensures a.state != b.state ==>
              || (a.state == Runnable && b.state == Running && a.lock == Some(Kernel) && b.lock == Some(Thread(p)))
              || (a.state == Running && a.lock == Some(Thread(p)) &&
                  (b.state == Runnable || (b.state == Sleeping && b.chan.Some?) || (b.state == Zombie && w == Some(p))))
  {
    if Runs(step, n, init, p, a, w, b, w') {
      RunsLaw(step, n, init, p, a, w, b, w');
    } else if Exits(step, n, init, p, a, w, b, w') {
      ExitsLaw(step, n, init, p, a, w, b, w');
    } else {
      WaitsLaw(step, n, init, p, a, w, b, w');
    }
  }

  lemma RunsLaw(step: Step, n: nat, init: nat, p: nat, a: Proc, w: Option<nat>, b: Proc, w': Option<nat>)
    requires Runs(step, n, init, p, a, w, b, w') && p < n && SelfOk(a, p, w, init)
    ensures b.parent == a.parent && b.killed == a.killed
    ensures a.state != b.state ==>
              || (a.state == Runnable && b.state == Running && a.lock == Some(Kernel) && b.lock == Some(Thread(p)))
              || (a.state == Running && a.lock == Some(Thread(p)) &&
                  (b.state == Runnable || (b.state == Sleeping && b.chan.Some?) || (b.state == Zombie && w == Some(p))))
  {
  }

  lemma ExitsLaw(step: Step, n: nat, init: nat, p: nat, a: Proc, w: Option<nat>, b: Proc, w': Option<nat>)
    requires Exits(step, n, init, p, a, w, b, w') && p < n && SelfOk(a, p, w, init)
    ensures b.parent == a.parent && b.killed == a.killed
    ensures a.state != b.state ==>
              || (a.state == Runnable && b.state == Running && a.lock == Some(Kernel) && b.lock == Some(Thread(p)))
              || (a.state == Running && a.lock == Some(Thread(p)) &&
                  (b.state == Runnable || (b.state == Sleeping && b.chan.Some?) || (b.state == Zombie && w == Some(p))))
  {
  }

  lemma WaitsLaw(step: Step, n: nat, init: nat, p: nat, a: Proc, w: Option<nat>, b: Proc, w': Option<nat>)
    requires Waits(step, n, init, p, a, w, b, w') && p < n && SelfOk(a, p, w, init)
    ensures b.parent == a.parent && b.killed == a.killed
    ensures a.state != b.state ==>
              || (a.state == Runnable && b.state == Running && a.lock == Some(Kernel) && b.lock == Some(Thread(p)))
              || (a.state == Running && a.lock == Some(Thread(p)) &&
                  (b.state == Runnable || (b.state == Sleeping && b.chan.Some?) || (b.state == Zombie && w == Some(p))))
  {
  }

  lemma AloneLaws(s: State, s': State, step: Step, init: nat, p: nat, q: nat)
    requires Inv(s, init) && Alone(s, s', step, init, p) && q < |s.procs|
    ensures Laws(s, s', q, init)
  {
    assert SelfOk(s.procs[p], p, s.waitLock, init);
    SoloLaw(step, |s.procs|, init, p, s.procs[p], s.waitLock, s'.procs[p], s'.waitLock);
  }

  lemma DuoParent(step: Step, init: nat, p: nat, a: Proc, q: nat, e: Proc, b: Proc, f: Proc, w: Option<nat>)
    requires Duo(step, init, p, a, q, e, b, f) && p != q && OwnOk(e, q)
    requires SelfOk(a, p, w, init) && SelfOk(e, q, w, init) && Knows(a, p, e, q) && KidsOk(a, p, e, q)
    ensures b.parent == a.parent && b.killed == a.killed && b.state == a.state
    ensures e.parent != f.parent ==>
              && w == Some(p)
              && (|| (e.parent == None && f.parent == Some(p) && e.state == Used)
                  || (e.parent == Some(p) && f.parent == Some(init) && InExit(a.pc))
                  || (e.parent == Some(p) && f.parent == None && e.state == Zombie && f.state == Unused
                      && a.pc.WaitLocked? && b.pc == WaitDone))
  {
  }

  lemma DuoState(step: Step, init: nat, p: nat, a: Proc, q: nat, e: Proc, b: Proc, f: Proc, w: Option<nat>)
    requires Duo(step, init, p, a, q, e, b, f) && p != q && OwnOk(e, q)
    requires SelfOk(a, p, w, init) && SelfOk(e, q, w, init) && Knows(a, p, e, q) && KidsOk(a, p, e, q)
    ensures KilledLaw(e, f, q)
    ensures e.state != f.state ==>
              && e.lock == Some(Thread(p))
              && (|| (e.state == Unused && f.state == Used)
                  || (e.state == Used && f.state == Runnable && e.parent == Some(p))
                  || (e.state == Sleeping && f.state == Runnable &&
                      (f.killed || (a.pc.WakeLocked? && a.pc.k == q && e.chan == Some(a.pc.chan))))
                  || (e.state == Zombie && f.state == Unused && e.parent == Some(p) && w == Some(p)))
  {
  }

  lemma BothLaws(s: State, s': State, step: Step, init: nat, p: nat, q: nat, r: nat)
    requires Inv(s, init) && KidsInv(s) && Both(s, s', step, init, p, q) && r < |s.procs|
    ensures Laws(s, s', r, init)
  {
    BothKnow(s, s', step, init, p, q);
    DuoParent(step, init, p, s.procs[p], q, s.procs[q], s'.procs[p], s'.procs[q], s.waitLock);
    DuoState(step, init, p, s.procs[p], q, s.procs[q], s'.procs[p], s'.procs[q], s.waitLock);
  }

  lemma FollowsLaws(s: State, s': State, init: nat, q: nat)
    requires Inv(s, init) && KidsInv(s) && Steps(s, s', init) && q < |s.procs|
    ensures |s'.procs| == |s.procs| && Laws(s, s', q, init)
  {
    assert Follows(s, s', init);
    if step, p :| Alone(s, s', step, init, p) {
      AloneLaws(s, s', step, init, p, q);
    } else {
      var step, p, r :| Both(s, s', step, init, p, r);
      BothLaws(s, s', step, init, p, r, q);
    }
  }

  /** In every run: from one state to the next, processes change only as the laws say. */
  lemma ProcessLaws(run: seq<State>, init: nat, k: nat, q: nat)
    requires IsRun(run, init) && 0 < k < |run| && q < |run[k - 1].procs|
    ensures |run[k].procs| == |run[k - 1].procs| && Laws(run[k - 1], run[k], q, init)
  {
    RunKids(run, init, k - 1);
    RunSteps(run, init, k);
    FollowsLaws(run[k - 1], run[k], init, q);
  }

  /** A process's parent is alive: not a zombie, not freed. Orphans have been given to initproc. */
  lemma ParentsLive(run: seq<State>, init: nat, k: nat, p: nat, q: nat)
    requires IsRun(run, init) && k < |run| && p < |run[k].procs| && q < |run[k].procs|
    requires run[k].procs[q].parent == Some(p)
    ensures p != q && Live(run[k].procs[p].state) && run[k].procs[p].state != Zombie
  {
    RunKids(run, init, k);
    assert SelfOk(run[k].procs[q], q, run[k].waitLock, init);
    assert p != q ==> KidsOk(run[k].procs[p], p, run[k].procs[q], q);
  }

  // ---------- When wait sleeps, gives up and returns ----------

  ghost predicate HasChild(s: State, p: nat) {
    exists q :: 0 <= q < |s.procs| && s.procs[q].parent == Some(p)
  }

  /** The thread has decided to sleep in wait, sleeps there, or is just waking up. */
  predicate GoesToSleep(pc: Pc) {
    || pc.WaitLockSelf? || pc.WaitOwn? || pc.WaitFree?
    || ((pc.Leave? || pc.Off? || pc.In?) && pc.next == ToWait)
  }

  /** The thread counts on having a child. */
  predicate CountsOnChild(pc: Pc) {
    GoesToSleep(pc) || ((pc.WaitScan? || pc.WaitLocked?) && pc.kids)
  }

  /** Inside a call of wait */
  predicate InWait(pc: Pc) {
    GoesToSleep(pc) || pc.WaitAgain? || pc.WaitScan? || pc.WaitLocked? || pc.WaitDone?
  }

  ghost predicate ChildThere(s: State) {
    forall p :: 0 <= p < |s.procs| && CountsOnChild(s.procs[p].pc) ==> HasChild(s, p)
  }

  lemma ChildStays(s: State, s': State, init: nat, p: nat)
    requires Inv(s, init) && KidsInv(s) && Steps(s, s', init) && HasChild(s, p) && p < |s.procs|
    ensures |s'.procs| == |s.procs|
    ensures HasChild(s', p) || InExit(s.procs[p].pc) || (s.procs[p].pc.WaitLocked? && s'.procs[p].pc == WaitDone)
  {
    var q :| 0 <= q < |s.procs| && s.procs[q].parent == Some(p);
    FollowsLaws(s, s', init, q);
    assert s'.procs[q].parent == Some(p) ==> HasChild(s', p);
  }

  /** What a thread's own step means for a call of wait */
  predicate WaitEdge(a: Proc, b: Proc, n: nat) {
    && (CountsOnChild(b.pc) ==> CountsOnChild(a.pc) && !InExit(a.pc))
    && (a.pc.WaitScan? && !b.pc.WaitScan? && !b.pc.WaitLocked? ==>
          a.pc.k == n && b.pc == if !a.pc.kids || a.killed then WaitDone else WaitLockSelf)
    && (b.pc == WaitDone ==> a.pc == WaitDone || a.pc.WaitScan?)
    && (InWait(a.pc) && b.pc == User ==> a.pc == WaitDone)
  }

  lemma RunsEdge(step: Step, n: nat, init: nat, p: nat, a: Proc, w: Option<nat>, b: Proc, w': Option<nat>)
    requires Runs(step, n, init, p, a, w, b, w')
    ensures WaitEdge(a, b, n)
  {
  }

  lemma ExitsEdge(step: Step, n: nat, init: nat, p: nat, a: Proc, w: Option<nat>, b: Proc, w': Option<nat>)
    requires Exits(step, n, init, p, a, w, b, w')
    ensures WaitEdge(a, b, n)
  {
  }

  lemma WaitsEdge(step: Step, n: nat, init: nat, p: nat, a: Proc, w: Option<nat>, b: Proc, w': Option<nat>)
    requires Waits(step, n, init, p, a, w, b, w')
    ensures WaitEdge(a, b, n)
  {
  }

  lemma SoloEdge(step: Step, n: nat, init: nat, p: nat, a: Proc, w: Option<nat>, b: Proc, w': Option<nat>)
    requires Solo(step, n, init, p, a, w, b, w')
    ensures WaitEdge(a, b, n)
  {
    if Runs(step, n, init, p, a, w, b, w') {
      RunsEdge(step, n, init, p, a, w, b, w');
    } else if Exits(step, n, init, p, a, w, b, w') {
      ExitsEdge(step, n, init, p, a, w, b, w');
    } else {
      WaitsEdge(step, n, init, p, a, w, b, w');
    }
  }

  /** What a thread's step with a second process means for a call of wait */
  predicate WaitPair(a: Proc, p: nat, e: Proc, b: Proc, f: Proc, w: Option<nat>) {
    && (CountsOnChild(b.pc) ==> !InExit(a.pc) && (CountsOnChild(a.pc) || f.parent == Some(p)))
    && (a.pc.WaitScan? ==> b.pc.WaitScan? || b.pc.WaitLocked?)
    && (b.pc == WaitDone ==> w == Some(p) && ZombieOf(e, p))
    && (InWait(a.pc) ==> b.pc != User)
  }

  lemma DuoEdge(step: Step, init: nat, p: nat, a: Proc, q: nat, e: Proc, b: Proc, f: Proc, w: Option<nat>)
    requires Duo(step, init, p, a, q, e, b, f) && p != q
    requires SelfOk(a, p, w, init) && SelfOk(e, q, w, init) && Knows(a, p, e, q)
    ensures WaitPair(a, p, e, b, f, w)
    ensures f.pc == e.pc || (e.pc.Off? && f.pc == Off(ToUser))
  {
    DuoEnds(step, init, p, a, q, e, b, f, w);
    DuoCounts(step, init, p, a, q, e, b, f, w);
  }

  lemma DuoCounts(step: Step, init: nat, p: nat, a: Proc, q: nat, e: Proc, b: Proc, f: Proc, w: Option<nat>)
    requires Duo(step, init, p, a, q, e, b, f) && p != q
    requires SelfOk(a, p, w, init) && Knows(a, p, e, q)
    ensures CountsOnChild(b.pc) ==> !InExit(a.pc) && (CountsOnChild(a.pc) || f.parent == Some(p))
  {
  }

  lemma DuoEnds(step: Step, init: nat, p: nat, a: Proc, q: nat, e: Proc, b: Proc, f: Proc, w: Option<nat>)
    requires Duo(step, init, p, a, q, e, b, f) && p != q
    requires SelfOk(a, p, w, init) && SelfOk(e, q, w, init) && Knows(a, p, e, q)
    ensures b.pc == WaitDone ==> w == Some(p) && ZombieOf(e, p)
    ensures f.pc == e.pc || (e.pc.Off? && f.pc == Off(ToUser))
  {
  }

  /** Why a thread is elsewhere than before: by its own step, or because its slot was given to a new process */
  ghost predicate Moved(s: State, s': State, p: nat)
    requires p < |s.procs| == |s'.procs|
  {
    var a, b := s.procs[p], s'.procs[p];
    || b.pc == a.pc
    || (a.pc.Off? && b.pc == Off(ToUser))
    || WaitEdge(a, b, |s.procs|)
    || exists q :: 0 <= q < |s.procs| && q != p && WaitPair(a, p, s.procs[q], b, s'.procs[q], s.waitLock)
  }

  lemma FollowsMoved(s: State, s': State, init: nat, p: nat)
    requires Inv(s, init) && KidsInv(s) && Steps(s, s', init) && p < |s.procs|
    ensures |s'.procs| == |s.procs| && Moved(s, s', p)
  {
    assert Follows(s, s', init);
    if step, x :| Alone(s, s', step, init, x) {
      AloneMoved(s, s', step, init, x, p);
    } else {
      var step, x, q :| Both(s, s', step, init, x, q);
      BothMoved(s, s', step, init, x, q, p);
    }
  }

  lemma AloneMoved(s: State, s': State, step: Step, init: nat, x: nat, p: nat)
    requires Alone(s, s', step, init, x) && p < |s.procs|
    ensures Moved(s, s', p)
  {
    if x == p {
      SoloEdge(step, |s.procs|, init, x, s.procs[x], s.waitLock, s'.procs[x], s'.waitLock);
    } else {
      assert s'.procs[p] == s.procs[p];
    }
  }

  lemma BothMoved(s: State, s': State, step: Step, init: nat, x: nat, q: nat, p: nat)
    requires Inv(s, init) && KidsInv(s) && Both(s, s', step, init, x, q) && p < |s.procs|
    ensures Moved(s, s', p)
  {
    BothKnow(s, s', step, init, x, q);
    DuoEdge(step, init, x, s.procs[x], q, s.procs[q], s'.procs[x], s'.procs[q], s.waitLock);
  }

  lemma ChildStep(s: State, s': State, init: nat, p: nat)
    requires Inv(s, init) && KidsInv(s) && ChildThere(s) && Steps(s, s', init)
    requires p < |s.procs| == |s'.procs| && CountsOnChild(s'.procs[p].pc)
    ensures HasChild(s', p)
  {
    FollowsMoved(s, s', init, p);
    if CountsOnChild(s.procs[p].pc) {
      ChildStays(s, s', init, p);
    } else {
      ChildFound(s, s', p);
    }
  }

  lemma ChildFound(s: State, s': State, p: nat)
    requires p < |s.procs| == |s'.procs| && Moved(s, s', p)
    requires CountsOnChild(s'.procs[p].pc) && !CountsOnChild(s.procs[p].pc)
    ensures HasChild(s', p)
  {
  }

  /** All three invariants, behind a quantifier to keep them folded */
  ghost predicate Sound(s: State, init: nat) {
    forall x :: x == s ==> SoundIn(x, init)
  }

  ghost predicate SoundIn(s: State, init: nat) {
    Inv(s, init) && KidsInv(s) && ChildThere(s)
  }

  lemma {:induction false} RunSound(run: seq<State>, init: nat, k: nat)
    requires IsRun(run, init) && k < |run|
    ensures Sound(run[k], init)
  {
    if k > 0 {
      RunSound(run, init, k - 1);
      RunSteps(run, init, k);
      NextSound(run[k - 1], run[k], init);
    } else {
      InitSound(run[0], init);
    }
  }

  lemma InitSound(s: State, init: nat)
    requires Init(s, init)
    ensures Sound(s, init)
  {
    InitInv(s, init);
    InitKids(s, init);
    forall p | 0 <= p < |s.procs|
      ensures !CountsOnChild(s.procs[p].pc)
    {
    }
    assert SoundIn(s, init);
  }

  lemma NextSound(s: State, s': State, init: nat)
    requires Sound(s, init) && Steps(s, s', init)
    ensures Sound(s', init)
  {
    assert Follows(s, s', init);
    assert SoundIn(s, init);
    FollowsKeeps(s, s', init);
    KidsStep(s, s', init);
    NextChild(s, s', init);
    assert SoundIn(s', init);
  }

  lemma NextChild(s: State, s': State, init: nat)
    requires Inv(s, init) && KidsInv(s) && ChildThere(s) && Steps(s, s', init) && |s'.procs| == |s.procs|
    ensures ChildThere(s')
  {
    forall p | 0 <= p < |s'.procs| && CountsOnChild(s'.procs[p].pc)
      ensures HasChild(s', p)
    {
      ChildStep(s, s', init, p);
    }
  }

  /** Nobody sleeps in wait without a child. */
  lemma SleepsOverChild(run: seq<State>, init: nat, k: nat, p: nat)
    requires IsRun(run, init) && k < |run| && p < |run[k].procs| && Asleep(run[k].procs[p], p)
    ensures HasChild(run[k], p)
  {
    RunSound(run, init, k);
    assert SoundIn(run[k], init);
    assert OwnOk(run[k].procs[p], p);
  }

  /** wait may return without a child: it holds wait_lock, and is killed or has no children. */
  ghost predicate MayGiveUp(s: State, p: nat)
    requires p < |s.procs|
  {
    s.waitLock == Some(p) && (s.procs[p].killed || !HasChild(s, p))
  }

  /** wait has found a zombie child, which it has locked. */
  ghost predicate FindsZombie(s: State, p: nat) {
    s.waitLock == Some(p) && exists q :: 0 <= q < |s.procs| && ZombieOf(s.procs[q], p)
  }

  predicate ZombieOf(e: Proc, p: nat) {
    e.parent == Some(p) && e.state == Zombie && e.lock == Some(Thread(p))
  }

  /** At the end of the scan kids tells whether there is a child. */
  lemma KidsExact(s: State, init: nat, p: nat)
    requires Inv(s, init) && KidsInv(s) && ChildThere(s) && p < |s.procs|
    requires s.procs[p].pc.WaitScan? && s.procs[p].pc.k == |s.procs|
    ensures s.waitLock == Some(p) && (s.procs[p].pc.kids <==> HasChild(s, p))
  {
    assert SelfOk(s.procs[p], p, s.waitLock, init);
    if HasChild(s, p) {
      var q :| 0 <= q < |s.procs| && s.procs[q].parent == Some(p);
      assert q != p;
      assert KidsOk(s.procs[p], p, s.procs[q], q);
    }
  }

  lemma ScanOver(s: State, s': State, init: nat, p: nat)
    requires Sound(s, init) && Steps(s, s', init) && p < |s.procs| && p < |s'.procs|
    requires s.procs[p].pc.WaitScan? && !s'.procs[p].pc.WaitScan? && !s'.procs[p].pc.WaitLocked?
    ensures s'.procs[p].pc == if MayGiveUp(s, p) then WaitDone else WaitLockSelf
  {
    assert SoundIn(s, init);
    FollowsMoved(s, s', init, p);
    KidsExact(s, init, p);
  }

  /**
   A thread whose scan of the table in wait is over without a zombie returns if it has been
   killed or no process has it as parent, and goes to sleep otherwise.
   */
  lemma WaitDecides(run: seq<State>, init: nat, k: nat, p: nat)
    requires IsRun(run, init) && 0 < k < |run| && p < |run[k].procs| && p < |run[k - 1].procs|
    requires run[k - 1].procs[p].pc.WaitScan? && !run[k].procs[p].pc.WaitScan? && !run[k].procs[p].pc.WaitLocked?
    ensures if MayGiveUp(run[k - 1], p) then run[k].procs[p].pc == WaitDone else GoesToSleep(run[k].procs[p].pc)
  {
    RunSound(run, init, k - 1);
    RunSteps(run, init, k);
    ScanOver(run[k - 1], run[k], init, p);
  }

  lemma IntoDone(s: State, s': State, init: nat, p: nat)
    requires Sound(s, init) && Steps(s, s', init) && p < |s.procs| && p < |s'.procs|
    requires s.procs[p].pc != WaitDone && s'.procs[p].pc == WaitDone
    ensures MayGiveUp(s, p) || FindsZombie(s, p)
  {
    assert SoundIn(s, init);
    FollowsMoved(s, s', init, p);
    if s.procs[p].pc.WaitScan? {
      ScanOver(s, s', init, p);
    }
  }

  lemma OutOfWait(s: State, s': State, init: nat, p: nat)
    requires Sound(s, init) && Steps(s, s', init) && p < |s.procs| && p < |s'.procs|
    requires InWait(s.procs[p].pc) && s'.procs[p].pc == User
    ensures s.procs[p].pc == WaitDone
  {
    assert SoundIn(s, init);
    FollowsMoved(s, s', init, p);
  }

  lemma IntoDoneAt(run: seq<State>, init: nat, k: nat, p: nat)
    requires IsRun(run, init) && 0 < k < |run| && p < |run[k - 1].procs| && p < |run[k].procs|
    requires run[k - 1].procs[p].pc != WaitDone && run[k].procs[p].pc == WaitDone
    ensures MayGiveUp(run[k - 1], p) || FindsZombie(run[k - 1], p)
  {
    RunSound(run, init, k - 1);
    RunSteps(run, init, k);
    IntoDone(run[k - 1], run[k], init, p);
  }

  lemma OutOfWaitAt(run: seq<State>, init: nat, k: nat, p: nat)
    requires IsRun(run, init) && 0 < k < |run| && p < |run[k - 1].procs| && p < |run[k].procs|
    requires InWait(run[k - 1].procs[p].pc) && run[k].procs[p].pc == User
    ensures run[k - 1].procs[p].pc == WaitDone
  {
    RunSound(run, init, k - 1);
    RunSteps(run, init, k);
    OutOfWait(run[k - 1], run[k], init, p);
  }

  lemma {:induction false} DoneSince(run: seq<State>, init: nat, i: nat, j: nat, p: nat) returns (m: nat)
    requires IsRun(run, init) && i < j < |run|
    requires forall x :: i <= x <= j ==> p < |run[x].procs|
    requires run[i].procs[p].pc != WaitDone && run[j].procs[p].pc == WaitDone
    ensures i <= m < j && (MayGiveUp(run[m], p) || FindsZombie(run[m], p))
  {
    if run[j - 1].procs[p].pc == WaitDone {
      m := DoneSince(run, init, i, j - 1, p);
    } else {
      m := j - 1;
      IntoDoneAt(run, init, j, p);
    }
  }

  /**
   A call of wait, from the state before it to the state after it, has held wait_lock at
   some time at which it was killed, or had no children, or had a zombie child.
   */
  lemma WaitReturns(run: seq<State>, init: nat, i: nat, k: nat, p: nat) returns (m: nat)
    requires IsRun(run, init) && i + 1 < k < |run|
    requires forall x :: i <= x <= k ==> p < |run[x].procs|
    requires run[i].procs[p].pc == User && run[k].procs[p].pc == User
    requires forall x :: i < x < k ==> InWait(run[x].procs[p].pc)
    ensures i <= m < k && (MayGiveUp(run[m], p) || FindsZombie(run[m], p))
  {
    OutOfWaitAt(run, init, k, p);
    m := DoneSince(run, init, i, k - 1, p);
  }

  // ---------- wakeup ----------

  predicate InWakeup(pc: Pc) {
    pc.Waking? || pc.WakeLocked?
  }

  /** wakeup goes over the table from the first slot to the last, past its own. */
  predicate WakeEdge(a: Proc, b: Proc, p: nat, n: nat) {
    && (InWakeup(b.pc) && !InWakeup(a.pc) ==> b.pc.k == 0)
    && (InWakeup(a.pc) && !InWakeup(b.pc) ==> a.pc.k == n)
    && (InWakeup(a.pc) && InWakeup(b.pc) ==> b.pc.k == a.pc.k || (a.pc.k == p && b.pc.k == p + 1))
  }

  lemma SoloWake(step: Step, n: nat, init: nat, p: nat, a: Proc, w: Option<nat>, b: Proc, w': Option<nat>)
    requires Solo(step, n, init, p, a, w, b, w')
    ensures WakeEdge(a, b, p, n)
  {
    if Runs(step, n, init, p, a, w, b, w') {
      RunsWake(step, n, init, p, a, w, b, w');
    } else if Exits(step, n, init, p, a, w, b, w') {
      ExitsWake(step, n, init, p, a, w, b, w');
    } else {
      WaitsWake(step, n, init, p, a, w, b, w');
    }
  }

  lemma RunsWake(step: Step, n: nat, init: nat, p: nat, a: Proc, w: Option<nat>, b: Proc, w': Option<nat>)
    requires Runs(step, n, init, p, a, w, b, w')
    ensures WakeEdge(a, b, p, n)
  {
  }

  lemma ExitsWake(step: Step, n: nat, init: nat, p: nat, a: Proc, w: Option<nat>, b: Proc, w': Option<nat>)
    requires Exits(step, n, init, p, a, w, b, w')
    ensures WakeEdge(a, b, p, n)
  {
  }

  lemma WaitsWake(step: Step, n: nat, init: nat, p: nat, a: Proc, w: Option<nat>, b: Proc, w': Option<nat>)
    requires Waits(step, n, init, p, a, w, b, w')
    ensures WakeEdge(a, b, p, n)
  {
  }

  /** Thread p, which has q's lock, is done with q: q does not sleep on chan. */
  predicate Visits(e: Proc, f: Proc, p: nat, chan: nat) {
    e.lock == Some(Thread(p)) && !(f.state == Sleeping && f.chan == Some(chan))
  }

  lemma DuoWake(step: Step, init: nat, p: nat, a: Proc, q: nat, e: Proc, b: Proc, f: Proc, w: Option<nat>)
    requires Duo(step, init, p, a, q, e, b, f) && p != q && SelfOk(e, q, w, init) && Knows(a, p, e, q)
    ensures InWakeup(b.pc) && !InWakeup(a.pc) ==> b.pc.k == 0
    ensures InWakeup(a.pc) ==>
              && InWakeup(b.pc) && b.pc.chan == a.pc.chan
              && (b.pc.k == a.pc.k || (a.pc.k == q && b.pc.k == q + 1 && Visits(e, f, p, a.pc.chan)))
    ensures InWakeup(f.pc) || InWakeup(e.pc) ==> f.pc == e.pc
  {
  }

  /** In a step of the run the wakeup of thread p stays where it is, goes on past its own slot, or is done with one. */
  ghost predicate WakeMoved(s: State, s': State, p: nat)
    requires p < |s.procs| == |s'.procs|
  {
    var a, b, n := s.procs[p], s'.procs[p], |s.procs|;
    || WakeEdge(a, b, p, n)
    || (exists q :: 0 <= q < n && q != p && InWakeup(a.pc) && InWakeup(b.pc) && a.pc.k == q && b.pc.k == q + 1
          && Visits(s.procs[q], s'.procs[q], p, a.pc.chan))
  }

  lemma FollowsWake(s: State, s': State, init: nat, p: nat)
    requires Sound(s, init) && Steps(s, s', init) && p < |s.procs|
    ensures |s'.procs| == |s.procs| && WakeMoved(s, s', p)
  {
    assert SoundIn(s, init);
    assert Follows(s, s', init);
    if step, x :| Alone(s, s', step, init, x) {
      AloneWake(s, s', step, init, x, p);
    } else {
      var step, x, q :| Both(s, s', step, init, x, q);
      BothWake(s, s', step, init, x, q, p);
    }
  }

  lemma AloneWake(s: State, s': State, step: Step, init: nat, x: nat, p: nat)
    requires Alone(s, s', step, init, x) && p < |s.procs|
    ensures WakeMoved(s, s', p)
  {
    if x == p {
      SoloWake(step, |s.procs|, init, x, s.procs[x], s.waitLock, s'.procs[x], s'.waitLock);
    } else {
      assert s'.procs[p] == s.procs[p];
    }
  }

  lemma BothWake(s: State, s': State, step: Step, init: nat, x: nat, q: nat, p: nat)
    requires Inv(s, init) && KidsInv(s) && Both(s, s', step, init, x, q) && p < |s.procs|
    ensures WakeMoved(s, s', p)
  {
    BothKnow(s, s', step, init, x, q);
    DuoWake(step, init, x, s.procs[x], q, s.procs[q], s'.procs[x], s'.procs[q], s.waitLock);
  }

  lemma WakeMovedAt(run: seq<State>, init: nat, k: nat, p: nat)
    requires IsRun(run, init) && 0 < k < |run| && p < |run[k - 1].procs|
    ensures |run[k].procs| == |run[k - 1].procs| && WakeMoved(run[k - 1], run[k], p)
  {
    RunSound(run, init, k - 1);
    RunSteps(run, init, k);
    FollowsWake(run[k - 1], run[k], init, p);
  }

  /** From state i on thread p is in one call of wakeup on channel chan, up to state j. */
  ghost predicate Wakeup(run: seq<State>, i: nat, j: nat, p: nat, chan: nat)
    requires i <= j < |run|
  {
    && (forall x :: i <= x <= j ==> p < |run[x].procs|) && !InWakeup(run[i].procs[p].pc)
    && (forall x :: i < x <= j ==> InWakeup(run[x].procs[p].pc) && run[x].procs[p].pc.chan == chan)
  }

  lemma {:induction false} VisitedBefore(run: seq<State>, init: nat, i: nat, j: nat, p: nat, chan: nat, q: nat)
      returns (m: nat)
    requires IsRun(run, init) && i < j < |run| && Wakeup(run, i, j, p, chan)
    requires p != q && q < run[j].procs[p].pc.k && q < |run[j].procs|
    ensures i <= m < j && q < |run[m].procs| == |run[m + 1].procs|
    ensures Visits(run[m].procs[q], run[m + 1].procs[q], p, chan)
  {
    WakeMovedAt(run, init, j, p);
    if j - 1 > i && q < run[j - 1].procs[p].pc.k {
      m := VisitedBefore(run, init, i, j - 1, p, chan, q);
    } else {
      m := j - 1;
    }
  }

  /** A call of wakeup has had each other process's lock, and left it not asleep on the channel. */
  lemma WakeupVisits(run: seq<State>, init: nat, i: nat, j: nat, p: nat, chan: nat, q: nat) returns (m: nat)
    requires IsRun(run, init) && i < j < |run| - 1 && Wakeup(run, i, j, p, chan)
    requires p < |run[j + 1].procs| && !InWakeup(run[j + 1].procs[p].pc) && p != q && q < |run[j].procs|
    ensures i <= m < j && q < |run[m].procs| == |run[m + 1].procs|
    ensures Visits(run[m].procs[q], run[m + 1].procs[q], p, chan)
  {
    WakeMovedAt(run, init, j + 1, p);
    m := VisitedBefore(run, init, i, j, p, chan, q);
  }
}

/**
 No thread of ExitWait is ever stuck: it can take its next step, or it waits for a lock that
 is held.
 */
module ExitProgress {
  import opened Common
  import opened ProcStates
  import opened ExitWait
  import opened ExitLaws

  /** The slots that a thread counts through and works on are in the table, and are not its own. */
  predicate Bounded(a: Proc, p: nat, n: nat) {
    && (a.pc.Waking? || a.pc.Exiting? || a.pc.WaitScan? ==> a.pc.k <= n)
    && ((a.pc.Waking? || a.pc.WakeLocked?) && a.pc.after.Reparent? ==> a.pc.after.j <= n)
    && (a.pc.WakeLocked? || a.pc.Killing? || a.pc.WaitLocked? || a.pc.ForkLocked? || Child(a.pc).Some? ==>
          a.pc.k < n && a.pc.k != p)
  }

  lemma RunsBounded(step: Step, n: nat, init: nat, p: nat, a: Proc, w: Option<nat>, b: Proc, w': Option<nat>)
    requires Runs(step, n, init, p, a, w, b, w') && p < n && Bounded(a, p, n)
    ensures Bounded(b, p, n)
  {
  }

  lemma ExitsBounded(step: Step, n: nat, init: nat, p: nat, a: Proc, w: Option<nat>, b: Proc, w': Option<nat>)
    requires Exits(step, n, init, p, a, w, b, w') && p < n && Bounded(a, p, n)
    ensures Bounded(b, p, n)
  {
  }

  lemma WaitsBounded(step: Step, n: nat, init: nat, p: nat, a: Proc, w: Option<nat>, b: Proc, w': Option<nat>)
    requires Waits(step, n, init, p, a, w, b, w') && p < n && Bounded(a, p, n)
    ensures Bounded(b, p, n)
  {
  }

  lemma DuoBounded(step: Step, init: nat, p: nat, a: Proc, q: nat, e: Proc, b: Proc, f: Proc, n: nat)
    requires Duo(step, init, p, a, q, e, b, f) && p != q && p < n && q < n && Bounded(a, p, n) && Bounded(e, q, n)
    ensures Bounded(b, p, n) && Bounded(f, q, n)
  {
  }

  ghost predicate AllBounded(s: State) {
    forall p :: 0 <= p < |s.procs| ==> Bounded(s.procs[p], p, |s.procs|)
  }

  lemma AloneBounded(s: State, s': State, step: Step, init: nat, p: nat)
    requires AllBounded(s) && Alone(s, s', step, init, p)
    ensures AllBounded(s')
  {
    var n, a, w, b, w' := |s.procs|, s.procs[p], s.waitLock, s'.procs[p], s'.waitLock;
    assert Bounded(a, p, n);
    if Runs(step, n, init, p, a, w, b, w') {
      RunsBounded(step, n, init, p, a, w, b, w');
    } else if Exits(step, n, init, p, a, w, b, w') {
      ExitsBounded(step, n, init, p, a, w, b, w');
    } else {
      WaitsBounded(step, n, init, p, a, w, b, w');
    }
  }

  lemma BothBounded(s: State, s': State, step: Step, init: nat, p: nat, q: nat)
    requires AllBounded(s) && Both(s, s', step, init, p, q)
    ensures AllBounded(s')
  {
    DuoBounded(step, init, p, s.procs[p], q, s.procs[q], s'.procs[p], s'.procs[q], |s.procs|);
  }

  lemma StepsBounded(s: State, s': State, init: nat)
    requires AllBounded(s) && Steps(s, s', init)
    ensures AllBounded(s')
  {
    assert Follows(s, s', init);
    if step, p :| Alone(s, s', step, init, p) {
      AloneBounded(s, s', step, init, p);
    } else {
      var step, p, q :| Both(s, s', step, init, p, q);
      BothBounded(s, s', step, init, p, q);
    }
  }

  lemma {:induction false} RunBounded(run: seq<State>, init: nat, k: nat)
    requires IsRun(run, init) && k < |run|
    ensures AllBounded(run[k])
  {
    if k > 0 {
      RunBounded(run, init, k - 1);
      RunSteps(run, init, k);
      StepsBounded(run[k - 1], run[k], init);
    }
  }

  // ---------- Steps that can be taken ----------

  /** Some step takes thread p elsewhere. */
  ghost predicate CanMove(s: State, init: nat, p: nat)
    requires p < |s.procs|
  {
    exists s' :: Follows(s, s', init) && |s'.procs| == |s.procs| && s'.procs[p].pc != s.procs[p].pc
  }

  lemma CanAlone(s: State, init: nat, p: nat, step: Step, b: Proc, w': Option<nat>)
    requires p < |s.procs| && Solo(step, |s.procs|, init, p, s.procs[p], s.waitLock, b, w') && b.pc != s.procs[p].pc
    ensures CanMove(s, init, p)
  {
    var s' := State(s.procs[p := b], w');
    assert Alone(s, s', step, init, p);
    assert Follows(s, s', init);
  }

  lemma CanBoth(s: State, init: nat, p: nat, step: Step, q: nat, b: Proc, f: Proc)
    requires p < |s.procs| && q < |s.procs| && p != q && b.pc != s.procs[p].pc
    requires Duo(step, init, p, s.procs[p], q, s.procs[q], b, f)
    ensures CanMove(s, init, p)
  {
    var s' := State(s.procs[p := b][q := f], s.waitLock);
    assert Both(s, s', step, init, p, q);
    assert Follows(s, s', init);
  }

  /** Thread p wants a lock that somebody has. */
  predicate Blocked(s: State, p: nat)
    requires p < |s.procs|
  {
    var a, n := s.procs[p], |s.procs|;
    || ((a.pc.WaitAgain? || a.pc.ForkParent?) && s.waitLock.Some?)
    || ((a.pc.ExitLock? || a.pc.WaitLockSelf?) && a.lock.Some?)
    || ((a.pc.Waking? || a.pc.ForkStart?) && a.pc.k < n && a.pc.k != p && s.procs[a.pc.k].lock.Some?)
    || (a.pc.WaitScan? && a.pc.k < n && a.pc.k != p && s.procs[a.pc.k].parent == Some(p) && s.procs[a.pc.k].lock.Some?)
  }

  lemma RunsOn(s: State, init: nat, p: nat)
    requires p < |s.procs|
    requires var pc := s.procs[p].pc; pc.In? || pc.User? || pc.YieldLocked? || pc.SleepLocked? || pc.Leave?
    ensures CanMove(s, init, p)
  {
    var a, w := s.procs[p], s.waitLock;
    match a.pc
    case In(next) =>
      CanAlone(s, init, p, Resumes, a.(lock := None, chan := if next == ToUser then a.chan else None,
               pc := if next == ToWait then WaitAgain else User), w);
    case User => CanAlone(s, init, p, WaitStart, a.(pc := WaitAgain), w);
    case YieldLocked => CanAlone(s, init, p, Yield, a.(state := Runnable, pc := Leave(ToUser)), w);
    case SleepLocked(ch) =>
      CanAlone(s, init, p, Sleep, a.(chan := Some(ch), state := Sleeping, pc := Leave(FromSleep)), w);
    case Leave(next) => CanAlone(s, init, p, SwitchOut, a.(lock := Some(Kernel), pc := Off(next)), w);
  }

  lemma WakesOn(s: State, init: nat, p: nat)
    requires p < |s.procs| && Bounded(s.procs[p], p, |s.procs|)
    requires var pc := s.procs[p].pc; pc.Waking? || pc.WakeLocked? || pc.Killing?
    ensures Blocked(s, p) || CanMove(s, init, p)
  {
    var a, w, n := s.procs[p], s.waitLock, |s.procs|;
    match a.pc
    case Waking(ch, k, after) =>
      if k == n {
        CanAlone(s, init, p, WakeEnd, a.(pc := Onward(after)), w);
      } else if k == p {
        CanAlone(s, init, p, WakeSkip, a.(pc := Waking(ch, p + 1, after)), w);
      } else if s.procs[k].lock == None {
        CanBoth(s, init, p, WakeLock, k, a.(pc := WakeLocked(ch, k, after)),
                s.procs[k].(lock := Some(Thread(p))));
      }
    case WakeLocked(ch, k, after) =>
      var e := s.procs[k];
      CanBoth(s, init, p, WakeIt, k, a.(pc := Waking(ch, k + 1, after)),
              (if e.chan == Some(ch) then Woken(e) else e).(lock := None));
    case Killing(k) =>
      CanBoth(s, init, p, KillIt, k, a.(pc := User), Woken(s.procs[k]).(killed := true, lock := None));
  }

  lemma ExitsOn(s: State, init: nat, p: nat)
    requires p < |s.procs| && Bounded(s.procs[p], p, |s.procs|) && SelfOk(s.procs[p], p, s.waitLock, init)
    requires var pc := s.procs[p].pc; pc.Exiting? || pc.ExitLock? || pc.ExitLocked? || pc.ExitDone?
    ensures Blocked(s, p) || CanMove(s, init, p)
  {
    var a, w, n := s.procs[p], s.waitLock, |s.procs|;
    match a.pc
    case Exiting(k) =>
      if k == n {
        CanAlone(s, init, p, ExitParent, a.(pc := Waking(a.parent.value, 0, BecomeZombie)), w);
      } else if k == p {
        CanAlone(s, init, p, ExitSkip, a.(pc := Exiting(p + 1)), w);
      } else if s.procs[k].parent == Some(p) {
        CanBoth(s, init, p, ReparentOne, k, a.(pc := Waking(init, 0, Reparent(k + 1))),
                s.procs[k].(parent := Some(init)));
      } else {
        CanBoth(s, init, p, ReparentOne, k, a.(pc := Exiting(k + 1)), s.procs[k]);
      }
    case ExitLock =>
      if a.lock == None {
        CanAlone(s, init, p, ExitLockOwn, a.(lock := Some(Thread(p)), pc := ExitLocked), w);
      }
    case ExitLocked =>
      CanAlone(s, init, p, ExitZombie, a.(state := Zombie, exits := a.exits + 1, pc := ExitDone), w);
    case ExitDone => CanAlone(s, init, p, ExitRelease, a.(pc := Leave(Never)), None);
  }

  lemma ScansOn(s: State, init: nat, p: nat)
    requires p < |s.procs| && Bounded(s.procs[p], p, |s.procs|)
    requires s.procs[p].pc.WaitScan? || s.procs[p].pc.WaitLocked?
    ensures Blocked(s, p) || CanMove(s, init, p)
  {
    var a, w, n := s.procs[p], s.waitLock, |s.procs|;
    var k, kids := a.pc.k, a.pc.kids;
    if a.pc.WaitLocked? {
      var e := s.procs[k];
      if e.state == Zombie {
        CanBoth(s, init, p, WaitReap, k, a.(pc := WaitDone), Reaped(e));
      } else {
        CanBoth(s, init, p, WaitPass, k, a.(pc := WaitScan(k + 1, true)), e.(lock := None));
      }
    } else if k == n {
      CanAlone(s, init, p, WaitEnd, a.(pc := if !kids || a.killed then WaitDone else WaitLockSelf), w);
    } else if k == p {
      CanAlone(s, init, p, WaitSkip, a.(pc := WaitScan(p + 1, kids)), w);
    } else if s.procs[k].parent != Some(p) {
      CanBoth(s, init, p, WaitLook, k, a.(pc := WaitScan(k + 1, kids)), s.procs[k]);
    } else if s.procs[k].lock == None {
      CanBoth(s, init, p, WaitLook, k, a.(pc := WaitLocked(k, kids)), s.procs[k].(lock := Some(Thread(p))));
    }
  }

  /** A freed slot */
  function Reaped(e: Proc): (f: Proc) {
    e.(state := Unused, chan := None, parent := None, killed := false, lock := None, reaps := e.reaps + 1)
  }

  lemma WaitsOn(s: State, init: nat, p: nat)
    requires p < |s.procs|
    requires var pc := s.procs[p].pc;
             pc.WaitAgain? || pc.WaitLockSelf? || pc.WaitOwn? || pc.WaitFree? || pc.WaitDone?
    ensures Blocked(s, p) || CanMove(s, init, p)
  {
    var a, w := s.procs[p], s.waitLock;
    match a.pc
    case WaitAgain =>
      if w == None {
        CanAlone(s, init, p, WaitTake, a.(pc := WaitScan(0, false)), Some(p));
      }
    case WaitLockSelf =>
      if a.lock == None {
        CanAlone(s, init, p, WaitLockOwn, a.(lock := Some(Thread(p)), pc := WaitOwn), w);
      }
    case WaitOwn => CanAlone(s, init, p, WaitUnlock, a.(pc := WaitFree), None);
    case WaitFree => CanAlone(s, init, p, WaitSleep, a.(chan := Some(p), state := Sleeping, pc := Leave(ToWait)), w);
    case WaitDone => CanAlone(s, init, p, WaitReturn, a.(pc := User), None);
  }

  lemma ForksOn(s: State, init: nat, p: nat)
    requires p < |s.procs| && Bounded(s.procs[p], p, |s.procs|)
    requires s.procs[p].pc.ForkLocked? || s.procs[p].pc.ForkMade? || s.procs[p].pc.ForkParent?
    ensures Blocked(s, p) || CanMove(s, init, p)
  {
    var a, w := s.procs[p], s.waitLock;
    var k := a.pc.k;
    var e := s.procs[k];
    match a.pc
    case ForkLocked(_) =>
      if e.state == Unused {
        CanBoth(s, init, p, ForkAlloc, k, a.(pc := ForkMade(k)), e.(state := Used, pc := Off(ToUser)));
      } else {
        CanBoth(s, init, p, ForkBusy, k, a.(pc := User), e.(lock := None));
      }
    case ForkMade(_) => CanBoth(s, init, p, ForkUnlock, k, a.(pc := ForkParent(k)), e.(lock := None));
    case ForkParent(_) =>
      if w == None {
        CanAlone(s, init, p, ForkTake, a.(pc := ForkHave(k)), Some(p));
      }
  }

  lemma AdoptsOn(s: State, init: nat, p: nat)
    requires p < |s.procs| && Bounded(s.procs[p], p, |s.procs|)
    requires var pc := s.procs[p].pc; pc.ForkHave? || pc.ForkSet? || pc.ForkStart? || pc.ForkStarting?
    ensures Blocked(s, p) || CanMove(s, init, p)
  {
    var a, w := s.procs[p], s.waitLock;
    var k := a.pc.k;
    var e := s.procs[k];
    match a.pc
    case ForkHave(_) => CanBoth(s, init, p, ForkAdopt, k, a.(pc := ForkSet(k)), e.(parent := Some(p)));
    case ForkSet(_) => CanAlone(s, init, p, ForkRelease, a.(pc := ForkStart(k)), None);
    case ForkStart(_) =>
      if e.lock == None {
        CanBoth(s, init, p, ForkStartLock, k, a.(pc := ForkStarting(k)), e.(lock := Some(Thread(p))));
      }
    case ForkStarting(_) => CanBoth(s, init, p, ForkRun, k, a.(pc := User), e.(state := Runnable, lock := None));
  }

  lemma NotStuck(s: State, init: nat, p: nat)
    requires p < |s.procs| && !s.procs[p].pc.Off?
    requires Bounded(s.procs[p], p, |s.procs|) && SelfOk(s.procs[p], p, s.waitLock, init)
    ensures Blocked(s, p) || CanMove(s, init, p)
  {
    match s.procs[p].pc
    case In(_) => RunsOn(s, init, p);
    case User => RunsOn(s, init, p);
    case YieldLocked => RunsOn(s, init, p);
    case SleepLocked(_) => RunsOn(s, init, p);
    case Leave(_) => RunsOn(s, init, p);
    case Waking(_, _, _) => WakesOn(s, init, p);
    case WakeLocked(_, _, _) => WakesOn(s, init, p);
    case Killing(_) => WakesOn(s, init, p);
    case Exiting(_) => ExitsOn(s, init, p);
    case ExitLock => ExitsOn(s, init, p);
    case ExitLocked => ExitsOn(s, init, p);
    case ExitDone => ExitsOn(s, init, p);
    case WaitScan(_, _) => ScansOn(s, init, p);
    case WaitLocked(_, _) => ScansOn(s, init, p);
    case WaitAgain => WaitsOn(s, init, p);
    case WaitLockSelf => WaitsOn(s, init, p);
    case WaitOwn => WaitsOn(s, init, p);
    case WaitFree => WaitsOn(s, init, p);
    case WaitDone => WaitsOn(s, init, p);
    case ForkLocked(_) => ForksOn(s, init, p);
    case ForkMade(_) => ForksOn(s, init, p);
    case ForkParent(_) => ForksOn(s, init, p);
    case _ => AdoptsOn(s, init, p);
  }

  /** In every state of every run each thread that is on a CPU can move, or wants a lock that somebody has. */
  lemma NeverStuck(run: seq<State>, init: nat, k: nat, p: nat)
    requires IsRun(run, init) && k < |run| && p < |run[k].procs| && !run[k].procs[p].pc.Off?
    ensures Blocked(run[k], p) || CanMove(run[k], init, p)
  {
    RunInv(run, init, k);
    RunBounded(run, init, k);
    assert SelfOk(run[k].procs[p], p, run[k].waitLock, init);
    NotStuck(run[k], init, p);
  }

  /** A runnable process that is off its CPU and unlocked can be run, by the scheduler's two steps. */
  lemma RunnableRuns(s: State, init: nat, p: nat) returns (s1: State, s2: State)
    requires p < |s.procs| && s.procs[p].state == Runnable && s.procs[p].pc.Off? && s.procs[p].lock == None
    ensures Follows(s, s1, init) && Follows(s1, s2, init)
    ensures p < |s2.procs| && s2.procs[p].state == Running && s2.procs[p].pc == In(s.procs[p].pc.next)
  {
    var a := s.procs[p].(lock := Some(Kernel));
    s1 := State(s.procs[p := a], s.waitLock);
    s2 := State(s.procs[p := a.(state := Running, lock := Some(Thread(p)), pc := In(a.pc.next))], s.waitLock);
    assert Alone(s, s1, SchedLock, init, p);
    assert Alone(s1, s2, SchedPick, init, p);
  }

  /** A zombie child that wait has locked can be freed. */
  lemma ZombieFreed(s: State, init: nat, p: nat) returns (s': State)
    requires p < |s.procs| && s.procs[p].pc.WaitLocked? && Bounded(s.procs[p], p, |s.procs|)
    requires s.procs[s.procs[p].pc.k].state == Zombie
    ensures Follows(s, s', init) && |s'.procs| == |s.procs|
    ensures s'.procs[s.procs[p].pc.k].state == Unused && s'.procs[p].pc == WaitDone
  {
    var q := s.procs[p].pc.k;
    s' := State(s.procs[p := s.procs[p].(pc := WaitDone)][q := Reaped(s.procs[q])], s.waitLock);
    assert Both(s, s', WaitReap, init, p, q);
  }
}

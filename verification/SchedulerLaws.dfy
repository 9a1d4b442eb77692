/**
 Which processes the scheduler runs, over every run of Scheduler: how a process's state may
 change from one state of a run to the next and by whom, that a CPU runs what it finds
 runnable and nothing else, and that no CPU is stuck in the scheduler or in sched.
 */
module SchedulerLaws {
  import opened Common
  import opened ProcStates
  import opened Scheduler

  // ---------- Who changes a process's state ----------

  /** CPU c has q's lock, is in the scheduler, and q is its process afterwards. */
  predicate TakesUp(u: Cpu, u': Cpu, q: nat) {
    Holds(u.ctx) == Some(q) && OnStack(u.ctx) == None && Subject(u'.ctx) == Some(q) && Executes(u'.ctx)
  }

  /** CPU c, which runs another process, has q's lock. */
  predicate ChangesFrom(u: Cpu, q: nat) {
    Holds(u.ctx) == Some(q) && OnStack(u.ctx).Some? && OnStack(u.ctx) != Some(q)
  }

  /** How one step of CPU c may change process q: there is no other way from one state to another. */
  predicate StateLaw(u: Cpu, u': Cpu, p: Proc, p': Proc, q: nat) {
    p.state != p'.state ==>
      match p.state
      case Runnable => p'.state == Running && TakesUp(u, u', q)
      case Running =>
        && (p'.state == Runnable || p'.state == Sleeping || p'.state == Zombie)
        && u.proc == Some(q) && OnStack(u.ctx) == Some(q) && Holds(u.ctx) == Some(q)
      case Sleeping => p'.state == Runnable && ChangesFrom(u, q)
      case Zombie => p'.state == Unused && ChangesFrom(u, q)
      case Unused => p'.state == Used && ChangesFrom(u, q)
      case Used => p'.state == Runnable && ChangesFrom(u, q)
  }

  /** A lock is taken only when free and released only by the CPU that has it. */
  predicate LockLaw(p: Proc, p': Proc, c: nat) {
    p.lock != p'.lock ==> (p.lock == None && p'.lock == Some(c)) || (p.lock == Some(c) && p'.lock == None)
  }

  lemma ActLaw(step: Step, u: Cpu, p: Proc, u': Cpu, p': Proc, n: nat)
    requires Act(step, u, p, u', p') && step.q < n && CpuOk(u, n) && PairOk(u, p, step.c, step.q)
    ensures StateLaw(u, u', p, p', step.q) && LockLaw(p, p', step.c)
  {
  }

  ghost predicate LawsHold(s: State, s': State, c: nat, q: nat) {
    && c < |s.cpus| == |s'.cpus| && q < |s.procs| == |s'.procs|
    && StateLaw(s.cpus[c], s'.cpus[c], s.procs[q], s'.procs[q], q) && LockLaw(s.procs[q], s'.procs[q], c)
    && (s.procs[q].state != s'.procs[q].state ==> s.procs[q].lock == Some(c))
  }

  /** From one state of a run to the next, some CPU changes each process as the laws say. */
  lemma ProcessLaws(run: seq<State>, k: nat, q: nat) returns (c: nat)
    requires IsRun(run) && 0 < k < |run| && q < |run[k - 1].procs|
    ensures LawsHold(run[k - 1], run[k], c, q)
  {
    RunInv(run, k - 1);
    assert FollowsAt(run, k);
    c := StepLaws(run[k - 1], run[k], q);
  }

  lemma StepLaws(s: State, s': State, q: nat) returns (c: nat)
    requires Inv(s) && Follows(s, s') && q < |s.procs|
    ensures LawsHold(s, s', c, q)
  {
    var step :| Next(s, s', step);
    c := step.c;
    assert CpuOk(s.cpus[c], |s.procs|) && PairOk(s.cpus[c], s.procs[q], c, q);
    if q == step.q {
      ActLaw(step, s.cpus[c], s.procs[q], s'.cpus[c], s'.procs[q], |s.procs|);
    }
  }

  /** A process that starts running was runnable. */
  lemma RunsOnlyRunnable(run: seq<State>, k: nat, q: nat)
    requires IsRun(run) && 0 < k < |run| && q < |run[k - 1].procs| && q < |run[k].procs|
    requires run[k].procs[q].state == Running && run[k - 1].procs[q].state != Running
    ensures run[k - 1].procs[q].state == Runnable
  {
    var c := ProcessLaws(run, k, q);
  }

  /** A zombie stays a zombie until its slot is unused. */
  lemma ZombieEnds(run: seq<State>, k: nat, q: nat)
    requires IsRun(run) && 0 < k < |run| && q < |run[k - 1].procs| && q < |run[k].procs|
    requires run[k - 1].procs[q].state == Zombie
    ensures run[k].procs[q].state == Zombie || run[k].procs[q].state == Unused
  {
    var c := ProcessLaws(run, k, q);
  }

  // ---------- What a CPU does with what it finds ----------

  /** CPU c looks at q or has taken it up, but has not switched to it yet. */
  predicate Serving(u: Cpu, p: Proc, q: nat) {
    (u.ctx == Looking(q) && p.state == Runnable) || u.ctx == Picked(q) || u.ctx == Placed(q)
  }

  lemma ActServing(step: Step, u: Cpu, p: Proc, u': Cpu, p': Proc)
    requires Act(step, u, p, u', p') && Serving(u, p, step.q)
    ensures Serving(u', p', step.q) || OnStack(u'.ctx) == Some(step.q)
  {
  }

  lemma ActLooking(step: Step, u: Cpu, p: Proc, u': Cpu, p': Proc)
    requires Act(step, u, p, u', p') && u.ctx == Looking(step.q) && u'.ctx != u.ctx
    ensures if p.state == Runnable then TakesUp(u, u', step.q) && p'.state == Running
            else u'.ctx == Idle && p'.state == p.state && p'.lock == None
  {
  }

  /** A step of CPU c while it looks at q is about q. */
  lemma ActHeld(step: Step, u: Cpu, p: Proc, u': Cpu, p': Proc, q: nat)
    requires Act(step, u, p, u', p') && step.q != q
    requires u.ctx == Looking(q) || u.ctx == Picked(q) || u.ctx == Placed(q)
    ensures u'.ctx == u.ctx
  {
  }

  /** Another CPU does not change q while c has its lock. */
  lemma ActLocked(step: Step, u: Cpu, p: Proc, u': Cpu, p': Proc, c: nat)
    requires Act(step, u, p, u', p') && PairOk(u, p, step.c, step.q) && step.c != c && p.lock == Some(c)
    ensures p'.state == p.state && p'.lock == p.lock
  {
  }

  lemma ServingStep(s: State, s': State, c: nat, q: nat)
    requires Inv(s) && Follows(s, s') && c < |s.cpus| && q < |s.procs| && Serving(s.cpus[c], s.procs[q], q)
    ensures |s'.cpus| == |s.cpus| && |s'.procs| == |s.procs|
    ensures Serving(s'.cpus[c], s'.procs[q], q) || OnStack(s'.cpus[c].ctx) == Some(q)
  {
    var step :| Next(s, s', step);
    var u, p, u', p' := s.cpus[step.c], s.procs[step.q], s'.cpus[step.c], s'.procs[step.q];
    assert PairOk(s.cpus[c], s.procs[q], c, q) && PairOk(u, p, step.c, step.q);
    if step.c == c && step.q == q {
      ActServing(step, u, p, u', p');
    } else if step.c == c {
      ActHeld(step, u, p, u', p', q);
    } else if step.q == q {
      ActLocked(step, u, p, u', p', c);
    }
  }

  lemma {:induction false} ServedUntil(run: seq<State>, i: nat, j: nat, c: nat, q: nat) returns (m: nat)
    requires IsRun(run) && i < j < |run| && c < |run[i].cpus| && q < |run[i].procs|
    requires Serving(run[i].cpus[c], run[i].procs[q], q)
    ensures i < m <= j && c < |run[m].cpus| && q < |run[m].procs|
    ensures OnStack(run[m].cpus[c].ctx) == Some(q) || (m == j && Serving(run[j].cpus[c], run[j].procs[q], q))
    decreases j - i
  {
    RunInv(run, i);
    assert FollowsAt(run, i + 1);
    ServingStep(run[i], run[i + 1], c, q);
    if OnStack(run[i + 1].cpus[c].ctx) == Some(q) || i + 1 == j {
      m := i + 1;
    } else {
      m := ServedUntil(run, i + 1, j, c, q);
    }
  }

  /** A CPU that finds a runnable process and later is idle has switched to that process in between. */
  lemma FoundRuns(run: seq<State>, i: nat, j: nat, c: nat, q: nat) returns (m: nat)
    requires IsRun(run) && i < j < |run| && c < |run[i].cpus| && c < |run[j].cpus| && q < |run[i].procs|
    requires run[i].cpus[c].ctx == Looking(q) && run[i].procs[q].state == Runnable && run[j].cpus[c].ctx == Idle
    ensures i < m < j && c < |run[m].cpus| && OnStack(run[m].cpus[c].ctx) == Some(q)
  {
    m := ServedUntil(run, i, j, c, q);
  }

  /**
   A CPU that looks at a process, having its lock, takes it up if it is runnable and leaves
   it alone otherwise.
   */
  lemma LookDecides(run: seq<State>, k: nat, c: nat, q: nat)
    requires IsRun(run) && 0 < k < |run| && c < |run[k - 1].cpus| && q < |run[k - 1].procs|
    requires run[k - 1].cpus[c].ctx == Looking(q)
    ensures c < |run[k].cpus| && q < |run[k].procs|
    ensures run[k].cpus[c].ctx != Looking(q) ==>
              if run[k - 1].procs[q].state == Runnable
              then TakesUp(run[k - 1].cpus[c], run[k].cpus[c], q) && run[k].procs[q].state == Running
              else run[k].cpus[c].ctx == Idle && run[k].procs[q].state == run[k - 1].procs[q].state
  {
    RunInv(run, k - 1);
    assert FollowsAt(run, k);
    var s, s' := run[k - 1], run[k];
    var step :| Next(s, s', step);
    if step.c == c && step.q == q && s'.cpus[c].ctx != Looking(q) {
      ActLooking(step, s.cpus[c], s.procs[q], s'.cpus[c], s'.procs[q]);
    } else if step.c == c && step.q != q {
      ActHeld(step, s.cpus[c], s.procs[step.q], s'.cpus[c], s'.procs[step.q], q);
    }
  }

  // ---------- Nobody is stuck ----------

  /** Some step of CPU c takes it elsewhere. */
  ghost predicate CanMove(s: State, c: nat)
    requires c < |s.cpus|
  {
    exists s' :: Follows(s, s') && |s'.cpus| == |s.cpus| && s'.cpus[c].ctx != s.cpus[c].ctx
  }

  lemma CanStep(s: State, step: Step, u': Cpu, p': Proc)
    requires step.c < |s.cpus| && step.q < |s.procs| && u'.ctx != s.cpus[step.c].ctx
    requires Act(step, s.cpus[step.c], s.procs[step.q], u', p')
    ensures CanMove(s, step.c)
  {
    var s' := State(s.cpus[step.c := u'], s.procs[step.q := p']);
    assert s'.cpus[step.c] == u' && s'.procs[step.q] == p';
    assert Next(s, s', step);
  }

  /** In the scheduler and in sched a CPU can always go on; idle it can if some process is unlocked. */
  lemma NotStuck(s: State, c: nat, q: nat)
    requires c < |s.cpus| && q < |s.procs| && !InKernel(s.cpus[c].ctx)
    requires if s.cpus[c].ctx == Idle then s.procs[q].lock == None else Holds(s.cpus[c].ctx) == Some(q)
    ensures CanMove(s, c)
  {
    var u, p := s.cpus[c], s.procs[q];
    var free := u.(noff := u.noff - 1, intr := false);
    var unlocked := p.(lock := None);
    match u.ctx
    case Idle => CanStep(s, SchedLock(c, q), Pushed(u).(ctx := Looking(q)), p.(lock := Some(c)));
    case Looking(_) =>
      if p.state == Runnable {
        CanStep(s, SchedPick(c, q), u.(ctx := Picked(q)), p.(state := Running));
      } else {
        CanStep(s, SchedSkip(c, q), free.(ctx := Idle), unlocked);
      }
    case Picked(_) => CanStep(s, SchedPlace(c, q), u.(proc := Some(q), ctx := Placed(q)), p);
    case Placed(_) => CanStep(s, SwitchIn(c, q), u.(ctx := Entered(q)), p);
    case Entered(_) => CanStep(s, Resume(c, q), free.(ctx := Run(q)), unlocked);
    case Leaving(_) => CanStep(s, SwitchOut(c, q), u.(ctx := Back(q)), p);
    case Back(_) => CanStep(s, SchedClear(c, q), u.(proc := None, ctx := Cleared(q)), p);
    case Cleared(_) => CanStep(s, SchedUnlock(c, q), free.(ctx := Idle), unlocked);
  }

  /** In every state of every run: see NotStuck. */
  lemma NeverStuck(run: seq<State>, k: nat, c: nat)
    requires IsRun(run) && k < |run| && c < |run[k].cpus| && !InKernel(run[k].cpus[c].ctx)
    ensures CanMove(run[k], c) || (run[k].cpus[c].ctx == Idle && forall q :: 0 <= q < |run[k].procs| ==>
              run[k].procs[q].lock.Some?)
  {
    RunInv(run, k);
    var s := run[k];
    assert CpuOk(s.cpus[c], |s.procs|);
    if s.cpus[c].ctx != Idle {
      NotStuck(s, c, Holds(s.cpus[c].ctx).value);
    } else if q: nat :| q < |s.procs| && s.procs[q].lock == None {
      NotStuck(s, c, q);
    }
  }
}

/**
 Scheduling in kernel/proc.zig over any number of CPUs: scheduler, sched, yield,
 sleep, wakeup, exit, wait, fork and kill, seen through process states, process
 locks and cpu.proc.  A process's lock is taken by the scheduler and released by
 the process after the switch, and the other way round on the way back.
 */
module Scheduler {
  import opened Common
  import opened ProcStates

  datatype Proc = Proc(state: ProcState, lock: Option<nat>)  // the CPU holding the lock

  /** What a CPU is doing, up to the next step that matters here. */
  datatype Context =
    | Idle                       // in scheduler(), holding no process lock
    | Looking(q: nat)            // scheduler() holds q's lock
    | Picked(q: nat)             // q's state is now running
    | Placed(q: nat)             // cpu.proc is q, about to switch to it
    | Entered(p: nat)            // on p's kernel stack, lock not yet released
    | Run(p: nat)                // running p, holding no process lock
    | Other(p: nat, q: nat)      // running p, holding q's lock
    | Own(p: nat)                // running p, holding its own lock
    | Leaving(p: nat)            // p's state changed, about to call swtch
    | Back(p: nat)               // in scheduler() again
    | Cleared(p: nat)            // cpu.proc is null, lock not yet released

  /** locks counts the spin locks held besides a process's; noff and intr are push_off's depth and the enable bit. */
  datatype Cpu = Cpu(proc: Option<nat>, ctx: Context, locks: nat, noff: int, intr: bool)

  datatype State = State(cpus: seq<Cpu>, procs: seq<Proc>)

  /** The process whose lock a CPU holds */
  function Holds(x: Context): (q: Option<nat>) {
    match x
    case Idle => None
    case Run(_) => None
    case Other(_, q) => Some(q)
    case Looking(q) => Some(q)
    case Picked(q) => Some(q)
    case Placed(q) => Some(q)
    case Entered(p) => Some(p)
    case Own(p) => Some(p)
    case Leaving(p) => Some(p)
    case Back(p) => Some(p)
    case Cleared(p) => Some(p)
  }

  /** The process on whose kernel stack a CPU runs */
  function OnStack(x: Context): (p: Option<nat>) {
    if x.Entered? || x.Run? || x.Other? || x.Own? || x.Leaving? then Some(x.p) else None
  }

  /** What cpu.proc is */
  function Current(x: Context): (p: Option<nat>) {
    if x.Placed? then Some(x.q)
    else if OnStack(x).Some? || x.Back? then Some(x.p)
    else None
  }

  /** The process a CPU runs, is about to run, or has just stopped running */
  function Subject(x: Context): (p: Option<nat>) {
    if x.Picked? || x.Placed? then Some(x.q)
    else if x.Idle? || x.Looking? then None
    else Some(x.p)
  }

  /** While a CPU does this its subject is running */
  predicate Executes(x: Context) {
    x.Picked? || x.Placed? || x.Entered? || x.Run? || x.Other? || x.Own?
  }

  // ---------- Steps ----------

  /** Steps of CPU c; q is the process whose record the step reads or changes. */
  datatype Step =
    | SchedLock(c: nat, q: nat)
    | SchedSkip(c: nat, q: nat)
    | SchedPick(c: nat, q: nat)
    | SchedPlace(c: nat, q: nat)
    | SwitchIn(c: nat, q: nat)
    | Resume(c: nat, q: nat)       // the process releases the lock the scheduler took
    | LockOwn(c: nat, q: nat)      // yield, sleep, exit, or killing itself
    | UnlockOwn(c: nat, q: nat)
    | Leave(c: nat, q: nat, st: ProcState)
    | SwitchOut(c: nat, q: nat)
    | SchedClear(c: nat, q: nat)
    | SchedUnlock(c: nat, q: nat)  // the scheduler releases the lock the process took
    | LockOther(c: nat, q: nat)
    | Change(c: nat, q: nat, st: ProcState)
    | UnlockOther(c: nat, q: nat)
    | Acquire(c: nat, q: nat)      // some other spin lock
    | Release(c: nat, q: nat)
    | Interrupts(c: nat, q: nat)   // intr_on, intr_off, or the hardware around a trap

  /** What a process may do to another one whose lock it holds: wakeup and kill, wait, allocproc, fork */
  predicate Allowed(was: ProcState, st: ProcState) {
    || (was == Sleeping && st == Runnable)
    || (was == Zombie && st == Unused)
    || (was == Unused && st == Used)
    || (was == Used && st == Runnable)
  }

  /** push_off, as acquire calls it */
  function Pushed(u: Cpu): (u': Cpu) {
    u.(noff := u.noff + 1, intr := false)
  }

  /** pop_off, as release calls it: the last one may turn interrupts on. */
  predicate Popped(u: Cpu, u': Cpu) {
    u' == u.(noff := u.noff - 1, intr := u'.intr) && (u'.intr ==> u.intr || u.noff == 1)
  }

  /** The CPU may take and release other locks. */
  predicate InKernel(x: Context) {
    x.Run? || x.Own? || x.Other?
  }

  /** The step takes the CPU from u to u' and process q from p to p'. */
  predicate Act(step: Step, u: Cpu, p: Proc, u': Cpu, p': Proc) {
    var q := step.q;
    var x := u.ctx;
    var locked, unlocked := p.(lock := Some(step.c)), p.(lock := None);
    var taken, same := Pushed(u), u'.(ctx := x);
    match step
    case SchedLock(_, _) => x == Idle && p.lock == None && u' == taken.(ctx := Looking(q)) && p' == locked
    case SchedSkip(_, _) => x == Looking(q) && p.state != Runnable && u'.ctx == Idle && Popped(u, same) &&
      p' == unlocked
    case SchedPick(_, _) => x == Looking(q) && p.state == Runnable && u' == u.(ctx := Picked(q)) &&
      p' == p.(state := Running)
    case SchedPlace(_, _) => x == Picked(q) && u' == u.(proc := Some(q), ctx := Placed(q)) && p' == p
    case SwitchIn(_, _) => x == Placed(q) && u' == u.(ctx := Entered(q)) && p' == p
    case Resume(_, _) => x == Entered(q) && u'.ctx == Run(q) && Popped(u, same) && p' == unlocked
    case LockOwn(_, _) => x == Run(q) && p.lock == None && u' == taken.(ctx := Own(q)) && p' == locked
    case UnlockOwn(_, _) => x == Own(q) && u'.ctx == Run(q) && Popped(u, same) && p' == unlocked
    case Leave(_, _, st) => x == Own(q) && u.locks == 0 && (st.Runnable? || st.Sleeping? || st.Zombie?) &&
      u' == u.(ctx := Leaving(q)) && p' == p.(state := st)
    case SwitchOut(_, _) => x == Leaving(q) && u' == u.(ctx := Back(q)) && p' == p
    case SchedClear(_, _) => x == Back(q) && u' == u.(proc := None, ctx := Cleared(q)) && p' == p
    case SchedUnlock(_, _) => x == Cleared(q) && u'.ctx == Idle && Popped(u, same) && p' == unlocked
    case LockOther(_, _) => x.Run? && x.p != q && p.lock == None && u' == taken.(ctx := Other(x.p, q)) && p' == locked
    case Change(_, _, st) => x.Other? && x.q == q && Allowed(p.state, st) && u' == u && p' == p.(state := st)
    case UnlockOther(_, _) => x.Other? && x.q == q && u'.ctx == Run(x.p) && Popped(u, same) && p' == unlocked
    case Acquire(_, _) => InKernel(x) && u' == taken.(locks := u.locks + 1) && p' == p
    case Release(_, _) => InKernel(x) && u.locks > 0 && Popped(u.(locks := u.locks - 1), u') && p' == p
    case Interrupts(_, _) => u.noff == 0 && u' == u.(intr := u'.intr) && p' == p
  }

  ghost predicate Next(s: State, s': State, step: Step) {
    && step.c < |s.cpus| == |s'.cpus| && step.q < |s.procs| == |s'.procs|
    && s' == State(s.cpus[step.c := s'.cpus[step.c]], s.procs[step.q := s'.procs[step.q]])
    && Act(step, s.cpus[step.c], s.procs[step.q], s'.cpus[step.c], s'.procs[step.q])
  }

  ghost predicate Init(s: State) {
    && (forall c :: 0 <= c < |s.cpus| ==> s.cpus[c] == Cpu(None, Idle, 0, 0, false))
    && forall p :: 0 <= p < |s.procs| ==>
       s.procs[p].lock == None && (s.procs[p].state == Unused || s.procs[p].state == Runnable)
  }

  // ---------- The invariant ----------

  /** cpu.proc and noff agree with what the CPU does. */
  predicate CpuOk(u: Cpu, n: nat) {
    CpuAgrees(u, n) && LocksOk(u)
  }

  predicate CpuAgrees(u: Cpu, n: nat) {
    && u.proc == Current(u.ctx)
    && (Subject(u.ctx).Some? ==> Subject(u.ctx).value < n) && (Holds(u.ctx).Some? ==> Holds(u.ctx).value < n)
    && (u.ctx.Other? ==> u.ctx.p != u.ctx.q)
  }

  /** noff counts the locks that this CPU holds, also across swtch, and interrupts are off while it holds one. */
  predicate LocksOk(u: Cpu) {
    && u.noff == u.locks + (if Holds(u.ctx).Some? then 1 else 0)
    && (u.intr ==> u.noff == 0)
    && (u.locks > 0 ==> InKernel(u.ctx))
  }

  /** CPU c and process q agree on who holds q's lock and on whether q is running. */
  predicate PairOk(u: Cpu, p: Proc, c: nat, q: nat) {
    && (p.lock == Some(c) <==> Holds(u.ctx) == Some(q))
    && (Subject(u.ctx) == Some(q) ==> (p.state == Running <==> Executes(u.ctx)))
  }

  predicate Apart(u: Cpu, v: Cpu) {
    Subject(u.ctx).Some? ==> Subject(u.ctx) != Subject(v.ctx)
  }

  predicate RunsOn(s: State, p: nat, c: nat) {
    c < |s.cpus| && Executes(s.cpus[c].ctx) && Subject(s.cpus[c].ctx) == Some(p)
  }

  ghost predicate Inv(s: State) {
    && (forall c :: 0 <= c < |s.cpus| ==> CpuOk(s.cpus[c], |s.procs|))
    && (forall c, q :: 0 <= c < |s.cpus| && 0 <= q < |s.procs| ==> PairOk(s.cpus[c], s.procs[q], c, q))
    && (forall c, d :: 0 <= c < |s.cpus| && 0 <= d < |s.cpus| && c != d ==> Apart(s.cpus[c], s.cpus[d]))
    && (forall p :: 0 <= p < |s.procs| && s.procs[p].state == Running ==> exists c :: RunsOn(s, p, c))
  }

  // ---------- Every step keeps it ----------

  lemma ActSelf(step: Step, u: Cpu, p: Proc, u': Cpu, p': Proc, n: nat)
    requires Act(step, u, p, u', p') && step.q < n
    requires CpuAgrees(u, n) && PairOk(u, p, step.c, step.q)
    ensures CpuAgrees(u', n) && PairOk(u', p', step.c, step.q)
  {
  }

  lemma ActLocks(step: Step, u: Cpu, p: Proc, u': Cpu, p': Proc)
    requires Act(step, u, p, u', p') && LocksOk(u)
    ensures LocksOk(u')
  {
  }

  lemma ActOtherProc(step: Step, u: Cpu, p: Proc, u': Cpu, p': Proc, r: nat, other: Proc)
    requires Act(step, u, p, u', p') && r != step.q
    requires PairOk(u, other, step.c, r)
    ensures PairOk(u', other, step.c, r)
  {
  }

  lemma ActOtherCpu(step: Step, u: Cpu, p: Proc, u': Cpu, p': Proc, d: nat, v: Cpu)
    requires Act(step, u, p, u', p') && d != step.c
    requires PairOk(u, p, step.c, step.q) && PairOk(v, p, d, step.q) && Apart(u, v) && Apart(v, u)
    ensures PairOk(v, p', d, step.q) && Apart(u', v) && Apart(v, u')
  {
  }

  /** Only the process a step acts on starts or stops running. */
  lemma ActRunning(step: Step, u: Cpu, p: Proc, u': Cpu, p': Proc)
    requires Act(step, u, p, u', p')
    requires PairOk(u, p, step.c, step.q)
    ensures p'.state == Running && p.state != Running ==> Executes(u'.ctx) && Subject(u'.ctx) == Some(step.q)
    ensures Executes(u.ctx) && !(Executes(u'.ctx) && Subject(u'.ctx) == Subject(u.ctx)) ==>
              Subject(u.ctx) == Some(step.q) && p'.state != Running
  {
  }

  lemma NextKeeps(s: State, s': State, step: Step)
    requires Inv(s) && Next(s, s', step)
    ensures Inv(s')
  {
    var c, q := step.c, step.q;
    var u, p, u', p' := s.cpus[c], s.procs[q], s'.cpus[c], s'.procs[q];
    assert CpuOk(u, |s.procs|) && PairOk(u, p, c, q);
    ActSelf(step, u, p, u', p', |s.procs|);
    ActLocks(step, u, p, u', p');
    forall r | 0 <= r < |s.procs| && r != q
      ensures PairOk(u', s.procs[r], c, r)
    {
      ActOtherProc(step, u, p, u', p', r, s.procs[r]);
    }
    forall d | 0 <= d < |s.cpus| && d != c
      ensures PairOk(s.cpus[d], p', d, q) && Apart(u', s.cpus[d]) && Apart(s.cpus[d], u')
    {
      ActOtherCpu(step, u, p, u', p', d, s.cpus[d]);
    }
    RunningKept(s, s', step);
  }

  lemma RunningKept(s: State, s': State, step: Step)
    requires Inv(s) && Next(s, s', step)
    ensures forall p :: 0 <= p < |s'.procs| && s'.procs[p].state == Running ==> exists c :: RunsOn(s', p, c)
  {
    forall p | 0 <= p < |s'.procs| && s'.procs[p].state == Running
      ensures exists c :: RunsOn(s', p, c)
    {
      var c := step.c;
      ActRunning(step, s.cpus[c], s.procs[step.q], s'.cpus[c], s'.procs[step.q]);
      if s.procs[p].state == Running {
        var d :| RunsOn(s, p, d);
        assert RunsOn(s', p, d);
      } else {
        assert RunsOn(s', p, c);
      }
    }
  }

  ghost predicate Follows(s: State, s': State) {
    exists step :: Next(s, s', step)
  }

  ghost predicate IsRun(run: seq<State>) {
    && |run| > 0
    && Init(run[0])
    && forall k :: 0 < k < |run| ==> FollowsAt(run, k)
  }

  /** State k of a run follows from the one before. */
  ghost predicate FollowsAt(run: seq<State>, k: nat)
    requires 0 < k < |run|
  {
    Follows(run[k - 1], run[k])
  }

  lemma {:induction false} RunInv(run: seq<State>, k: nat)
    requires IsRun(run) && k < |run|
    ensures Inv(run[k])
  {
    if k > 0 {
      RunInv(run, k - 1);
      assert FollowsAt(run, k);
      var step :| Next(run[k - 1], run[k], step);
      NextKeeps(run[k - 1], run[k], step);
    }
  }

  // ---------- What scheduling promises ----------

  /** No process is current on two CPUs, and no kernel stack is used by two. */
  lemma OneCpuPerProcess(run: seq<State>, k: nat, c: nat, d: nat)
    requires IsRun(run) && k < |run| && c < |run[k].cpus| && d < |run[k].cpus| && c != d
    ensures run[k].cpus[c].proc.Some? ==> run[k].cpus[c].proc != run[k].cpus[d].proc
    ensures OnStack(run[k].cpus[c].ctx).Some? ==> OnStack(run[k].cpus[c].ctx) != OnStack(run[k].cpus[d].ctx)
  {
    RunInv(run, k);
    var u, v := run[k].cpus[c], run[k].cpus[d];
    assert CpuOk(u, |run[k].procs|) && CpuOk(v, |run[k].procs|) && Apart(u, v);
  }

  /** While its lock is free, a process is running exactly when some CPU has it as current. */
  lemma RunningIsCurrent(run: seq<State>, k: nat, p: nat)
    requires IsRun(run) && k < |run| && p < |run[k].procs| && run[k].procs[p].lock == None
    ensures run[k].procs[p].state == Running <==> exists c :: 0 <= c < |run[k].cpus| && run[k].cpus[c].proc == Some(p)
  {
    RunInv(run, k);
    var s := run[k];
    forall c | 0 <= c < |s.cpus|
      ensures s.cpus[c].proc == Some(p) <==> RunsOn(s, p, c)
    {
      assert CpuOk(s.cpus[c], |s.procs|) && PairOk(s.cpus[c], s.procs[p], c, p);
    }
    if s.procs[p].state == Running {
      var c: nat :| RunsOn(s, p, c);
      assert s.cpus[c].proc == Some(p);
    }
    if c :| 0 <= c < |s.cpus| && s.cpus[c].proc == Some(p) {
      assert PairOk(s.cpus[c], s.procs[p], c, p);
    }
  }

  /**
   None of sched's panics: it is entered only with the process's own lock held by this CPU
   and no other, its state changed, and interrupts off.
   */
  lemma SchedNeverPanics(run: seq<State>, k: nat, c: nat)
    requires IsRun(run) && k < |run| && c < |run[k].cpus| && run[k].cpus[c].ctx.Leaving?
    ensures run[k].cpus[c].ctx.p < |run[k].procs| && run[k].cpus[c].proc == Some(run[k].cpus[c].ctx.p)
    ensures run[k].procs[run[k].cpus[c].ctx.p].lock == Some(c)
    ensures run[k].procs[run[k].cpus[c].ctx.p].state != Running
    ensures run[k].cpus[c].noff == 1 && !run[k].cpus[c].intr
  {
    RunInv(run, k);
    var u := run[k].cpus[c];
    assert CpuOk(u, |run[k].procs|);
    assert PairOk(u, run[k].procs[u.ctx.p], c, u.ctx.p);
  }

  /** None of pop_off's panics: a CPU that releases a lock has push_off to undo and interrupts off. */
  lemma PopNeverPanics(run: seq<State>, k: nat, c: nat)
    requires IsRun(run) && k < |run| && c < |run[k].cpus|
    requires Holds(run[k].cpus[c].ctx).Some? || run[k].cpus[c].locks > 0
    ensures run[k].cpus[c].noff >= 1 && !run[k].cpus[c].intr
  {
    RunInv(run, k);
    assert CpuOk(run[k].cpus[c], |run[k].procs|);
  }

  /** The scheduler switches only to a process whose stack no CPU uses, so its saved context is complete. */
  lemma SwitchOnlyToSaved(run: seq<State>, k: nat, c: nat, d: nat)
    requires IsRun(run) && k < |run| && c < |run[k].cpus| && d < |run[k].cpus| && run[k].cpus[c].ctx.Placed?
    ensures OnStack(run[k].cpus[d].ctx) != Some(run[k].cpus[c].ctx.q)
    ensures run[k].cpus[c].ctx.q < |run[k].procs| && run[k].procs[run[k].cpus[c].ctx.q].state == Running
  {
    RunInv(run, k);
    var u := run[k].cpus[c];
    assert CpuOk(u, |run[k].procs|);
    assert PairOk(u, run[k].procs[u.ctx.q], c, u.ctx.q);
    assert c != d ==> Apart(u, run[k].cpus[d]);
  }
}

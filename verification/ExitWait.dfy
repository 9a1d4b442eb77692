/**
 exit, wait, fork, sleep, wakeup and kill of kernel/proc.zig as threads that
 interleave at every lock operation: no zombie is ever lost to a sleeping parent.

 Process slots are numbered; a channel below the table size is the address of that
 slot, as wait sleeps on, and any other number is some other object.
 */
module ExitWait {
  import opened Common
  import opened ProcStates

  /** Where a thread goes on after it was switched out. */
  datatype Resume = ToUser | FromSleep | ToWait | Never

  /** Where a thread goes on after a call of wakeup. */
  datatype After = Done | Reparent(j: nat) | BecomeZombie

  datatype Pc =
    | Off(next: Resume)                           // not on a CPU
    | In(next: Resume)                            // just switched to, own lock held
    | User                                        // holds no lock of interest
    | YieldLocked
    | SleepLocked(chan: nat)
    | Leave(next: Resume)                         // own lock held, about to switch out
    | Waking(chan: nat, k: nat, after: After)     // the loop of wakeup
    | WakeLocked(chan: nat, k: nat, after: After)
    | Killing(k: nat)
    | Exiting(k: nat)                             // the loop of reparent
    | ExitLock | ExitLocked | ExitDone
    | WaitAgain                                   // wants wait_lock
    | WaitScan(k: nat, kids: bool)                // the loop of wait
    | WaitLocked(k: nat, kids: bool)
    | WaitLockSelf                                // sleep(p, &wait_lock) up to sched
    | WaitOwn
    | WaitFree
    | WaitDone
    | ForkLocked(k: nat) | ForkMade(k: nat) | ForkParent(k: nat) | ForkHave(k: nat)
    | ForkSet(k: nat) | ForkStart(k: nat) | ForkStarting(k: nat)

  datatype Holder = Thread(p: nat) | Kernel       // Kernel: some CPU's scheduler

  datatype Proc = Proc(
    state: ProcState,
    chan: Option<nat>,
    parent: Option<nat>,
    killed: bool,
    lock: Option<Holder>,
    pc: Pc,
    exits: nat,   // how often this slot's process became a zombie
    reaps: nat    // how often a zombie was freed from this slot
  )

  datatype State = State(procs: seq<Proc>, waitLock: Option<nat>)

  // ---------- Steps of one thread on its own record ----------

  datatype Step =
    | SchedLock | SchedUnlock | SchedPick | Resumes | YieldLock | Yield | SleepLock(ch: nat) | Sleep | SwitchOut
    | WakeStart(ch: nat) | WakeSkip | WakeEnd
    | ExitStart | ExitSkip | ExitParent | ExitLockOwn | ExitZombie | ExitRelease
    | WaitStart | WaitTake | WaitSkip | WaitEnd | WaitLockOwn | WaitUnlock | WaitSleep | WaitReturn
    | ForkTake | ForkRelease
    // with a second process
    | WakeLock | WakeIt | KillLock | KillIt | ReparentOne | WaitLook | WaitPass | WaitReap | WaitFail
    | ForkLook | ForkBusy | ForkAlloc | ForkUnlock | ForkAdopt | ForkStartLock | ForkRun

  predicate Locks(p: nat, a: Proc, b: Proc, pc: Pc) {
    a.lock == None && b == a.(lock := Some(Thread(p)), pc := pc)
  }

  /** Where the thread goes on when its wakeup loop is over */
  function Onward(after: After): (pc: Pc) {
    match after
    case Done => User
    case Reparent(j) => Exiting(j)
    case BecomeZombie => ExitLock
  }

  // Thread p of n changes its record from a to b and wait_lock from w to w'; init is initproc.

  /** The scheduler, yield and sleep */
  predicate Runs(step: Step, n: nat, init: nat, p: nat, a: Proc, w: Option<nat>, b: Proc, w': Option<nat>) {
    match step
    case SchedLock => a.lock == None && b == a.(lock := Some(Kernel)) && w' == w
    case SchedUnlock => a.lock == Some(Kernel) && b == a.(lock := None) && w' == w
    case SchedPick =>
      a.lock == Some(Kernel) && a.state == Runnable && a.pc.Off? &&
      b == a.(state := Running, lock := Some(Thread(p)), pc := In(a.pc.next)) && w' == w
    case Resumes =>
      a.pc.In? && w' == w &&
      b == a.(lock := None, chan := if a.pc.next == ToUser then a.chan else None,
              pc := if a.pc.next == ToWait then WaitAgain else User)
    case YieldLock => a.pc == User && Locks(p, a, b, YieldLocked) && w' == w
    case Yield => a.pc == YieldLocked && b == a.(state := Runnable, pc := Leave(ToUser)) && w' == w
    case SleepLock(ch) => a.pc == User && ch >= n && Locks(p, a, b, SleepLocked(ch)) && w' == w
    case Sleep => a.pc.SleepLocked? && b == a.(chan := Some(a.pc.chan), state := Sleeping, pc := Leave(FromSleep)) &&
      w' == w
    case SwitchOut => a.pc.Leave? && b == a.(lock := Some(Kernel), pc := Off(a.pc.next)) && w' == w
    case _ => false
  }

  /** wakeup and exit */
  predicate Exits(step: Step, n: nat, init: nat, p: nat, a: Proc, w: Option<nat>, b: Proc, w': Option<nat>) {
    match step
    case WakeStart(ch) => a.pc == User && b == a.(pc := Waking(ch, 0, Done)) && w' == w
    case WakeSkip => a.pc.Waking? && a.pc.k == p && b == a.(pc := Waking(a.pc.chan, p + 1, a.pc.after)) && w' == w
    case WakeEnd => a.pc.Waking? && a.pc.k == n && b == a.(pc := Onward(a.pc.after)) && w' == w
    case ExitStart => a.pc == User && p != init && w == None && b == a.(pc := Exiting(0)) && w' == Some(p)
    case ExitSkip => a.pc == Exiting(p) && b == a.(pc := Exiting(p + 1)) && w' == w
    case ExitParent => a.pc == Exiting(n) && a.parent.Some? &&
      b == a.(pc := Waking(a.parent.value, 0, BecomeZombie)) && w' == w
    case ExitLockOwn => a.pc == ExitLock && Locks(p, a, b, ExitLocked) && w' == w
    case ExitZombie => a.pc == ExitLocked && b == a.(state := Zombie, exits := a.exits + 1, pc := ExitDone) && w' == w
    case ExitRelease => a.pc == ExitDone && b == a.(pc := Leave(Never)) && w' == None
    case _ => false
  }

  /** wait and fork */
  predicate Waits(step: Step, n: nat, init: nat, p: nat, a: Proc, w: Option<nat>, b: Proc, w': Option<nat>) {
    match step
    case WaitStart => a.pc == User && b == a.(pc := WaitAgain) && w' == w
    case WaitTake => a.pc == WaitAgain && w == None && b == a.(pc := WaitScan(0, false)) && w' == Some(p)
    case WaitSkip => a.pc.WaitScan? && a.pc.k == p && b == a.(pc := WaitScan(p + 1, a.pc.kids)) && w' == w
    case WaitEnd =>
      a.pc.WaitScan? && a.pc.k == n && w' == w &&
      b == a.(pc := if !a.pc.kids || a.killed then WaitDone else WaitLockSelf)
    case WaitLockOwn => a.pc == WaitLockSelf && Locks(p, a, b, WaitOwn) && w' == w
    case WaitUnlock => a.pc == WaitOwn && b == a.(pc := WaitFree) && w' == None
    case WaitSleep => a.pc == WaitFree && b == a.(chan := Some(p), state := Sleeping, pc := Leave(ToWait)) && w' == w
    case WaitReturn => a.pc == WaitDone && b == a.(pc := User) && w' == None
    case ForkTake => a.pc.ForkParent? && w == None && b == a.(pc := ForkHave(a.pc.k)) && w' == Some(p)
    case ForkRelease => a.pc.ForkSet? && b == a.(pc := ForkStart(a.pc.k)) && w' == None
    case _ => false
  }

  predicate Solo(step: Step, n: nat, init: nat, p: nat, a: Proc, w: Option<nat>, b: Proc, w': Option<nat>) {
    Runs(step, n, init, p, a, w, b, w') || Exits(step, n, init, p, a, w, b, w') || Waits(step, n, init, p, a, w, b, w')
  }

  // ---------- Steps of thread p that read or change process q ----------

  /** Waking a sleeper: the state change of wakeup and kill */
  function Woken(e: Proc): (r: Proc) {
    if e.state == Sleeping then e.(state := Runnable) else e
  }

  predicate Duo(step: Step, init: nat, p: nat, a: Proc, q: nat, e: Proc, b: Proc, f: Proc) {
    match step
    case WakeLock => a.pc.Waking? && a.pc.k == q && Locks(p, e, f, e.pc) &&
      b == a.(pc := WakeLocked(a.pc.chan, q, a.pc.after))
    case WakeIt =>
      a.pc.WakeLocked? && a.pc.k == q && b == a.(pc := Waking(a.pc.chan, q + 1, a.pc.after)) &&
      f == (if e.chan == Some(a.pc.chan) then Woken(e) else e).(lock := None)
    case KillLock => a.pc == User && Locks(p, e, f, e.pc) && b == a.(pc := Killing(q))
    case KillIt => a.pc == Killing(q) && b == a.(pc := User) && f == Woken(e).(killed := true, lock := None)
    case ReparentOne =>
      a.pc == Exiting(q) &&
      if e.parent == Some(p)
      then b == a.(pc := Waking(init, 0, Reparent(q + 1))) && f == e.(parent := Some(init))
      else b == a.(pc := Exiting(q + 1)) && f == e
    case WaitLook =>
      a.pc.WaitScan? && a.pc.k == q &&
      if e.parent == Some(p)
      then Locks(p, e, f, e.pc) && b == a.(pc := WaitLocked(q, a.pc.kids))
      else b == a.(pc := WaitScan(q + 1, a.pc.kids)) && f == e
    case WaitPass => a.pc.WaitLocked? && a.pc.k == q && e.state != Zombie && b == a.(pc := WaitScan(q + 1, true)) &&
      f == e.(lock := None)
    case WaitReap =>
      a.pc.WaitLocked? && a.pc.k == q && e.state == Zombie && b == a.(pc := WaitDone) &&
      f == e.(state := Unused, chan := None, parent := None, killed := false, lock := None, reaps := e.reaps + 1)
    case WaitFail => a.pc.WaitLocked? && a.pc.k == q && e.state == Zombie && b == a.(pc := WaitDone) &&
      f == e.(lock := None)
    case ForkLook => a.pc == User && Locks(p, e, f, e.pc) && b == a.(pc := ForkLocked(q))
    case ForkBusy => a.pc == ForkLocked(q) && e.state != Unused && b == a.(pc := User) && f == e.(lock := None)
    case ForkAlloc => a.pc == ForkLocked(q) && e.state == Unused && b == a.(pc := ForkMade(q)) &&
      f == e.(state := Used, pc := Off(ToUser))
    case ForkUnlock => a.pc == ForkMade(q) && b == a.(pc := ForkParent(q)) && f == e.(lock := None)
    case ForkAdopt => a.pc == ForkHave(q) && b == a.(pc := ForkSet(q)) && f == e.(parent := Some(p))
    case ForkStartLock => a.pc == ForkStart(q) && Locks(p, e, f, e.pc) && b == a.(pc := ForkStarting(q))
    case ForkRun => a.pc == ForkStarting(q) && b == a.(pc := User) && f == e.(state := Runnable, lock := None)
    case _ => false
  }

  ghost predicate Alone(s: State, s': State, step: Step, init: nat, p: nat) {
    && p < |s.procs| == |s'.procs|
    && s'.procs == s.procs[p := s'.procs[p]]
    && Solo(step, |s.procs|, init, p, s.procs[p], s.waitLock, s'.procs[p], s'.waitLock)
  }

  ghost predicate Both(s: State, s': State, step: Step, init: nat, p: nat, q: nat) {
    && p < |s.procs| == |s'.procs| && q < |s.procs| && p != q
    && s' == State(s.procs[p := s'.procs[p]][q := s'.procs[q]], s.waitLock)
    && Duo(step, init, p, s.procs[p], q, s.procs[q], s'.procs[p], s'.procs[q])
  }

  ghost predicate Follows(s: State, s': State, init: nat) {
    || (exists step, p :: Alone(s, s', step, init, p))
    || (exists step, p, q :: Both(s, s', step, init, p, q))
  }

  ghost predicate Init(s: State, init: nat) {
    && init < |s.procs| && s.waitLock == None
    && forall p :: 0 <= p < |s.procs| ==>
        s.procs[p] == Proc(if p == init then Runnable else Unused, None, None, false, None, Off(ToUser), 0, 0)
  }

  // ---------- The invariant ----------

  predicate HoldsWait(pc: Pc) {
    || pc.Exiting? || pc.ExitLock? || pc.ExitLocked? || pc.ExitDone?
    || ((pc.Waking? || pc.WakeLocked?) && pc.after != Done)
    || pc.WaitScan? || pc.WaitLocked? || pc.WaitLockSelf? || pc.WaitOwn? || pc.WaitDone?
    || pc.ForkHave? || pc.ForkSet?
  }

  predicate HoldsOwn(pc: Pc) {
    pc.In? || pc.YieldLocked? || pc.SleepLocked? || pc.Leave? || pc.ExitLocked? || pc.ExitDone? || pc.WaitOwn? ||
        pc.WaitFree?
  }

  predicate HoldsOther(pc: Pc, q: nat) {
    (pc.WakeLocked? || pc.Killing? || pc.WaitLocked? || pc.ForkLocked? || pc.ForkMade? || pc.ForkStarting?) && pc.k == q
  }

  /** The slot that the thread is making into its child */
  function Child(pc: Pc): (q: Option<nat>) {
    if pc.ForkMade? || pc.ForkParent? || pc.ForkHave? || pc.ForkSet? || pc.ForkStart? || pc.ForkStarting?
        then Some(pc.k) else None
  }

  predicate ForkedParent(pc: Pc, q: nat) {
    (pc.ForkSet? || pc.ForkStart? || pc.ForkStarting?) && pc.k == q
  }

  predicate Wakes(pc: Pc, after: After) {
    (pc.Waking? || pc.WakeLocked?) && pc.after == after
  }

  predicate InExit(pc: Pc) {
    || pc.Exiting? || pc.ExitLock? || pc.ExitLocked? || pc.ExitDone?
    || ((pc.Waking? || pc.WakeLocked?) && pc.after != Done)
  }

  /** Slot p sleeps in wait, or holds its own lock on the way to sleep, wait_lock already released. */
  predicate Asleep(a: Proc, p: nat) {
    (a.state == Sleeping && a.chan == Some(p)) || a.pc == WaitFree
  }

  /** reparent's wakeup has yet to reach initproc. */
  predicate Pending(pc: Pc, init: nat) {
    (pc.Waking? || pc.WakeLocked?) && pc.after.Reparent? && pc.k <= init
  }

  predicate Live(st: ProcState) {
    st == Sleeping || st == Runnable || st == Running || st == Zombie
  }

  /** Which locks the thread holds */
  predicate Holding(a: Proc, p: nat, w: Option<nat>) {
    && (HoldsWait(a.pc) <==> w == Some(p))
    && (HoldsOwn(a.pc) ==> a.lock == Some(Thread(p)))
  }

  predicate Phase(a: Proc, p: nat) {
    && (a.state != Running ==> a.pc.Off? || a.pc.Leave? || a.pc.ExitDone?)
    && (a.pc.ExitDone? ==> a.state == Zombie)
    && (a.pc.SleepLocked? ==> a.pc.chan != p)
    && (a.state == Unused || a.state == Used ==> a.pc.Off?)
    && a.exits == a.reaps + (if a.state == Zombie then 1 else 0)
  }

  predicate Family(a: Proc, p: nat, init: nat) {
    && (Live(a.state) && p != init ==> a.parent.Some?)
    && a.parent != Some(p) && (p == init ==> a.parent == None && Live(a.state) && a.state != Zombie)
    && (InExit(a.pc) ==> p != init)
    && ((a.pc.Waking? || a.pc.WakeLocked?) && a.pc.after.Reparent? ==> a.pc.chan == init)
    && (Wakes(a.pc, BecomeZombie) ==> a.parent == Some(a.pc.chan))
  }

  predicate SelfOk(a: Proc, p: nat, w: Option<nat>, init: nat) {
    Holding(a, p, w) && Phase(a, p) && Family(a, p, init)
  }

  /** Thread p holds q's lock, or is making q into its child. */
  predicate KnowsLock(a: Proc, p: nat, e: Proc, q: nat) {
    && (HoldsOther(a.pc, q) ==> e.lock == Some(Thread(p)))
    && (Child(a.pc) == Some(q) ==> e.state == Used)
    && (ForkedParent(a.pc, q) ==> e.parent.Some?)
  }

  /** Thread p, inside wait, has seen that its child q is no zombie. */
  predicate KnowsChild(a: Proc, p: nat, e: Proc, q: nat) {
    && ((a.pc.WaitScan? || a.pc.WaitLocked?) && q < a.pc.k && e.parent == Some(p) ==> e.state != Zombie)
    && ((a.pc.WaitLockSelf? || a.pc.WaitOwn?) && e.parent == Some(p) ==> e.state != Zombie)
    && (a.pc.WaitLocked? && a.pc.k == q ==> e.parent == Some(p))
  }

  /** Thread p, inside exit, has woken q. */
  predicate KnowsAwake(a: Proc, e: Proc, q: nat) {
    && ((a.pc.Waking? || a.pc.WakeLocked?) && a.pc.after != Done && a.pc.chan == q && q < a.pc.k ==> !Asleep(e, q))
    && ((a.pc.ExitLock? || a.pc.ExitLocked?) && a.parent == Some(q) ==> !Asleep(e, q))
  }

  predicate Knows(a: Proc, p: nat, e: Proc, q: nat) {
    KnowsLock(a, p, e, q) && KnowsChild(a, p, e, q) && KnowsAwake(a, e, q)
  }

  /** Two threads never make the same slot into a child. */
  predicate ForkApart(a: Proc, e: Proc) {
    Child(a.pc).Some? ==> Child(a.pc) != Child(e.pc)
  }

  /** Only initproc may sleep over a zombie child, and only until reparent's wakeup has come to it. */
  predicate NotLost(a: Proc, p: nat, e: Proc, init: nat, pending: bool) {
    Asleep(a, p) && e.parent == Some(p) && e.state == Zombie ==> p == init && pending
  }

  predicate PairOk(a: Proc, p: nat, e: Proc, q: nat, init: nat, pending: bool) {
    Knows(a, p, e, q) && ForkApart(a, e) && NotLost(a, p, e, init, pending)
  }

  // ---------- One thread's own steps ----------

  lemma RunsSelf(step: Step, n: nat, init: nat, p: nat, a: Proc, w: Option<nat>, b: Proc, w': Option<nat>)
    requires Runs(step, n, init, p, a, w, b, w') && p < n && SelfOk(a, p, w, init)
    ensures SelfOk(b, p, w', init)
    ensures a.state == Zombie ==> b.state == Zombie
    ensures init < n && Pending(a.pc, init) ==> Pending(b.pc, init)
    ensures w.Some? && (w == Some(p) ==> Pending(a.pc, init)) && init < n ==> w' == w
  {
  }

  lemma RunsKnows(step: Step, n: nat, init: nat, p: nat, a: Proc, w: Option<nat>, b: Proc, w': Option<nat>, q: nat,
                  e: Proc)
    requires Runs(step, n, init, p, a, w, b, w') && p != q && q < n
    requires Family(a, p, init) && Knows(a, p, e, q) && ForkApart(a, e) && ForkApart(e, a)
    ensures Knows(b, p, e, q) && ForkApart(b, e) && ForkApart(e, b)
  {
  }

  lemma RunsKnown(step: Step, n: nat, init: nat, p: nat, a: Proc, w: Option<nat>, b: Proc, w': Option<nat>, q: nat,
                  e: Proc)
    requires Runs(step, n, init, p, a, w, b, w') && p != q && p < n
    requires SelfOk(a, p, w, init) && SelfOk(e, q, w, init) && Knows(e, q, a, p)
    ensures Knows(e, q, b, p) && SelfOk(e, q, w', init)
  {
  }

  lemma RunsNotLost(step: Step, n: nat, init: nat, p: nat, a: Proc, w: Option<nat>, b: Proc, w': Option<nat>,
                    q: nat, e: Proc, pending: bool, pending': bool)
    requires Runs(step, n, init, p, a, w, b, w') && p != q && p < n
    requires SelfOk(a, p, w, init) && Knows(a, p, e, q) && NotLost(a, p, e, init, pending)
    requires NotLost(e, q, a, init, pending)
    requires pending && !pending' && q == init ==> !Asleep(e, q)
    requires pending && !pending' && p == init ==> !Asleep(b, p)
    ensures NotLost(b, p, e, init, pending') && NotLost(e, q, b, init, pending')
  {
  }

  lemma ExitsSelf(step: Step, n: nat, init: nat, p: nat, a: Proc, w: Option<nat>, b: Proc, w': Option<nat>)
    requires Exits(step, n, init, p, a, w, b, w') && p < n && SelfOk(a, p, w, init)
    ensures SelfOk(b, p, w', init)
    ensures a.state == Zombie ==> b.state == Zombie
    ensures init < n && Pending(a.pc, init) ==> Pending(b.pc, init)
    ensures w.Some? && (w == Some(p) ==> Pending(a.pc, init)) && init < n ==> w' == w
  {
  }

  lemma ExitsKnows(step: Step, n: nat, init: nat, p: nat, a: Proc, w: Option<nat>, b: Proc, w': Option<nat>, q: nat,
                   e: Proc)
    requires Exits(step, n, init, p, a, w, b, w') && p != q && q < n
    requires Family(a, p, init) && Knows(a, p, e, q) && ForkApart(a, e) && ForkApart(e, a)
    ensures Knows(b, p, e, q) && ForkApart(b, e) && ForkApart(e, b)
  {
  }

  lemma ExitsKnown(step: Step, n: nat, init: nat, p: nat, a: Proc, w: Option<nat>, b: Proc, w': Option<nat>, q: nat,
                   e: Proc)
    requires Exits(step, n, init, p, a, w, b, w') && p != q && p < n
    requires SelfOk(a, p, w, init) && SelfOk(e, q, w, init) && Knows(e, q, a, p)
    ensures Knows(e, q, b, p) && SelfOk(e, q, w', init)
  {
  }

  lemma ExitsNotLost(step: Step, n: nat, init: nat, p: nat, a: Proc, w: Option<nat>, b: Proc, w': Option<nat>,
                    q: nat, e: Proc, pending: bool, pending': bool)
    requires Exits(step, n, init, p, a, w, b, w') && p != q && p < n
    requires SelfOk(a, p, w, init) && Knows(a, p, e, q) && NotLost(a, p, e, init, pending)
    requires NotLost(e, q, a, init, pending)
    requires pending && !pending' && q == init ==> !Asleep(e, q)
    requires pending && !pending' && p == init ==> !Asleep(b, p)
    ensures NotLost(b, p, e, init, pending') && NotLost(e, q, b, init, pending')
  {
  }

  lemma WaitsSelf(step: Step, n: nat, init: nat, p: nat, a: Proc, w: Option<nat>, b: Proc, w': Option<nat>)
    requires Waits(step, n, init, p, a, w, b, w') && p < n && SelfOk(a, p, w, init)
    ensures SelfOk(b, p, w', init)
    ensures a.state == Zombie ==> b.state == Zombie
    ensures init < n && Pending(a.pc, init) ==> Pending(b.pc, init)
    ensures w.Some? && (w == Some(p) ==> Pending(a.pc, init)) && init < n ==> w' == w
  {
  }

  lemma WaitsKnows(step: Step, n: nat, init: nat, p: nat, a: Proc, w: Option<nat>, b: Proc, w': Option<nat>, q: nat,
                   e: Proc)
    requires Waits(step, n, init, p, a, w, b, w') && p != q && q < n
    requires Family(a, p, init) && Knows(a, p, e, q) && ForkApart(a, e) && ForkApart(e, a)
    ensures Knows(b, p, e, q) && ForkApart(b, e) && ForkApart(e, b)
  {
  }

  lemma WaitsKnown(step: Step, n: nat, init: nat, p: nat, a: Proc, w: Option<nat>, b: Proc, w': Option<nat>, q: nat,
                   e: Proc)
    requires Waits(step, n, init, p, a, w, b, w') && p != q && p < n
    requires SelfOk(a, p, w, init) && SelfOk(e, q, w, init) && Knows(e, q, a, p)
    ensures Knows(e, q, b, p) && SelfOk(e, q, w', init)
  {
  }

  lemma WaitsNotLost(step: Step, n: nat, init: nat, p: nat, a: Proc, w: Option<nat>, b: Proc, w': Option<nat>,
                    q: nat, e: Proc, pending: bool, pending': bool)
    requires Waits(step, n, init, p, a, w, b, w') && p != q && p < n
    requires SelfOk(a, p, w, init) && Knows(a, p, e, q) && NotLost(a, p, e, init, pending)
    requires NotLost(e, q, a, init, pending)
    requires pending && !pending' && q == init ==> !Asleep(e, q)
    requires pending && !pending' && p == init ==> !Asleep(b, p)
    ensures NotLost(b, p, e, init, pending') && NotLost(e, q, b, init, pending')
  {
  }

  /** A thread's own step, and in it reparent's wakeup stays pending */
  lemma SoloSelf(step: Step, n: nat, init: nat, p: nat, a: Proc, w: Option<nat>, b: Proc, w': Option<nat>)
    requires Solo(step, n, init, p, a, w, b, w') && p < n && SelfOk(a, p, w, init)
    ensures SelfOk(b, p, w', init)
    ensures a.state == Zombie ==> b.state == Zombie
    ensures init < n && Pending(a.pc, init) ==> Pending(b.pc, init)
    ensures w.Some? && (w == Some(p) ==> Pending(a.pc, init)) && init < n ==> w' == w
  {
    if Runs(step, n, init, p, a, w, b, w') {
      RunsSelf(step, n, init, p, a, w, b, w');
    } else if Exits(step, n, init, p, a, w, b, w') {
      ExitsSelf(step, n, init, p, a, w, b, w');
    } else {
      WaitsSelf(step, n, init, p, a, w, b, w');
    }
  }

  lemma SoloPair(step: Step, n: nat, init: nat, p: nat, a: Proc, w: Option<nat>, b: Proc, w': Option<nat>,
                 q: nat, e: Proc, pending: bool, pending': bool)
    requires Solo(step, n, init, p, a, w, b, w') && p != q && p < n && q < n
    requires SelfOk(a, p, w, init) && SelfOk(e, q, w, init)
    requires PairOk(a, p, e, q, init, pending) && PairOk(e, q, a, p, init, pending)
    requires pending && !pending' && q == init ==> !Asleep(e, q)
    requires pending && !pending' && p == init ==> !Asleep(b, p)
    ensures SelfOk(e, q, w', init)
    ensures PairOk(b, p, e, q, init, pending') && PairOk(e, q, b, p, init, pending')
  {
    if Runs(step, n, init, p, a, w, b, w') {
      RunsKnows(step, n, init, p, a, w, b, w', q, e);
    } else if Exits(step, n, init, p, a, w, b, w') {
      ExitsKnows(step, n, init, p, a, w, b, w', q, e);
    } else {
      WaitsKnows(step, n, init, p, a, w, b, w', q, e);
    }
    if Runs(step, n, init, p, a, w, b, w') {
      RunsKnown(step, n, init, p, a, w, b, w', q, e);
    } else if Exits(step, n, init, p, a, w, b, w') {
      ExitsKnown(step, n, init, p, a, w, b, w', q, e);
    } else {
      WaitsKnown(step, n, init, p, a, w, b, w', q, e);
    }
    if Runs(step, n, init, p, a, w, b, w') {
      RunsNotLost(step, n, init, p, a, w, b, w', q, e, pending, pending');
    } else if Exits(step, n, init, p, a, w, b, w') {
      ExitsNotLost(step, n, init, p, a, w, b, w', q, e, pending, pending');
    } else {
      WaitsNotLost(step, n, init, p, a, w, b, w', q, e, pending, pending');
    }
  }

  // ---------- Steps with a second process ----------

  lemma DuoHolding(step: Step, init: nat, p: nat, a: Proc, q: nat, e: Proc, b: Proc, f: Proc, w: Option<nat>)
    requires Duo(step, init, p, a, q, e, b, f) && p != q
    requires Holding(a, p, w)
    ensures Holding(b, p, w)
  {
  }

  lemma DuoTargetHolding(step: Step, init: nat, p: nat, a: Proc, q: nat, e: Proc, b: Proc, f: Proc, w: Option<nat>)
    requires Duo(step, init, p, a, q, e, b, f) && p != q
    requires SelfOk(e, q, w, init) && KnowsLock(a, p, e, q)
    ensures Holding(f, q, w)
  {
  }

  lemma DuoPhase(step: Step, init: nat, p: nat, a: Proc, q: nat, e: Proc, b: Proc, f: Proc, w: Option<nat>)
    requires Duo(step, init, p, a, q, e, b, f) && p != q
    requires SelfOk(a, p, w, init) && SelfOk(e, q, w, init) && Knows(a, p, e, q)
    ensures Phase(b, p) && Phase(f, q)
  {
  }

  lemma DuoFamily(step: Step, init: nat, p: nat, a: Proc, q: nat, e: Proc, b: Proc, f: Proc, w: Option<nat>)
    requires Duo(step, init, p, a, q, e, b, f) && p != q
    requires SelfOk(a, p, w, init) && SelfOk(e, q, w, init) && Knows(a, p, e, q)
    ensures Family(b, p, init) && Family(f, q, init)
  {
  }

  lemma DuoKnowsLock(step: Step, init: nat, p: nat, a: Proc, q: nat, e: Proc, b: Proc, f: Proc, w: Option<nat>)
    requires Duo(step, init, p, a, q, e, b, f) && p != q
    requires SelfOk(a, p, w, init) && SelfOk(e, q, w, init) && Knows(a, p, e, q)
    ensures KnowsLock(b, p, f, q)
  {
  }

  lemma DuoKnows(step: Step, init: nat, p: nat, a: Proc, q: nat, e: Proc, b: Proc, f: Proc, w: Option<nat>)
    requires Duo(step, init, p, a, q, e, b, f) && p != q
    requires SelfOk(a, p, w, init) && SelfOk(e, q, w, init) && Knows(a, p, e, q)
    ensures KnowsChild(b, p, f, q) && KnowsAwake(b, f, q)
  {
  }

  lemma DuoKnownLock(step: Step, init: nat, p: nat, a: Proc, q: nat, e: Proc, b: Proc, f: Proc, w: Option<nat>)
    requires Duo(step, init, p, a, q, e, b, f) && p != q
    requires SelfOk(a, p, w, init) && SelfOk(e, q, w, init) && Knows(a, p, e, q)
    requires Knows(e, q, a, p) && ForkApart(a, e) && ForkApart(e, a)
    ensures KnowsLock(f, q, b, p) && ForkApart(b, f) && ForkApart(f, b)
  {
  }

  lemma DuoKnown(step: Step, init: nat, p: nat, a: Proc, q: nat, e: Proc, b: Proc, f: Proc, w: Option<nat>)
    requires Duo(step, init, p, a, q, e, b, f) && p != q
    requires SelfOk(a, p, w, init) && SelfOk(e, q, w, init) && Knows(a, p, e, q)
    requires Knows(e, q, a, p)
    ensures KnowsChild(f, q, b, p) && KnowsAwake(f, b, p)
  {
  }

  lemma DuoActive(step: Step, init: nat, p: nat, a: Proc, q: nat, e: Proc, b: Proc, f: Proc, w: Option<nat>,
                  pending': bool)
    requires Duo(step, init, p, a, q, e, b, f) && p != q && SelfOk(a, p, w, init)
    ensures NotLost(b, p, f, init, pending') && NotLost(f, q, b, init, pending')
  {
  }

  lemma DuoActorKnows(step: Step, init: nat, p: nat, a: Proc, q: nat, e: Proc, b: Proc, f: Proc, w: Option<nat>,
                      r: nat, t: Proc)
    requires Duo(step, init, p, a, q, e, b, f) && p != q && r != p && r != q
    requires SelfOk(a, p, w, init) && Knows(a, p, t, r)
    ensures Knows(b, p, t, r)
  {
  }

  lemma DuoActorKnown(step: Step, init: nat, p: nat, a: Proc, q: nat, e: Proc, b: Proc, f: Proc, w: Option<nat>,
                      r: nat, t: Proc)
    requires Duo(step, init, p, a, q, e, b, f) && p != q && r != p && r != q
    requires SelfOk(a, p, w, init) && Knows(t, r, a, p)
    ensures Knows(t, r, b, p)
  {
  }

  lemma DuoActor(step: Step, init: nat, p: nat, a: Proc, q: nat, e: Proc, b: Proc, f: Proc, w: Option<nat>,
                 r: nat, t: Proc, pending': bool)
    requires Duo(step, init, p, a, q, e, b, f) && p != q && r != p && r != q
    requires SelfOk(a, p, w, init) && Knows(t, r, e, q) && ForkApart(a, t) && ForkApart(t, a)
    ensures ForkApart(b, t) && ForkApart(t, b)
    ensures NotLost(b, p, t, init, pending') && NotLost(t, r, b, init, pending')
  {
  }

  lemma DuoTargetKnows(step: Step, init: nat, p: nat, a: Proc, q: nat, e: Proc, b: Proc, f: Proc, w: Option<nat>,
                       r: nat, t: Proc)
    requires Duo(step, init, p, a, q, e, b, f) && p != q && r != p && r != q
    requires SelfOk(a, p, w, init) && SelfOk(e, q, w, init) && Knows(a, p, e, q) && Knows(e, q, t, r)
    requires ForkApart(e, t) && ForkApart(t, e)
    ensures Knows(f, q, t, r) && ForkApart(f, t) && ForkApart(t, f)
  {
  }

  lemma DuoTargetKnown(step: Step, init: nat, p: nat, a: Proc, q: nat, e: Proc, b: Proc, f: Proc, w: Option<nat>,
                       r: nat, t: Proc)
    requires Duo(step, init, p, a, q, e, b, f) && p != q && r != p && r != q
    requires SelfOk(a, p, w, init) && SelfOk(e, q, w, init) && Knows(a, p, e, q) && SelfOk(t, r, w, init)
    requires Knows(t, r, e, q) && ForkApart(a, t)
    ensures Knows(t, r, f, q)
  {
  }

  lemma DuoNotLost(step: Step, init: nat, p: nat, a: Proc, q: nat, e: Proc, b: Proc, f: Proc,
                   r: nat, t: Proc, pending: bool, pending': bool)
    requires Duo(step, init, p, a, q, e, b, f) && p != q && r != p && r != q
    requires NotLost(e, q, t, init, pending) && NotLost(t, r, e, init, pending) && Knows(a, p, e, q)
    requires pending && !pending' && q == init ==> !Asleep(f, q)
    requires pending && !pending' && r == init ==> !Asleep(t, r)
    requires Pending(b.pc, init) ==> pending'
    ensures NotLost(f, q, t, init, pending') && NotLost(t, r, f, init, pending')
  {
  }

  /** When reparent's wakeup has passed initproc, initproc is awake. */
  lemma DuoPending(step: Step, init: nat, p: nat, a: Proc, q: nat, e: Proc, b: Proc, f: Proc, w: Option<nat>)
    requires Duo(step, init, p, a, q, e, b, f) && p != q
    requires SelfOk(a, p, w, init) && SelfOk(e, q, w, init) && Knows(a, p, e, q) && Pending(a.pc, init)
    ensures Pending(b.pc, init) || (q == init && !Asleep(f, q))
  {
  }

  // ---------- Every step keeps the invariant ----------

  predicate PendingNow(s: State, init: nat) {
    s.waitLock.Some? && s.waitLock.value < |s.procs| && Pending(s.procs[s.waitLock.value].pc, init)
  }

  ghost predicate Inv(s: State, init: nat) {
    && init < |s.procs|
    && (forall p :: 0 <= p < |s.procs| ==> SelfOk(s.procs[p], p, s.waitLock, init))
    && (forall p, q :: 0 <= p < |s.procs| && 0 <= q < |s.procs| && p != q ==>
          PairOk(s.procs[p], p, s.procs[q], q, init, PendingNow(s, init)))
  }

  /** Once reparent's wakeup is no longer pending, initproc is awake. */
  ghost predicate PendingKept(s: State, s': State, init: nat) {
    init < |s'.procs| && (PendingNow(s, init) && !PendingNow(s', init) ==> !Asleep(s'.procs[init], init))
  }

  lemma AloneSelf(s: State, s': State, step: Step, init: nat, p: nat)
    requires Inv(s, init) && Alone(s, s', step, init, p)
    ensures SelfOk(s'.procs[p], p, s'.waitLock, init)
    ensures PendingNow(s, init) ==>
              s'.waitLock == s.waitLock && (Pending(s.procs[p].pc, init) ==> Pending(s'.procs[p].pc, init))
  {
    assert SelfOk(s.procs[p], p, s.waitLock, init);
    SoloSelf(step, |s.procs|, init, p, s.procs[p], s.waitLock, s'.procs[p], s'.waitLock);
  }

  lemma AlonePending(s: State, s': State, step: Step, init: nat, p: nat)
    requires Inv(s, init) && Alone(s, s', step, init, p)
    ensures PendingKept(s, s', init) && SelfOk(s'.procs[p], p, s'.waitLock, init)
  {
    AloneSelf(s, s', step, init, p);
    PendingStays(s, s', init, p);
  }

  lemma PendingStays(s: State, s': State, init: nat, p: nat)
    requires init < |s.procs| && p < |s.procs| == |s'.procs| && s'.procs == s.procs[p := s'.procs[p]]
    requires PendingNow(s, init) ==>
               s'.waitLock == s.waitLock && (Pending(s.procs[p].pc, init) ==> Pending(s'.procs[p].pc, init))
    ensures PendingKept(s, s', init)
  {
  }

  lemma AlonePair(s: State, s': State, step: Step, init: nat, p: nat, q: nat)
    requires Inv(s, init) && Alone(s, s', step, init, p) && q < |s.procs| && p != q
    requires PendingKept(s, s', init)
    ensures PairsOk(s', init, p, q)
  {
    var n, w, w' := |s.procs|, s.waitLock, s'.waitLock;
    var a, b, e := s.procs[p], s'.procs[p], s.procs[q];
    var pending, pending' := PendingNow(s, init), PendingNow(s', init);
    assert SelfOk(a, p, w, init) && SelfOk(e, q, w, init);
    assert PairOk(a, p, e, q, init, pending) && PairOk(e, q, a, p, init, pending);
    SoloPair(step, n, init, p, a, w, b, w', q, e, pending, pending');
  }

  /** Process p is well related to process q, in both directions. */
  ghost predicate PairsOk(s: State, init: nat, p: nat, q: nat) {
    && p < |s.procs| && q < |s.procs|
    && PairOk(s.procs[p], p, s.procs[q], q, init, PendingNow(s, init))
    && PairOk(s.procs[q], q, s.procs[p], p, init, PendingNow(s, init))
    && SelfOk(s.procs[q], q, s.waitLock, init)
  }

  /** When one process changes, only its own pairs need to be looked at. */
  lemma OneChanged(s: State, s': State, init: nat, p: nat)
    requires Inv(s, init) && p < |s.procs| == |s'.procs| && s'.procs == s.procs[p := s'.procs[p]]
    requires PendingKept(s, s', init) && SelfOk(s'.procs[p], p, s'.waitLock, init)
    requires forall q :: 0 <= q < |s.procs| && q != p ==> PairsOk(s', init, p, q)
    ensures Inv(s', init)
  {
    forall r, t | 0 <= r < |s.procs| && 0 <= t < |s.procs| && r != t
      ensures PairOk(s'.procs[r], r, s'.procs[t], t, init, PendingNow(s', init))
    {
      if r == p {
        assert PairsOk(s', init, p, t);
      } else if t == p {
        assert PairsOk(s', init, p, r);
      } else {
        assert PairOk(s.procs[r], r, s.procs[t], t, init, PendingNow(s, init));
      }
    }
    forall q | 0 <= q < |s'.procs|
      ensures SelfOk(s'.procs[q], q, s'.waitLock, init)
    {
      assert q != p ==> PairsOk(s', init, p, q);
    }
  }

  lemma AloneKeeps(s: State, s': State, step: Step, init: nat, p: nat)
    requires Inv(s, init) && Alone(s, s', step, init, p)
    ensures Inv(s', init)
  {
    AlonePending(s, s', step, init, p);
    forall q | 0 <= q < |s.procs| && q != p
      ensures PairsOk(s', init, p, q)
    {
      AlonePair(s, s', step, init, p, q);
    }
    OneChanged(s, s', init, p);
  }

  lemma BothPending(s: State, s': State, step: Step, init: nat, p: nat, q: nat)
    requires Inv(s, init) && Both(s, s', step, init, p, q)
    ensures PendingKept(s, s', init)
    ensures Pending(s'.procs[p].pc, init) ==> PendingNow(s', init)
  {
    var w := s.waitLock;
    var a, b, e, f := s.procs[p], s'.procs[p], s.procs[q], s'.procs[q];
    assert SelfOk(a, p, w, init) && SelfOk(e, q, w, init) && PairOk(a, p, e, q, init, PendingNow(s, init));
    DuoHolding(step, init, p, a, q, e, b, f, w);
    if PendingNow(s, init) {
      if w == Some(p) {
        DuoPending(step, init, p, a, q, e, b, f, w);
      } else if w == Some(q) {
        DuoBusy(step, init, p, a, q, e, b, f, w);
      }
    }
  }

  lemma DuoBusy(step: Step, init: nat, p: nat, a: Proc, q: nat, e: Proc, b: Proc, f: Proc, w: Option<nat>)
    requires Duo(step, init, p, a, q, e, b, f) && p != q && SelfOk(e, q, w, init) && w == Some(q)
    ensures f.pc == e.pc
  {
  }

  lemma BothPair(s: State, s': State, step: Step, init: nat, p: nat, q: nat)
    requires Inv(s, init) && Both(s, s', step, init, p, q)
    ensures SelfOk(s'.procs[p], p, s.waitLock, init) && SelfOk(s'.procs[q], q, s.waitLock, init)
    ensures PairOk(s'.procs[p], p, s'.procs[q], q, init, PendingNow(s', init))
    ensures PairOk(s'.procs[q], q, s'.procs[p], p, init, PendingNow(s', init))
  {
    var w := s.waitLock;
    var a, b, e, f := s.procs[p], s'.procs[p], s.procs[q], s'.procs[q];
    var pending := PendingNow(s, init);
    assert SelfOk(a, p, w, init) && SelfOk(e, q, w, init);
    assert PairOk(a, p, e, q, init, pending) && PairOk(e, q, a, p, init, pending);
    DuoHolding(step, init, p, a, q, e, b, f, w);
    DuoTargetHolding(step, init, p, a, q, e, b, f, w);
    DuoPhase(step, init, p, a, q, e, b, f, w);
    DuoFamily(step, init, p, a, q, e, b, f, w);
    DuoKnowsLock(step, init, p, a, q, e, b, f, w);
    DuoKnows(step, init, p, a, q, e, b, f, w);
    DuoKnownLock(step, init, p, a, q, e, b, f, w);
    DuoKnown(step, init, p, a, q, e, b, f, w);
    DuoActive(step, init, p, a, q, e, b, f, w, PendingNow(s', init));
  }

  lemma BothThird(s: State, s': State, step: Step, init: nat, p: nat, q: nat, r: nat)
    requires Inv(s, init) && Both(s, s', step, init, p, q) && r < |s.procs| && r != p && r != q
    requires PendingKept(s, s', init) && (Pending(s'.procs[p].pc, init) ==> PendingNow(s', init))
    ensures PairOk(s'.procs[p], p, s'.procs[r], r, init, PendingNow(s', init))
    ensures PairOk(s'.procs[r], r, s'.procs[p], p, init, PendingNow(s', init))
    ensures PairOk(s'.procs[q], q, s'.procs[r], r, init, PendingNow(s', init))
    ensures PairOk(s'.procs[r], r, s'.procs[q], q, init, PendingNow(s', init))
  {
    var w := s.waitLock;
    var a, b, e, f, t := s.procs[p], s'.procs[p], s.procs[q], s'.procs[q], s.procs[r];
    var pending, pending' := PendingNow(s, init), PendingNow(s', init);
    assert SelfOk(a, p, w, init) && SelfOk(e, q, w, init) && SelfOk(t, r, w, init);
    assert PairOk(a, p, e, q, init, pending);
    assert PairOk(a, p, t, r, init, pending) && PairOk(t, r, a, p, init, pending);
    assert PairOk(e, q, t, r, init, pending) && PairOk(t, r, e, q, init, pending);
    DuoActorKnows(step, init, p, a, q, e, b, f, w, r, t);
    DuoActorKnown(step, init, p, a, q, e, b, f, w, r, t);
    DuoActor(step, init, p, a, q, e, b, f, w, r, t, pending');
    DuoTargetKnows(step, init, p, a, q, e, b, f, w, r, t);
    DuoTargetKnown(step, init, p, a, q, e, b, f, w, r, t);
    DuoNotLost(step, init, p, a, q, e, b, f, r, t, pending, pending');
  }

  lemma BothKeeps(s: State, s': State, step: Step, init: nat, p: nat, q: nat)
    requires Inv(s, init) && Both(s, s', step, init, p, q)
    ensures Inv(s', init)
  {
    BothPending(s, s', step, init, p, q);
    BothPair(s, s', step, init, p, q);
    forall r | 0 <= r < |s.procs| && r != p && r != q
      ensures PairOk(s'.procs[p], p, s'.procs[r], r, init, PendingNow(s', init))
      ensures PairOk(s'.procs[r], r, s'.procs[p], p, init, PendingNow(s', init))
      ensures PairOk(s'.procs[q], q, s'.procs[r], r, init, PendingNow(s', init))
      ensures PairOk(s'.procs[r], r, s'.procs[q], q, init, PendingNow(s', init))
    {
      BothThird(s, s', step, init, p, q, r);
    }
    forall r, t | 0 <= r < |s.procs| && 0 <= t < |s.procs| && r != t && r != p && r != q && t != p && t != q
      ensures PairOk(s'.procs[r], r, s'.procs[t], t, init, PendingNow(s', init))
    {
      assert PairOk(s.procs[r], r, s.procs[t], t, init, PendingNow(s, init));
    }
  }

  // ---------- Who frees a zombie ----------

  /** Process q is freed by its parent, which is inside wait. */
  predicate Freed(s: State, e: Proc, f: Proc, q: nat) {
    && e.parent.Some? && e.parent.value < |s.procs| && e.pc.Off?
    && s.procs[e.parent.value].pc.WaitLocked? && s.procs[e.parent.value].pc.k == q
    && f.state == Unused && f.reaps == e.reaps + 1
  }

  predicate ReapsRightly(s: State, s': State) {
    && |s.procs| == |s'.procs|
    && forall q :: 0 <= q < |s.procs| && s.procs[q].state == Zombie && s'.procs[q].state != Zombie ==>
                     Freed(s, s.procs[q], s'.procs[q], q)
  }

  lemma DuoZombie(step: Step, init: nat, p: nat, a: Proc, q: nat, e: Proc, b: Proc, f: Proc, w: Option<nat>)
    requires Duo(step, init, p, a, q, e, b, f) && p != q
    requires SelfOk(a, p, w, init) && SelfOk(e, q, w, init) && Knows(a, p, e, q)
    ensures b.state == a.state
    ensures e.state == Zombie && f.state != Zombie ==>
              f.state == Unused && f.reaps == e.reaps + 1 && e.parent == Some(p) && e.pc.Off? && a.pc.WaitLocked? &&
                  a.pc.k == q
  {
  }

  lemma AloneReaps(s: State, s': State, step: Step, init: nat, p: nat)
    requires Inv(s, init) && Alone(s, s', step, init, p)
    ensures ReapsRightly(s, s')
  {
    assert SelfOk(s.procs[p], p, s.waitLock, init);
    SoloSelf(step, |s.procs|, init, p, s.procs[p], s.waitLock, s'.procs[p], s'.waitLock);
  }

  lemma BothReaps(s: State, s': State, step: Step, init: nat, p: nat, q: nat)
    requires Inv(s, init) && Both(s, s', step, init, p, q)
    ensures ReapsRightly(s, s')
  {
    assert SelfOk(s.procs[p], p, s.waitLock, init) && SelfOk(s.procs[q], q, s.waitLock, init);
    assert PairOk(s.procs[p], p, s.procs[q], q, init, PendingNow(s, init));
    DuoZombie(step, init, p, s.procs[p], q, s.procs[q], s'.procs[p], s'.procs[q], s.waitLock);
  }

  // ---------- Runs ----------

  lemma FollowsKeeps(s: State, s': State, init: nat)
    requires Inv(s, init) && Follows(s, s', init)
    ensures Inv(s', init) && ReapsRightly(s, s')
  {
    if step, p :| Alone(s, s', step, init, p) {
      AloneKeeps(s, s', step, init, p);
      AloneReaps(s, s', step, init, p);
    } else {
      var step, p, q :| Both(s, s', step, init, p, q);
      BothKeeps(s, s', step, init, p, q);
      BothReaps(s, s', step, init, p, q);
    }
  }

  ghost predicate IsRun(run: seq<State>, init: nat) {
    && |run| > 0
    && Init(run[0], init)
    && forall k :: 0 < k < |run| ==> FollowsAt(run, init, k)
  }

  /** State k of a run follows from the one before. */
  ghost predicate FollowsAt(run: seq<State>, init: nat, k: nat)
    requires 0 < k < |run|
  {
    Follows(run[k - 1], run[k], init)
  }

  lemma InitInv(s: State, init: nat)
    requires Init(s, init)
    ensures Inv(s, init)
  {
    forall p, q | 0 <= p < |s.procs| && 0 <= q < |s.procs| && p != q
      ensures PairOk(s.procs[p], p, s.procs[q], q, init, PendingNow(s, init))
    {
      assert s.procs[p].pc == Off(ToUser) && s.procs[q].pc == Off(ToUser);
    }
  }

  lemma {:induction false} RunInv(run: seq<State>, init: nat, k: nat)
    requires IsRun(run, init) && k < |run|
    ensures Inv(run[k], init)
    ensures k > 0 ==> ReapsRightly(run[k - 1], run[k])
  {
    if k == 0 {
      InitInv(run[0], init);
    } else {
      RunInv(run, init, k - 1);
      assert FollowsAt(run, init, k);
      FollowsKeeps(run[k - 1], run[k], init);
    }
  }

  // ---------- What exit and wait promise ----------

  /**
   Whenever wait_lock is free, no process that sleeps in wait, or is on its way
   to sleep there, has a zombie child; this includes children given to initproc.
   */
  lemma NoLostZombie(run: seq<State>, init: nat, k: nat, p: nat, q: nat)
    requires IsRun(run, init) && k < |run| && p < |run[k].procs| && q < |run[k].procs|
    requires run[k].waitLock == None
    requires Asleep(run[k].procs[p], p) && run[k].procs[q].parent == Some(p)
    ensures run[k].procs[q].state != Zombie
  {
    RunInv(run, init, k);
    var a, e := run[k].procs[p], run[k].procs[q];
    assert SelfOk(a, p, None, init);
    assert p != q ==> PairOk(a, p, e, q, init, PendingNow(run[k], init));
  }

  /** Every process that became a zombie is either still one or was freed, and freed only once. */
  lemma ReapedOnce(run: seq<State>, init: nat, k: nat, q: nat)
    requires IsRun(run, init) && k < |run| && q < |run[k].procs|
    ensures run[k].procs[q].exits == run[k].procs[q].reaps + (if run[k].procs[q].state == Zombie then 1 else 0)
  {
    RunInv(run, init, k);
    assert SelfOk(run[k].procs[q], q, run[k].waitLock, init);
  }

  /** A zombie is freed by its parent only, inside wait, and after it has left its kernel stack. */
  lemma ReapedByParent(run: seq<State>, init: nat, k: nat)
    requires IsRun(run, init) && 0 < k < |run|
    ensures ReapsRightly(run[k - 1], run[k])
  {
    RunInv(run, init, k);
  }

  /** An exiting process has a parent to wake, and initproc never becomes a zombie. */
  lemma ExitHasParent(run: seq<State>, init: nat, k: nat, p: nat)
    requires IsRun(run, init) && k < |run| && p < |run[k].procs|
    ensures InExit(run[k].procs[p].pc) && run[k].procs[p].pc != ExitDone ==> run[k].procs[p].parent.Some?
    ensures p == init ==> run[k].procs[p].state != Zombie
  {
    RunInv(run, init, k);
    assert SelfOk(run[k].procs[p], p, run[k].waitLock, init);
  }
}

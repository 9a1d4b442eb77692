/**
 push_off and pop_off: interrupts stay off while a CPU holds a spin lock, and the last
 pop_off brings back what the first push_off found.  There are two push_offs that work on
 the same CPU record: that of kernel/spinlock.c and that of kernel/SpinLock.zig, which
 turns interrupts off before it looks whether they are on.
 */
module Interrupts {
  import opened Common

  /** depth of push_off nesting, whether interrupts were on before it, and whether they are on */
  datatype State = State(noff: int, intena: bool, on: bool)

  datatype Op = PushC | PushZig | Pop

  /** One call; None is a panic. */
  function Apply(s: State, op: Op): (r: Option<State>) {
    match op
    case PushC => Some(State(s.noff + 1, if s.noff == 0 then s.on else s.intena, false))
    case PushZig => Some(State(s.noff + 1, if s.noff == 0 then false else s.intena, false))
    case Pop =>
      if s.on || s.noff < 1 then None
      else Some(State(s.noff - 1, s.intena, s.noff == 1 && s.intena))
  }

  /** A sequence of calls on one CPU, up to the first panic */
  function Calls(s: State, ops: seq<Op>): (r: Option<State>) {
    if ops == [] then Some(s)
    else
      var before := Calls(s, ops[..|ops| - 1]);
      if before == None then None else Apply(before.value, ops[|ops| - 1])
  }

  class Cpu {
    var noff: int
    var intena: bool
    var on: bool

    ghost function Value(): (s: State)
      reads this
    {
      State(noff, intena, on)
    }

    constructor (on: bool)
      ensures Value() == State(0, false, on)
    {
      noff, intena := 0, false;
      this.on := on;
    }

    method PushOffC()
      modifies this
      ensures Apply(old(Value()), PushC) == Some(Value())
    {
      var old_ := on;
      on := false;
      if noff == 0 {
        intena := old_;
      }
      noff := noff + 1;
    }

    method PushOffZig()
      modifies this
      ensures Apply(old(Value()), PushZig) == Some(Value())
    {
      on := false;
      if noff == 0 {
        intena := on;
      }
      noff := noff + 1;
    }

    /** Not ok is a panic. */
    method PopOff() returns (ok: bool)
      modifies this
      ensures Apply(old(Value()), Pop) == if ok then Some(Value()) else None
    {
      if on || noff < 1 {
        return false;
      }
      noff := noff - 1;
      if noff == 0 && intena {
        on := true;
      }
      return true;
    }
  }

  // ---------- What they are for ----------

  function Depth(ops: seq<Op>): (d: int) {
    if ops == [] then 0 else Depth(ops[..|ops| - 1]) + if ops[|ops| - 1] == Pop then -1 else 1
  }

  /** Call i is push_off of kernel/SpinLock.zig with no lock held. */
  predicate ZigFirst(ops: seq<Op>, i: nat) {
    i < |ops| && ops[i] == PushZig && Depth(ops[..i]) == 0
  }

  ghost predicate Loses(ops: seq<Op>) {
    exists i: nat :: ZigFirst(ops, i)
  }

  /** No pop_off without its push_off */
  ghost predicate Nested(ops: seq<Op>) {
    forall i :: 0 <= i <= |ops| ==> Depth(ops[..i]) >= 0
  }

  lemma LosesMore(ops: seq<Op>)
    requires ops != []
    ensures var front := ops[..|ops| - 1];
            Loses(ops) <==> Loses(front) || (ops[|ops| - 1] == PushZig && Depth(front) == 0)
  {
    var front := ops[..|ops| - 1];
    if Loses(front) {
      var i: nat :| ZigFirst(front, i);
      assert front[..i] == ops[..i];
      assert ZigFirst(ops, i);
    } else if ops[|ops| - 1] == PushZig && Depth(front) == 0 {
      assert ZigFirst(ops, |ops| - 1);
    } else if Loses(ops) {
      var i: nat :| ZigFirst(ops, i);
      assert i < |front| ==> front[..i] == ops[..i];
      assert ZigFirst(front, i);
    }
  }

  /** Nested calls never panic, and interrupts are off while a lock is held. */
  lemma {:induction false} Matched(s: State, ops: seq<Op>)
    requires s.noff == 0 && Nested(ops)
    ensures Calls(s, ops).Some? && Calls(s, ops).value.noff == Depth(ops)
    ensures Depth(ops) > 0 ==> !Calls(s, ops).value.on && Calls(s, ops).value.intena == (s.on && !Loses(ops))
    ensures Depth(ops) == 0 ==> Calls(s, ops).value.on == (s.on && !Loses(ops))
  {
    if ops != [] {
      var front := ops[..|ops| - 1];
      assert forall i :: 0 <= i <= |front| ==> front[..i] == ops[..i];
      assert ops[..|ops|] == ops;
      Matched(s, front);
      LosesMore(ops);
    }
  }

  /**
   push_off and pop_off are matched: when no lock is held any more, interrupts are on
   again exactly if they were on before, except after an outermost push_off of
   kernel/SpinLock.zig, which loses that they were on.
   */
  lemma Restored(s: State, ops: seq<Op>)
    requires s.noff == 0 && Nested(ops) && Depth(ops) == 0
    ensures Calls(s, ops).Some?
    ensures Calls(s, ops).value.on == s.on <==> !s.on || !Loses(ops)
  {
    Matched(s, ops);
  }

  /** acquire and release of a lock of kernel/SpinLock.zig, with interrupts on */
  method LeftOff() returns (cpu: Cpu)
    ensures cpu.noff == 0 && !cpu.on
  {
    cpu := new Cpu(true);
    cpu.PushOffZig();
    var ok := cpu.PopOff();
  }
}

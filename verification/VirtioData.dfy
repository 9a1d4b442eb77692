/** What passes through the disk queue of module Virtio: a read gets what was last written. */
module VirtioData {
  import opened Virtio

  /** Request h is completed between s and s'. */
  ghost predicate Done(s: State, s': State, h: nat) {
    h in s.reqs && s.reqs[h].phase == Taken && h in s'.reqs && s'.reqs[h].phase == Completed
  }

  ghost predicate Writes(s: State, s': State, h: nat, sector: nat) {
    Done(s, s', h) && s.reqs[h].write && s.reqs[h].sector == sector
  }

  /** The block last written to a sector by a request completed up to state k */
  ghost function Content(run: seq<State>, k: nat, sector: nat): (x: Block)
    requires k < |run|
  {
    if k == 0 then Fetch(run[0].store, sector)
    else
      var s, s' := run[k - 1], run[k];
      if exists h :: Writes(s, s', h, sector) then
        var h :| Writes(s, s', h, sector);
        Fetch(s.data, s.reqs[h].b)
      else Content(run, k - 1, sector)
  }

  lemma OnlyComplete(s: State, s': State, step: Step, h: nat)
    requires Sound(s) && Next(s, s', step) && Done(s, s', h)
    ensures step == Complete(h)
  {
    HeadPhases(s);
    if step.Submit? {
      SubmitFresh(s, step.mid, s', step.h, step.r);
    }
  }

  /** The disk changes only where a write completes, to the contents of its buffer. */
  lemma StoreStep(s: State, s': State, sector: nat)
    requires Sound(s) && Follows(s, s')
    ensures forall h :: Writes(s, s', h, sector) ==> Fetch(s'.store, sector) == Fetch(s.data, s.reqs[h].b)
    ensures (forall h :: !Writes(s, s', h, sector)) ==> Fetch(s'.store, sector) == Fetch(s.store, sector)
  {
    var step :| Next(s, s', step);
    forall h | Writes(s, s', h, sector)
      ensures Fetch(s'.store, sector) == Fetch(s.data, s.reqs[h].b)
    {
      OnlyComplete(s, s', step, h);
    }
    if step.Complete? {
      assert Done(s, s', step.h);
      assert s.reqs[step.h].write && s.reqs[step.h].sector == sector ==> Writes(s, s', step.h, sector);
    }
  }

  /** The disk holds what was last written. */
  lemma {:induction false} StoreIs(run: seq<State>, k: nat, sector: nat)
    requires IsRun(run) && k < |run|
    ensures Fetch(run[k].store, sector) == Content(run, k, sector)
  {
    if k > 0 {
      StoreIs(run, k - 1, sector);
      RunSound(run, k - 1);
      assert FollowsAt(run, k);
      StoreStep(run[k - 1], run[k], sector);
    }
  }

  /** The buffer of a request in flight changes only when the request, a read, completes. */
  lemma BufferStep(s: State, s': State, h: nat)
    requires Sound(s) && Follows(s, s') && h in s.reqs
    ensures if Done(s, s', h) && !s.reqs[h].write then Fetch(s'.data, s.reqs[h].b) == Fetch(s.store, s.reqs[h].sector)
            else Fetch(s'.data, s.reqs[h].b) == Fetch(s.data, s.reqs[h].b)
  {
    var step :| Next(s, s', step);
    if step.Complete? {
      if step.h != h {
        OtherBuffer(s, step.h, h);
      }
      assert Done(s, s', step.h);
    }
    if Done(s, s', h) {
      OnlyComplete(s, s', step, h);
    }
  }

  lemma OtherBuffer(s: State, g: nat, h: nat)
    requires Sound(s) && g in s.reqs && h in s.reqs && g != h
    ensures s.reqs[g].b != s.reqs[h].b
  {
    assert Good(s);
    assert PairApart(s.reqs, g, h);
  }

  ghost predicate Throughout(run: seq<State>, i: nat, k: nat, h: nat) {
    k < |run| && forall j :: i <= j <= k ==> h in run[j].reqs
  }

  /** A buffer in flight keeps its contents while its request is not completed, or after it is. */
  lemma {:induction false} BufferStays(run: seq<State>, i: nat, k: nat, h: nat)
    requires IsRun(run) && i <= k && Throughout(run, i, k, h)
    requires Rank(run[k].reqs[h].phase) <= 1 || Rank(run[i].reqs[h].phase) >= 2
    ensures run[k].reqs[h].b == run[i].reqs[h].b && Rank(run[i].reqs[h].phase) <= Rank(run[k].reqs[h].phase)
    ensures Fetch(run[k].data, run[k].reqs[h].b) == Fetch(run[i].data, run[i].reqs[h].b)
    decreases k
  {
    if i < k {
      RequestStays(run, k, h);
      BufferStays(run, i, k - 1, h);
      RunSound(run, k - 1);
      assert FollowsAt(run, k);
      BufferStep(run[k - 1], run[k], h);
    }
  }

  /** What a write gives to the disk is what its buffer held when it was submitted, at state i. */
  lemma WriteGives(run: seq<State>, i: nat, k: nat, h: nat)
    requires IsRun(run) && i < k && Throughout(run, i, k, h) && Done(run[k - 1], run[k], h) && run[i].reqs[h].write
    ensures Content(run, k, run[i].reqs[h].sector) == Fetch(run[i].data, run[i].reqs[h].b)
  {
    BufferStays(run, i, k - 1, h);
    SameRequest(run, i, k - 1, h);
    RunSound(run, k - 1);
    assert FollowsAt(run, k);
    var sector := run[i].reqs[h].sector;
    StoreStep(run[k - 1], run[k], sector);
    StoreIs(run, k, sector);
    assert Writes(run[k - 1], run[k], h, sector);
  }

  lemma {:induction false} SameRequest(run: seq<State>, i: nat, k: nat, h: nat)
    requires IsRun(run) && i <= k && Throughout(run, i, k, h)
    ensures run[k].reqs[h] == run[i].reqs[h].(phase := run[k].reqs[h].phase)
    decreases k
  {
    if i < k {
      SameRequest(run, i, k - 1, h);
      RequestStays(run, k, h);
    }
  }

  /** A read that completed at step m has in its buffer, until it is released, what was last written to its sector. */
  lemma ReadGets(run: seq<State>, m: nat, k: nat, h: nat)
    requires IsRun(run) && 0 < m <= k && Throughout(run, m - 1, k, h)
    requires Done(run[m - 1], run[m], h) && !run[m].reqs[h].write
    ensures Fetch(run[k].data, run[k].reqs[h].b) == Content(run, m - 1, run[k].reqs[h].sector)
  {
    RequestStays(run, m, h);
    RunSound(run, m - 1);
    assert FollowsAt(run, m);
    BufferStep(run[m - 1], run[m], h);
    SameRequest(run, m, k, h);
    BufferStays(run, m, k, h);
    StoreIs(run, m - 1, run[k].reqs[h].sector);
  }
}

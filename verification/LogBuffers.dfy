/**
 Whether a commit can get its buffers: the log pins the blocks it holds, and bget panics
 when every buffer is in use.
 */
module LogBuffers {
  import opened LogFormat
  import opened LogMachine
  import opened LogSafety
  import opened LogTheorems

  /** Nobody uses a buffer, as when the committer is about to call bread. */
  ghost predicate Quiet(s: State) {
    forall i :: 0 <= i < |s.slots| ==> s.slots[i].refs == {}
  }

  /** bget of block b panics: b is not cached and no buffer can be recycled. */
  ghost predicate NoBuffers(s: State, b: nat) {
    && b < s.c.l.nblocks && !Cached(s, b)
    && forall i :: 0 <= i < |s.slots| ==> s.slots[i].refcnt > 0
  }

  ghost predicate NeverStarves(l: Layout) {
    forall s, b: nat :: Reachable(s) && s.c.l == l && Quiet(s) ==> !NoBuffers(s, b)
  }

  lemma {:induction false} DistinctFits(xs: seq<nat>, ys: seq<nat>)
    requires Distinct(xs) && forall i :: 0 <= i < |xs| ==> xs[i] in ys
    ensures |xs| <= |ys|
    decreases |xs|
  {
    if xs != [] {
      var j :| 0 <= j < |ys| && ys[j] == xs[0];
      var less := ys[..j] + ys[j + 1..];
      var rest := xs[1..];
      forall i | 0 <= i < |rest|
        ensures rest[i] in less
      {
        var k :| 0 <= k < |ys| && ys[k] == rest[i];
        assert rest[i] == xs[i + 1] != xs[0];
        assert less[if k < j then k else k - 1] == rest[i];
      }
      DistinctFits(rest, less);
    }
  }

  /** When all buffers are in use but by nobody, all are pinned: the log holds as many blocks. */
  lemma AllPinned(s: State)
    requires Inv(s) && Quiet(s) && forall i :: 0 <= i < |s.slots| ==> s.slots[i].refcnt > 0
    ensures |s.c.blocks| >= NBUF
  {
    var xs := seq(NBUF, i requires 0 <= i < NBUF => s.slots[i].blockno);
    forall i | 0 <= i < NBUF
      ensures s.slots[i].dev == ROOTDEV && xs[i] in Pending(s.c)
    {
      assert SlotRefs(s.c, s.slots[i]);
    }
    DistinctFits(xs, Pending(s.c));
  }

  lemma SmallLogNeverStarves(s: State, b: nat)
    requires Reachable(s) && s.c.l.size <= NBUF && Quiet(s)
    ensures !NoBuffers(s, b)
  {
    var run :| IsRun(run) && run[|run| - 1] == s;
    RunInv(run, |run| - 1);
    if NoBuffers(s, b) {
      AllPinned(s);
    }
  }

  lemma EndOne(s: State, t: Tid) returns (s': State)
    requires Reachable(s) && t in s.c.active && s.c.blocks != []
    requires forall i :: 0 <= i < |s.slots| ==> !s.slots[i].dirty
    ensures Reachable(s') && s'.slots == s.slots && s'.c.l == s.c.l && s'.c.blocks == s.c.blocks
    ensures s'.c.active == s.c.active - {t} && s'.c.outstanding == s.c.outstanding - 1
    ensures s.c.outstanding == 1 ==> s'.c.phase == WriteLog(0)
  {
    var c := s.c.(outstanding := s.c.outstanding - 1, active := s.c.active - {t});
    s' := s.(c := if c.outstanding != 0 then c else c.(phase := WriteLog(0), committer := t));
    ReachNext(s, s', SEndOp(t));
  }

  lemma AllPins(s: State, l: Layout, hs: seq<nat>)
    requires |hs| == NBUF && Filled(s, l, hs, NBUF)
    ensures |s.slots| == NBUF && s.c.blocks != [] && s.c.active.Keys == {1, 2, 3} && s.c.outstanding == 3 && s.c.l == l
    ensures forall i :: 0 <= i < NBUF ==> s.slots[i].dev == ROOTDEV && s.slots[i].blockno == hs[i]
    ensures forall i :: 0 <= i < NBUF ==> s.slots[i].refcnt == 1 && s.slots[i].refs == {} && !s.slots[i].dirty
  {
    assert |s.c.blocks| == NBUF;
    forall i | 0 <= i < NBUF
      ensures s.slots[i].dev == ROOTDEV && s.slots[i].blockno == hs[i]
      ensures s.slots[i].refcnt == 1 && s.slots[i].refs == {} && !s.slots[i].dirty
    {
      assert Pins(s, i, hs[i]);
    }
  }

  lemma BigLogStarves(l: Layout, hs: seq<nat>) returns (s: State)
    requires l.Valid() && l.size > NBUF
    requires |hs| == NBUF && Distinct(hs) && forall j :: 0 <= j < |hs| ==> l.Home(hs[j])
    ensures Reachable(s) && s.c.l == l && s.c.phase == WriteLog(0) && Quiet(s) && NoBuffers(s, l.start + 1)
  {
    s := Fill(l, hs, NBUF);
    AllPins(s, l, hs);
    s := EndOne(s, 1);
    s := EndOne(s, 2);
    s := EndOne(s, 3);
  }

  /**
   With no other reader about, a commit can always get its buffers exactly when the log
   area has at most NBUF blocks.  LogCapacity asks for more than LOGSIZE blocks, and
   NBUF == LOGSIZE: no log area keeps both log_write and bget from panicking.
   */
  lemma BufferCapacity(l: Layout, hs: seq<nat>)
    requires l.Valid()
    requires |hs| == NBUF && Distinct(hs) && forall j :: 0 <= j < |hs| ==> l.Home(hs[j])
    ensures NeverStarves(l) <==> l.size <= NBUF
    ensures !(NeverStarves(l) && NeverOverflows(l))
  {
    if l.size <= NBUF {
      forall s, b: nat | Reachable(s) && s.c.l == l && Quiet(s)
        ensures !NoBuffers(s, b)
      {
        SmallLogNeverStarves(s, b);
      }
    } else {
      var s := BigLogStarves(l, hs);
    }
    LogCapacity(l, hs);
  }
}

/**
 The log's invariant holds in every state of every run.
 */
module LogSafety {
  import opened Blocks
  import opened LogFormat
  import opened LogMachine

  // ---------- Steps that touch one buffer ----------

  /** Changing one slot keeps the cache's invariant when the new slot is in order. */
  lemma PutKeeps(c: Core, slots: seq<Slot>, i: nat, sl: Slot)
    requires CacheInv(c, slots) && i < NBUF
    requires sl.dev == ROOTDEV ==> sl.blockno < c.l.nblocks
    requires SlotRefs(c, sl) && SlotCoherent(c, sl)
    requires sl.dev == ROOTDEV ==>
               forall j :: 0 <= j < NBUF && j != i && slots[j].dev == ROOTDEV ==> slots[j].blockno != sl.blockno
    requires Pinned(c, slots[i]) && slots[i].valid ==>
               sl.dev == ROOTDEV && sl.blockno == slots[i].blockno && sl.valid
    ensures CacheInv(c, slots[i := sl])
  {
    var slots' := slots[i := sl];
    assert PendingCached(c, slots') by {
      forall b: nat | b in Pending(c)
        ensures exists k :: CachedAt(slots', b, k)
      {
        var k :| CachedAt(slots, b, k);
        assert CachedAt(slots', b, k);
      }
    }
  }

  /** A block that no slot caches is not pending. */
  lemma UncachedNotPending(s: State, b: nat)
    requires Inv(s)
    requires forall k :: !CachedAt(s.slots, b, k)
    ensures b !in Pending(s.c)
  {
  }

  lemma GetHitKeeps(s: State, s': State, t: Tid, i: nat)
    requires Inv(s) && GetHit(s, s', t, i)
    ensures Inv(s')
  {
    PutKeeps(s.c, s.slots, i, s'.slots[i]);
  }

  lemma GetMissKeeps(s: State, s': State, t: Tid, i: nat, b: nat)
    requires Inv(s) && GetMiss(s, s', t, i, b)
    ensures Inv(s')
  {
    assert s.slots[i].refs == {};
    UncachedNotPending(s, b);
    PutKeeps(s.c, s.slots, i, s'.slots[i]);
  }

  lemma AcquireKeeps(s: State, s': State, t: Tid, i: nat)
    requires Inv(s) && Acquire(s, s', t, i)
    ensures Inv(s')
  {
    PutKeeps(s.c, s.slots, i, s'.slots[i]);
  }

  lemma ReadInKeeps(s: State, s': State, t: Tid, i: nat)
    requires Inv(s) && ReadIn(s, s', t, i)
    ensures Inv(s')
  {
    UncachedNotPending(s, s.slots[i].blockno);
    assert !Recovering(s.c) ==> CleanAt(s.c, s.slots[i].blockno);
    PutKeeps(s.c, s.slots, i, s'.slots[i]);
  }

  lemma ModifyKeeps(s: State, s': State, t: Tid, i: nat, data: Block)
    requires Inv(s) && Modify(s, s', t, i, data)
    ensures Inv(s')
  {
    PutKeeps(s.c, s.slots, i, s'.slots[i]);
  }

  lemma ReleaseKeeps(s: State, s': State, t: Tid, i: nat)
    requires Inv(s) && Release(s, s', t, i)
    ensures Inv(s')
  {
    PutKeeps(s.c, s.slots, i, s'.slots[i]);
  }

  lemma UnrefKeeps(s: State, s': State, t: Tid, i: nat)
    requires Inv(s) && Unref(s, s', t, i)
    ensures Inv(s')
  {
    PutKeeps(s.c, s.slots, i, s'.slots[i]);
  }

  // ---------- begin_op, log_write, end_op ----------

  /** Unspent does not depend on the order in which it counts. */
  lemma {:induction false} UnspentRemove(active: map<Tid, nat>, t: Tid)
    requires t in active
    ensures Unspent(active) == MAXOPBLOCKS - active[t] + Unspent(active - {t})
    decreases |active|
  {
    var u :| u in active && Unspent(active) == MAXOPBLOCKS - active[u] + Unspent(active - {u});
    if u != t {
      UnspentRemove(active - {u}, t);
      UnspentRemove(active - {t}, u);
      assert active - {u} - {t} == active - {t} - {u};
    }
  }

  lemma UnspentPut(active: map<Tid, nat>, t: Tid, n: nat)
    ensures Unspent(active[t := n]) == MAXOPBLOCKS - n + Unspent(active - {t})
  {
    UnspentRemove(active[t := n], t);
    assert active[t := n] - {t} == active - {t};
  }

  lemma {:induction false} UnspentBound(active: map<Tid, nat>)
    requires forall t :: t in active ==> active[t] <= MAXOPBLOCKS
    ensures 0 <= Unspent(active) <= MAXOPBLOCKS * |active|
    decreases |active|
  {
    if active != map[] {
      var t :| t in active && Unspent(active) == MAXOPBLOCKS - active[t] + Unspent(active - {t});
      UnspentBound(active - {t});
      assert (active - {t}).Keys == active.Keys - {t};
      assert |active - {t}| == |active| - 1;
    }
  }

  lemma MapSizes(active: map<Tid, nat>, t: Tid, n: nat)
    ensures t in active ==> |active - {t}| == |active| - 1 && |active[t := n]| == |active|
    ensures t !in active ==> |active[t := n]| == |active| + 1 && active - {t} == active
  {
    assert (active - {t}).Keys == active.Keys - {t};
    assert active[t := n].Keys == active.Keys + {t};
  }

  /** Clean depends on the home blocks and on what is pending. */
  lemma CleanSame(c: Core, c': Core)
    requires Shape(c) && Shape(c') && Clean(c) && (Recovering(c) ==> Recovering(c'))
    requires c'.l == c.l && c'.image == c.image && c'.events == c.events
    requires forall b: nat :: c.l.Home(b) ==> c'.disk[b] == c.disk[b]
    requires forall b: nat :: b in Pending(c) ==> b in Pending(c')
    ensures Clean(c')
  {
    if !Recovering(c') {
      forall b: nat
        ensures CleanAt(c', b)
      {
        assert CleanAt(c, b);
      }
    }
  }

  lemma BeginOpProtocol(c: Core, t: Tid)
    requires Protocol(c) && c.phase.Normal? && t !in c.started
    requires |c.blocks| + (c.outstanding + 1) * MAXOPBLOCKS <= LOGSIZE
    ensures Protocol(c.(outstanding := c.outstanding + 1, active := c.active[t := 0], started := c.started + {t}))
  {
    MapSizes(c.active, t, 0);
    UnspentPut(c.active, t, 0);
    UnspentBound(c.active);
  }

  lemma BeginOpKeeps(s: State, s': State, t: Tid)
    requires Inv(s) && BeginOp(s, s', t)
    ensures Inv(s')
  {
    BeginOpCore(s.c, s'.c, t);
    BeginOpCache(s, s'.c, t);
  }

  lemma BeginOpCore(c: Core, c': Core, t: Tid)
    requires CoreInv(c) && c.phase.Normal? && t !in c.started
    requires |c.blocks| + (c.outstanding + 1) * MAXOPBLOCKS <= LOGSIZE
    requires c' == c.(outstanding := c.outstanding + 1, active := c.active[t := 0], started := c.started + {t})
    ensures CoreInv(c')
  {
    BeginOpProtocol(c, t);
    CleanSame(c, c');
    assert Header(c') == Header(c);
  }

  lemma BeginOpCache(s: State, c': Core, t: Tid)
    requires Inv(s) && c' == s.c.(outstanding := c'.outstanding, active := s.c.active[t := 0], started := c'.started)
    ensures CacheInv(c', s.slots)
  {
    assert Pending(c') == Pending(s.c);
    forall i | 0 <= i < NBUF
      ensures SlotRefs(c', s.slots[i]) && SlotCoherent(c', s.slots[i])
    {
      assert SlotRefs(s.c, s.slots[i]) && SlotCoherent(s.c, s.slots[i]);
    }
  }

  lemma EndOpKeeps(s: State, s': State, t: Tid)
    requires Inv(s) && EndOp(s, s', t)
    ensures Inv(s')
  {
    var c, c' := s.c, s'.c;
    MapSizes(c.active, t, 0);
    UnspentRemove(c.active, t);
    assert |c.active| == 1 ==> c'.active == map[] by {
      if |c.active| == 1 {
        assert |c'.active| == 0;
      }
    }
    assert Protocol(c');
    assert Header(c') == Header(c);
    assert Pending(c') == Pending(c);
    CleanSame(c, c');
    assert CoreInv(c');
    forall i | 0 <= i < NBUF
      ensures SlotRefs(c', s.slots[i]) && SlotCoherent(c', s.slots[i])
    {
      assert SlotRefs(c, s.slots[i]) && SlotCoherent(c, s.slots[i]);
    }
  }

  /** Only the block of the new event gets new contents. */
  lemma LastSnoc(image: seq<Block>, events: seq<Event>, e: Event, b: nat)
    requires b < |image|
    ensures Last(image, events + [e], b) == if e.bno == b then e.data else Last(image, events, b)
  {
    assert (events + [e])[..|events|] == events;
  }

  lemma LogWriteProtocol(c: Core, t: Tid, bno: nat)
    requires Protocol(c) && c.phase.Normal? && c.l.Home(bno) && t in c.active && c.active[t] < MAXOPBLOCKS
    requires !LogFull(c)
    ensures Protocol(c.(blocks := Absorb(c.blocks, bno), active := c.active[t := c.active[t] + 1]))
  {
    AbsorbGood(c.l, c.blocks, bno);
    MapSizes(c.active, t, c.active[t] + 1);
    UnspentPut(c.active, t, c.active[t] + 1);
    UnspentRemove(c.active, t);
  }

  lemma LogWriteCore(c: Core, c': Core, t: Tid, bno: nat, data: Block)
    requires CoreInv(c) && c.l.Home(bno) && t in c.active && c.active[t] < MAXOPBLOCKS && !LogFull(c)
    requires c' == c.(blocks := Absorb(c.blocks, bno), active := c.active[t := c.active[t] + 1],
                      events := c.events + [Event(t, bno, data)])
    ensures CoreInv(c')
  {
    LogWriteProtocol(c, t, bno);
    assert Protocol(c');
    forall b: nat
      ensures CleanAt(c', b)
    {
      assert CleanAt(c, b);
      if c.l.Home(b) {
        LastSnoc(c.image, c.events, Event(t, bno, data), b);
      }
    }
    assert c'.events[..c'.commits] == c.events[..c.commits];
    assert Recoverable(c');
    assert Whole(c');
  }

  lemma LogWriteKeeps(s: State, s': State, t: Tid, i: nat)
    requires Inv(s) && LogWrite(s, s', t, i)
    ensures Inv(s')
  {
    var c, c', bno := s.c, s'.c, s.slots[i].blockno;
    LogWriteCore(c, c', t, bno, s.slots[i].data);
    forall j | 0 <= j < NBUF
      ensures SlotRefs(c', s'.slots[j]) && SlotCoherent(c', s'.slots[j])
    {
      var sl := s.slots[j];
      assert SlotRefs(c, sl) && SlotCoherent(c, sl);
      if sl.dev == ROOTDEV {
        LastSnoc(c.image, c.events, Event(t, bno, s.slots[i].data), sl.blockno);
      }
    }
    forall b: nat | b in Pending(c')
      ensures exists k :: CachedAt(s'.slots, b, k)
    {
      if b == bno {
        assert CachedAt(s'.slots, b, i);
      } else {
        var k :| CachedAt(s.slots, b, k);
        assert CachedAt(s'.slots, b, k);
      }
    }
  }

  // ---------- commit ----------

  /** Recovery depends on the disk and the committed events only. */
  lemma RecoverableFrame(c: Core, c': Core)
    requires Shape(c) && Recoverable(c)
    requires c'.l == c.l && c'.image == c.image && c'.disk == c.disk && c'.events == c.events && c'.commits == c.commits
    ensures Shape(c') && Recoverable(c') && Header(c') == Header(c)
  {
  }

  /** The committer sees the last contents of every block it has locked. */
  lemma SeesLast(s: State, t: Tid, i: nat, b: nat)
    requires Inv(s) && Holds(s, t, i, b) && !s.c.phase.Normal?
    ensures b < s.c.l.nblocks && s.slots[i].data == View(s.c, b)
  {
    assert SlotCoherent(s.c, s.slots[i]);
  }

  /** Writing a locked buffer through to disk keeps the cache coherent when no other view changes. */
  lemma WriteKeepsCache(s: State, c': Core, i: nat, sl: Slot)
    requires Inv(s) && i < NBUF && Shape(c') && c'.l == s.c.l
    requires s.slots[i].dev == sl.dev == ROOTDEV && s.slots[i].blockno == sl.blockno
    requires s.slots[i].valid && sl.valid && !sl.dirty && sl.holder == s.slots[i].holder
    requires s.c.active == map[] && sl.data == View(c', sl.blockno) && SlotRefs(c', sl)
    requires forall b: nat :: b < s.c.l.nblocks && b != sl.blockno ==> View(c', b) == View(s.c, b)
    requires forall b: nat :: b in Pending(c') ==> b in Pending(s.c)
    requires forall b: nat :: b in Pending(s.c) && b != sl.blockno ==> b in Pending(c')
    ensures CacheInv(c', s.slots[i := sl])
  {
    var slots' := s.slots[i := sl];
    forall j | 0 <= j < NBUF
      ensures SlotRefs(c', slots'[j]) && SlotCoherent(c', slots'[j])
    {
      assert SlotRefs(s.c, s.slots[j]) && SlotCoherent(s.c, s.slots[j]);
    }
    forall b: nat | b in Pending(c')
      ensures exists k :: CachedAt(slots', b, k)
    {
      var k :| CachedAt(s.slots, b, k);
      assert CachedAt(slots', b, k);
    }
  }

  lemma CopyToLogCore(c: Core, c': Core, data: Block)
    requires CoreInv(c) && c.phase.WriteLog? && c.phase.tail < |c.blocks|
    requires data == Last(c.image, c.events, c.blocks[c.phase.tail])
    requires c.l.start + 1 + c.phase.tail < |c.disk|
    requires c' == c.(disk := c.disk[c.l.start + 1 + c.phase.tail := data], phase := WriteLog(c.phase.tail + 1))
    ensures CoreInv(c')
  {
    CleanSame(c, c');
    assert Header(c') == Header(c);
    assert LogHolds(c', c'.phase.tail);
  }

  lemma CopyToLogKeeps(s: State, s': State, i: nat, j: nat)
    requires Inv(s) && CopyToLog(s, s', i, j)
    ensures Inv(s')
  {
    SeesLast(s, s.c.committer, j, s.c.blocks[s.c.phase.tail]);
    CopyToLogCore(s.c, s'.c, s.slots[j].data);
    assert SlotRefs(s.c, s.slots[i]);
    WriteKeepsCache(s, s'.c, i, s'.slots[i]);
  }

  lemma LogCopiedCore(c: Core)
    requires CoreInv(c) && c.phase.WriteLog? && c.phase.tail == |c.blocks|
    ensures CoreInv(c.(phase := WriteHead))
  {
    CleanSame(c, c.(phase := WriteHead));
    assert LogHolds(c.(phase := WriteHead), |c.blocks|);
  }

  lemma LogCopiedKeeps(s: State, s': State)
    requires Inv(s) && LogCopied(s, s')
    ensures Inv(s')
  {
    LogCopiedCore(s.c);
    SameCache(s, s'.c);
  }

  /** A change of the log alone keeps the cache's invariant when it changes no view and no pin. */
  lemma SameCache(s: State, c': Core)
    requires Inv(s) && Shape(c') && c'.l == s.c.l && s.c.active == map[]
    requires forall b: nat :: b < s.c.l.nblocks ==> View(c', b) == View(s.c, b)
    requires forall b: nat :: b in Pending(c') <==> b in Pending(s.c)
    ensures CacheInv(c', s.slots)
  {
    forall j | 0 <= j < NBUF
      ensures SlotRefs(c', s.slots[j]) && SlotCoherent(c', s.slots[j])
    {
      assert SlotRefs(s.c, s.slots[j]) && SlotCoherent(s.c, s.slots[j]);
    }
  }

  lemma CommitHeadCore(c: Core, c': Core, head: Block)
    requires CoreInv(c) && c.phase.WriteHead?
    requires HeadOk(head) && DecodeHead(head) == c.blocks
    requires c' == c.(disk := c.disk[c.l.start := head], phase := Install(0), commits := |c.events|)
    ensures CoreInv(c')
  {
    assert Header(c') == c.blocks;
    assert c'.events[..c'.commits] == c.events;
    assert Pending(c') == c.blocks;
    CleanSame(c, c');
    assert LogHolds(c, |c.blocks|);
    forall b: nat | c.l.Home(b) && b !in c.blocks
      ensures c'.disk[b] == Last(c.image, c.events, b)
    {
      assert CleanAt(c, b);
    }
    assert Recoverable(c');
  }

  lemma CommitHeadCache(s: State, c': Core, i: nat, head: Block)
    requires Inv(s) && s.c.phase.WriteHead? && Holds(s, s.c.committer, i, s.c.l.start)
    requires c' == s.c.(disk := s.c.disk[s.c.l.start := head], phase := Install(0), commits := |s.c.events|)
    ensures CacheInv(c', s.slots[i := s.slots[i].(data := head)])
  {
    assert SlotRefs(s.c, s.slots[i]) && SlotCoherent(s.c, s.slots[i]);
    assert Pending(c') == Pending(s.c);
    WriteKeepsCache(s, c', i, s.slots[i].(data := head));
  }

  lemma CommitHeadKeeps(s: State, s': State, i: nat)
    requires Inv(s) && CommitHead(s, s', i)
    ensures Inv(s')
  {
    var head := EncodeHead(s.slots[i].data, s.c.blocks);
    HeadRoundTrip(s.slots[i].data, s.c.blocks);
    CommitHeadCore(s.c, s'.c, head);
    CommitHeadCache(s, s'.c, i, head);
  }

  /** Writing a block that the header lists changes nothing for recovery. */
  lemma HomeWriteRecoverable(c: Core, c': Core, k: nat, data: Block)
    requires Shape(c) && Recoverable(c) && k < |Header(c)|
    requires c'.l == c.l && c'.image == c.image && c'.events == c.events && c'.commits == c.commits
    requires c'.disk == c.disk[Header(c)[k] := data]
    ensures Shape(c') && Recoverable(c') && Header(c') == Header(c)
  {
    assert c.l.Home(Header(c)[k]);
    assert c'.disk[c.l.start] == c.disk[c.l.start];
    assert Header(c') == Header(c);
  }

  /** In the header's log block k, recovery and install_trans find the last contents of its home block. */
  lemma LogBlockIsLast(c: Core, k: nat)
    requires Shape(c) && Recoverable(c) && c.commits == |c.events| && k < |Header(c)|
    ensures c.disk[c.l.start + 1 + k] == Last(c.image, c.events, Header(c)[k])
  {
    assert c.events[..c.commits] == c.events;
  }

  lemma CopyHomeClean(c: Core, c': Core, data: Block)
    requires Shape(c) && Clean(c) && Protocol(c) && Recoverable(c) && c.commits == |c.events| && Header(c) == c.blocks
    requires c.phase.Install? && c.phase.tail < |c.blocks|
    requires c.l.start + 1 + c.phase.tail < |c.disk| && data == c.disk[c.l.start + 1 + c.phase.tail]
    requires c' == c.(disk := c.disk[c.blocks[c.phase.tail] := data], phase := Install(c.phase.tail + 1))
    ensures Shape(c') && Clean(c')
  {
    LogBlockIsLast(c, c.phase.tail);
    CopyHomePending(c, c');
    forall b: nat
      ensures CleanAt(c', b)
    {
      assert CleanAt(c, b);
    }
  }

  lemma CopyHomeProgress(c: Core, c': Core, data: Block)
    requires Shape(c) && Protocol(c) && Recoverable(c) && Header(c) == c.blocks
    requires c.phase.Install? && c.phase.tail < |c.blocks|
    requires c' == c.(disk := c.disk[c.blocks[c.phase.tail] := data], phase := Install(c.phase.tail + 1))
    ensures Shape(c') && Protocol(c') && Recoverable(c') && Progress(c')
  {
    HomeWriteRecoverable(c, c', c.phase.tail, data);
    CopyHomeProtocol(c, c');
  }

  lemma CopyHomeProtocol(c: Core, c': Core)
    requires Protocol(c) && c.phase.Install? && c.phase.tail < |c.blocks|
    requires c' == c.(disk := c'.disk, phase := Install(c.phase.tail + 1))
    ensures Protocol(c')
  {
  }

  lemma CopyHomeWhole(c: Core, c': Core)
    requires Whole(c) && c.phase.Install? && c' == c.(disk := c'.disk, phase := Install(c.phase.tail + 1))
    ensures Whole(c')
  {
  }

  lemma CopyHomeCore(c: Core, c': Core, data: Block)
    requires CoreInv(c) && c.phase.Install? && c.phase.tail < |c.blocks|
    requires c.l.start + 1 + c.phase.tail < |c.disk| && data == c.disk[c.l.start + 1 + c.phase.tail]
    requires c' == c.(disk := c.disk[c.blocks[c.phase.tail] := data], phase := Install(c.phase.tail + 1))
    ensures CoreInv(c')
  {
    CopyHomeProgress(c, c', data);
    CopyHomeClean(c, c', data);
    CopyHomeWhole(c, c');
  }

  lemma CopyHomePending(c: Core, c': Core)
    requires Protocol(c) && c.phase.Install? && c.phase.tail < |c.blocks|
    requires c'.blocks == c.blocks && c'.phase == Install(c.phase.tail + 1)
    ensures forall b: nat :: b in Pending(c') <==> b in Pending(c) && b != c.blocks[c.phase.tail]
    ensures c.blocks[c.phase.tail] in Pending(c)
  {
    var tail := c.phase.tail;
    assert Pending(c) == [c.blocks[tail]] + Pending(c');
    assert forall k :: 0 <= k < |Pending(c')| ==> Pending(c')[k] == c.blocks[tail + 1 + k];
  }

  /** Inv(s), kept folded where only parts of it are needed. */
  ghost predicate Sealed(s: State) {
    forall x: State :: x == s ==> Inv(x)
  }

  /** The log's block for entry k holds data, and there is a home block to install it to. */
  predicate LoggedAt(c: Core, k: nat, data: Block) {
    k < |c.blocks| && c.l.start + 1 + k < |c.disk| && data == c.disk[c.l.start + 1 + k] && c.blocks[k] < |c.disk|
  }

  /** Installing a block changes what readers see nowhere: it was in the cache. */
  lemma CopyHomeViews(s: State, c': Core, data: Block)
    requires Sealed(s) && s.c.phase.Install? && LoggedAt(s.c, s.c.phase.tail, data)
    requires c' == s.c.(disk := s.c.disk[s.c.blocks[s.c.phase.tail] := data], phase := Install(s.c.phase.tail + 1))
    ensures Shape(s.c) && Shape(c') && s.c.blocks[s.c.phase.tail] < s.c.l.nblocks
    ensures View(c', s.c.blocks[s.c.phase.tail]) == data
    ensures forall b: nat :: b < s.c.l.nblocks && b != s.c.blocks[s.c.phase.tail] ==> View(c', b) == View(s.c, b)
  {
    assert Inv(s);
    LogBlockIsLast(s.c, s.c.phase.tail);
  }

  /** It is no longer pinned, and its buffer is clean. */
  lemma CopyHomeSlot(s: State, c': Core, j: nat, data: Block)
    requires Sealed(s) && s.c.phase.Install? && s.c.phase.tail < |s.c.blocks| && j < NBUF
    requires Holds(s, s.c.committer, j, s.c.blocks[s.c.phase.tail])
    requires c'.blocks == s.c.blocks && c'.phase == Install(s.c.phase.tail + 1)
    ensures s.c.active == map[] && !s.slots[j].dirty
    ensures SlotRefs(c', s.slots[j].(data := data, refcnt := s.slots[j].refcnt - 1))
  {
    assert Inv(s);
    CopyHomePending(s.c, c');
    assert SlotRefs(s.c, s.slots[j]) && SlotCoherent(s.c, s.slots[j]);
  }

  lemma CopyHomeCache(s: State, c': Core, j: nat, data: Block, sl: Slot)
    requires Sealed(s) && s.c.phase.Install? && j < NBUF && LoggedAt(s.c, s.c.phase.tail, data)
    requires Holds(s, s.c.committer, j, s.c.blocks[s.c.phase.tail])
    requires c' == s.c.(disk := s.c.disk[s.c.blocks[s.c.phase.tail] := data], phase := Install(s.c.phase.tail + 1))
    requires sl == s.slots[j].(data := data, refcnt := s.slots[j].refcnt - 1)
    ensures CacheInv(c', s.slots[j := sl])
  {
    CopyHomeViews(s, c', data);
    CopyHomeSlot(s, c', j, data);
    assert Inv(s);
    CopyHomePending(s.c, c');
    WriteKeepsCache(s, c', j, sl);
  }

  lemma CopyHomeState(s: State, s': State, j: nat, data: Block)
    requires Sealed(s) && s.c.phase.Install? && j < NBUF && LoggedAt(s.c, s.c.phase.tail, data)
    requires Holds(s, s.c.committer, j, s.c.blocks[s.c.phase.tail])
    requires s'.c == s.c.(disk := s.c.disk[s.c.blocks[s.c.phase.tail] := data], phase := Install(s.c.phase.tail + 1))
    requires s'.slots == s.slots[j := s.slots[j].(data := data, refcnt := s.slots[j].refcnt - 1)]
    ensures Inv(s')
  {
    CopyHomeSealed(s, s'.c, data);
    CopyHomeCache(s, s'.c, j, data, s'.slots[j]);
  }

  lemma CopyHomeSealed(s: State, c': Core, data: Block)
    requires Sealed(s) && s.c.phase.Install? && LoggedAt(s.c, s.c.phase.tail, data)
    requires c' == s.c.(disk := s.c.disk[s.c.blocks[s.c.phase.tail] := data], phase := Install(s.c.phase.tail + 1))
    ensures CoreInv(c')
  {
    assert Inv(s);
    CopyHomeCore(s.c, c', data);
  }

  lemma CopyHomeKeeps(s: State, s': State, i: nat, j: nat)
    requires Inv(s) && CopyHome(s, s', i, j)
    ensures Inv(s')
  {
    SeesLast(s, s.c.committer, i, s.c.l.start + 1 + s.c.phase.tail);
    CopyHomeState(s, s', j, s.slots[i].data);
  }

  lemma InstalledCore(c: Core)
    requires CoreInv(c) && c.phase.Install? && c.phase.tail == |c.blocks|
    ensures CoreInv(c.(phase := ClearHead, blocks := []))
  {
    RecoverableFrame(c, c.(phase := ClearHead, blocks := []));
    assert Pending(c) == [];
    CleanSame(c, c.(phase := ClearHead, blocks := []));
    UnspentBound(c.active);
  }

  lemma InstalledKeeps(s: State, s': State)
    requires Inv(s) && Installed(s, s')
    ensures Inv(s')
  {
    InstalledCore(s.c);
    assert Pending(s.c) == [];
    SameCache(s, s'.c);
  }

  lemma EraseHeadCore(c: Core, c': Core, head: Block)
    requires CoreInv(c) && (c.phase.ClearHead? || c.phase.RecClear?)
    requires HeadOk(head) && DecodeHead(head) == []
    requires c' == c.(disk := c.disk[c.l.start := head], phase := if c.phase.ClearHead? then EndCommit else Normal)
    ensures CoreInv(c')
  {
    assert Header(c') == [];
    assert c.events[..c.commits] == c.events;
    AllHome(c);
    forall b: nat
      ensures CleanAt(c', b)
    {
    }
    assert Recoverable(c');
  }

  /** Everything is at home once install_trans is done. */
  lemma AllHome(c: Core)
    requires CoreInv(c) && (c.phase.ClearHead? || c.phase.RecClear?)
    ensures forall b: nat :: c.l.Home(b) ==> c.disk[b] == Last(c.image, c.events, b)
  {
    if c.phase.ClearHead? {
      assert Pending(c) == [];
      forall b: nat | c.l.Home(b)
        ensures c.disk[b] == Last(c.image, c.events, b)
      {
        assert CleanAt(c, b);
      }
    }
  }

  lemma EraseHeadKeeps(s: State, s': State, i: nat)
    requires Inv(s) && EraseHead(s, s', i)
    ensures Inv(s')
  {
    HeadRoundTrip(s.slots[i].data, []);
    EraseHeadCore(s.c, s'.c, EncodeHead(s.slots[i].data, []));
    assert SlotRefs(s.c, s.slots[i]) && SlotCoherent(s.c, s.slots[i]);
    WriteKeepsCache(s, s'.c, i, s'.slots[i]);
  }

  lemma FinishKeeps(s: State, s': State)
    requires Inv(s) && Finish(s, s')
    ensures Inv(s')
  {
    assert Header(s'.c) == Header(s.c);
    CleanSame(s.c, s'.c);
    assert CoreInv(s'.c);
    SameCache(s, s'.c);
  }

  // ---------- crash and recovery ----------

  lemma CrashCore(c: Core, c': Core)
    requires CoreInv(c)
    requires c' == c.(blocks := [], outstanding := 0, phase := Boot, active := map[], events := c.events[..c.commits])
    ensures CoreInv(c')
  {
    assert c'.events[..c'.commits] == c.events[..c.commits];
    assert Header(c') == Header(c);
  }

  lemma CrashKeeps(s: State, s': State)
    requires Inv(s) && Crash(s, s')
    ensures Inv(s')
  {
    CrashCore(s.c, s'.c);
  }

  lemma ReadHeadCore(c: Core, c': Core, t: Tid)
    requires CoreInv(c) && c.phase.Boot?
    requires c' == c.(blocks := Header(c), phase := RecInstall(0), committer := t)
    ensures CoreInv(c')
  {
    assert Header(c') == Header(c);
  }

  lemma ReadHeadKeeps(s: State, s': State, t: Tid, i: nat)
    requires Inv(s) && ReadHead(s, s', t, i)
    ensures Inv(s')
  {
    SeesLast(s, t, i, s.c.l.start);
    ReadHeadCore(s.c, s'.c, t);
    SameCache(s, s'.c);
  }

  lemma RecCopyHomeProgress(c: Core, c': Core, data: Block)
    requires Shape(c) && HeadOk(c.disk[c.l.start]) && Protocol(c) && Progress(c)
    requires c.phase.RecInstall? && c.phase.tail < |c.blocks| && data == Last(c.image, c.events, c.blocks[c.phase.tail])
    requires c' == c.(disk := c.disk[c.blocks[c.phase.tail] := data], phase := RecInstall(c.phase.tail + 1))
    ensures HeadOk(c'.disk[c'.l.start]) && Protocol(c') && Progress(c')
  {
    assert c.l.Home(c.blocks[c.phase.tail]);
  }

  lemma RecCopyHomeCore(c: Core, c': Core, data: Block)
    requires CoreInv(c) && c.phase.RecInstall? && c.phase.tail < |c.blocks|
    requires c.l.start + 1 + c.phase.tail < |c.disk| && data == c.disk[c.l.start + 1 + c.phase.tail]
    requires c' == c.(disk := c.disk[c.blocks[c.phase.tail] := data], phase := RecInstall(c.phase.tail + 1))
    ensures CoreInv(c')
  {
    LogBlockIsLast(c, c.phase.tail);
    HomeWriteRecoverable(c, c', c.phase.tail, data);
    RecCopyHomeProgress(c, c', data);
  }

  lemma RecCopyHomeKeeps(s: State, s': State, i: nat, j: nat)
    requires Inv(s) && RecCopyHome(s, s', i, j)
    ensures Inv(s')
  {
    var c, c' := s.c, s'.c;
    SeesLast(s, c.committer, i, c.l.start + 1 + c.phase.tail);
    RecCopyHomeCore(c, c', s.slots[i].data);
    assert SlotRefs(c, s.slots[j]) && SlotCoherent(c, s.slots[j]);
    WriteKeepsCache(s, c', j, s'.slots[j]);
  }

  lemma RecInstalledCore(c: Core, c': Core)
    requires CoreInv(c) && c.phase.RecInstall? && c.phase.tail == |c.blocks|
    requires c' == c.(phase := RecClear, blocks := [])
    ensures CoreInv(c')
  {
    assert Header(c') == Header(c);
    assert c.events[..c.commits] == c.events;
    forall b: nat | c.l.Home(b)
      ensures c'.disk[b] == Last(c'.image, c'.events, b)
    {
      if b in c.blocks {
        var j :| 0 <= j < |c.blocks| && c.blocks[j] == b;
      }
    }
  }

  lemma RecInstalledKeeps(s: State, s': State)
    requires Inv(s) && RecInstalled(s, s')
    ensures Inv(s')
  {
    RecInstalledCore(s.c, s'.c);
    SameCache(s, s'.c);
  }

  // ---------- Whole runs ----------

  lemma InitInv(s: State)
    requires Init(s)
    ensures Inv(s)
  {
    assert Unspent(s.c.active) == 0;
    assert s.c.events[..s.c.commits] == [];
    assert Recoverable(s.c);
  }

  lemma NextKeeps(s: State, s': State, step: Step)
    requires Inv(s) && Next(s, s', step)
    ensures Inv(s')
  {
    match step
    case SGetHit(t, i) => GetHitKeeps(s, s', t, i);
    case SGetMiss(t, i, b) => GetMissKeeps(s, s', t, i, b);
    case SAcquire(t, i) => AcquireKeeps(s, s', t, i);
    case SReadIn(t, i) => ReadInKeeps(s, s', t, i);
    case SModify(t, i, data) => ModifyKeeps(s, s', t, i, data);
    case SLogWrite(t, i) => LogWriteKeeps(s, s', t, i);
    case SRelease(t, i) => ReleaseKeeps(s, s', t, i);
    case SUnref(t, i) => UnrefKeeps(s, s', t, i);
    case SBeginOp(t) => BeginOpKeeps(s, s', t);
    case SEndOp(t) => EndOpKeeps(s, s', t);
    case SCopyToLog(i, j) => CopyToLogKeeps(s, s', i, j);
    case SLogCopied => LogCopiedKeeps(s, s');
    case SCommitHead(i) => CommitHeadKeeps(s, s', i);
    case SCopyHome(i, j) => CopyHomeKeeps(s, s', i, j);
    case SInstalled => InstalledKeeps(s, s');
    case SEraseHead(i) => EraseHeadKeeps(s, s', i);
    case SFinish => FinishKeeps(s, s');
    case SCrash => CrashKeeps(s, s');
    case SReadHead(t, i) => ReadHeadKeeps(s, s', t, i);
    case SRecCopyHome(i, j) => RecCopyHomeKeeps(s, s', i, j);
    case SRecInstalled => RecInstalledKeeps(s, s');
  }

  /** A run from the first boot: run[0] is initial and each state follows from the one before. */
  ghost predicate IsRun(run: seq<State>) {
    && |run| > 0
    && Init(run[0])
    && forall k :: 0 < k < |run| ==> FollowsAt(run, k)
  }

  /** State k of a run follows from the one before. */
  ghost predicate FollowsAt(run: seq<State>, k: nat)
    requires 0 < k < |run|
  {
    Follows(run[k - 1], run[k])
  }

  ghost predicate Follows(s: State, s': State) {
    exists step :: Next(s, s', step)
  }

  lemma {:induction false} RunInv(run: seq<State>, k: nat)
    requires IsRun(run) && k < |run|
    ensures Inv(run[k])
  {
    if k == 0 {
      InitInv(run[0]);
    } else {
      RunInv(run, k - 1);
      assert FollowsAt(run, k);
      var step :| Next(run[k - 1], run[k], step);
      NextKeeps(run[k - 1], run[k], step);
    }
  }
}

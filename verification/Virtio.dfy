/**
 The disk driver of kernel/virtio_disk.c and the device on the other side of the
 virtqueue (sections 2.6 and 5.2 of the Virtual I/O Device (VIRTIO) 1.1
 specification).  Methods named Device... are the device's moves; it takes published
 chains in order and completes each once, in any order.
 */
module Virtio {
  import opened Common

  const NUM: nat := 8
  const BSIZE: nat := 1024
  const WRAP: nat := 0x1_0000   // ring indices are 16 bits wide

  type Buf = nat
  type Block = nat   // the contents of a block

  datatype Addr = Nowhere | OpAt(i: nat) | DataOf(b: Buf) | StatusAt(i: nat)

  datatype Desc = Desc(addr: Addr, len: nat, hasNext: bool, deviceWrites: bool, next: nat)

  datatype Info = Info(b: Option<Buf>, status: nat)

  datatype Op = Op(write: bool, sector: nat)

  const NODESC := Desc(Nowhere, 0, false, false, 0)

  datatype Phase = Published | Taken | Completed | Seen

  /** A request in flight; its chain is its head, mid and last. */
  datatype Req = Req(mid: nat, last: nat, b: Buf, write: bool, sector: nat, phase: Phase)

  function Chain(h: nat, r: Req): (c: set<nat>) {
    {h, r.mid, r.last}
  }

  // ---------- Chains partition the descriptors ----------

  ghost predicate InChain(reqs: map<nat, Req>, i: nat) {
    exists h :: h in reqs && i in Chain(h, reqs[h])
  }

  ghost predicate ChainsOk(reqs: map<nat, Req>) {
    && (forall h :: h in reqs ==> OwnCells(h, reqs[h]))
    && (forall h, g :: PairApart(reqs, h, g))
  }

  ghost predicate PairApart(reqs: map<nat, Req>, h: nat, g: nat) {
    h in reqs && g in reqs && h != g ==> Apart(h, reqs[h], g, reqs[g])
  }

  predicate OwnCells(h: nat, r: Req) {
    h < NUM && r.mid < NUM && r.last < NUM && h != r.mid && h != r.last && r.mid != r.last
  }

  predicate Apart(h: nat, r: Req, g: nat, q: Req) {
    Chain(h, r) !! Chain(g, q) && r.b != q.b
  }

  /** A descriptor is free exactly when no chain contains it. */
  ghost predicate FreeOk(free: seq<bool>, reqs: map<nat, Req>) {
    |free| == NUM && forall i :: 0 <= i < NUM ==> CellOk(free, reqs, i)
  }

  ghost predicate CellOk(free: seq<bool>, reqs: map<nat, Req>, i: nat)
    requires i < |free|
  {
    free[i] <==> !InChain(reqs, i)
  }

  ghost predicate Distinct(q: seq<nat>) {
    forall j, k :: 0 <= j < k < |q| ==> q[j] != q[k]
  }

  ghost predicate Heads(q: seq<nat>, reqs: map<nat, Req>) {
    Distinct(q) && forall k :: 0 <= k < |q| ==> q[k] in reqs
  }

  /** The descriptors of the chains with heads q */
  ghost function Cells(q: seq<nat>, reqs: map<nat, Req>): (s: set<nat>)
    requires Heads(q, reqs)
  {
    if q == [] then {} else Cells(q[..|q| - 1], reqs) + Chain(q[|q| - 1], reqs[q[|q| - 1]])
  }

  lemma {:induction false} CellsApart(q: seq<nat>, reqs: map<nat, Req>, h: nat)
    requires ChainsOk(reqs) && Heads(q, reqs) && h in reqs && h !in q
    ensures Cells(q, reqs) !! Chain(h, reqs[h])
  {
    if q != [] {
      var g := q[|q| - 1];
      CellsApart(q[..|q| - 1], reqs, h);
      assert PairApart(reqs, g, h);
    }
  }

  lemma {:induction false} CountCells(q: seq<nat>, reqs: map<nat, Req>)
    requires ChainsOk(reqs) && Heads(q, reqs)
    ensures |Cells(q, reqs)| == 3 * |q| && forall i :: i in Cells(q, reqs) ==> i < NUM
  {
    if q != [] {
      var h, rest := q[|q| - 1], q[..|q| - 1];
      CountCells(rest, reqs);
      CellsApart(rest, reqs, h);
      assert OwnCells(h, reqs[h]);
      ThreeCells(h, reqs[h]);
    }
  }

  lemma ThreeCells(h: nat, r: Req)
    requires OwnCells(h, r)
    ensures |Chain(h, r)| == 3
  {
  }

  lemma {:induction false} Below(n: nat, s: set<nat>)
    requires forall i :: i in s ==> i < n
    ensures |s| <= n
    decreases n
  {
    if n > 0 {
      Below(n - 1, s - {n - 1});
    } else {
      assert s == {};
    }
  }

  /** At most NUM / 3 requests are in flight, however one lists them. */
  lemma InFlight(q: seq<nat>, reqs: map<nat, Req>)
    requires ChainsOk(reqs) && Heads(q, reqs)
    ensures |q| <= NUM / 3
  {
    CountCells(q, reqs);
    Below(NUM, Cells(q, reqs));
  }

  // ---------- Rings ----------

  /** virtq_avail and virtq_used: where the producer writes next, and the slots */
  datatype Ring = Ring(idx: nat, slots: seq<nat>)

  /** The heads waiting in a ring, after n others that have passed through it */
  datatype Queue = Queue(heads: seq<nat>, n: nat)

  /** The ring holds the heads of exactly the requests in phase ph; the consumer has come as far as last. */
  ghost predicate RingOk(ring: Ring, last: nat, q: Queue, reqs: map<nat, Req>, ph: Phase) {
    && last == q.n % WRAP && ring.idx == (q.n + |q.heads|) % WRAP
    && |ring.slots| == NUM && Heads(q.heads, reqs)
    && (forall k :: 0 <= k < |q.heads| ==> reqs[q.heads[k]].phase == ph)
    && (forall k :: 0 <= k < |q.heads| ==> ring.slots[(q.n + k) % NUM] == q.heads[k])
    && (forall h :: Listed(reqs, h, q.heads, ph))
  }

  /** A request in phase ph is in the list. */
  ghost predicate Listed(reqs: map<nat, Req>, h: nat, heads: seq<nat>, ph: Phase) {
    h in reqs && reqs[h].phase == ph ==> h in heads
  }

  /** Indices that wrap at 16 bits still name the right slot, and tell full from empty. */
  lemma WrapSlot(n: nat, m: nat)
    ensures n % WRAP % NUM == n % NUM
    ensures (n % WRAP + 1) % WRAP == (n + 1) % WRAP
    ensures n <= m < n + WRAP ==> (n % WRAP == m % WRAP <==> n == m)
  {
  }

  lemma SlotsDiffer(n: nat, j: nat, k: nat)
    requires j < k < j + NUM
    ensures (n + j) % NUM != (n + k) % NUM
  {
  }

  /** The consumer's comparison of indices tells whether something waits, and what. */
  lemma RingNext(ring: Ring, last: nat, q: Queue, reqs: map<nat, Req>, ph: Phase)
    requires ChainsOk(reqs) && RingOk(ring, last, q, reqs, ph)
    ensures |q.heads| <= NUM / 3 && (last == ring.idx <==> q.heads == [])
    ensures q.heads != [] ==> ring.slots[last % NUM] == q.heads[0]
  {
    InFlight(q.heads, reqs);
    WrapSlot(q.n, q.n + |q.heads|);
    if q.heads != [] {
      assert ring.slots[(q.n + 0) % NUM] == q.heads[0];
    }
  }

  /** Publishing a head overwrites no entry still waiting. */
  lemma RingPush(ring: Ring, last: nat, q: Queue, reqs: map<nat, Req>, h: nat, r: Req)
    requires ChainsOk(reqs) && RingOk(ring, last, q, reqs, r.phase) && h !in q.heads
    ensures RingOk(Ring((ring.idx + 1) % WRAP, ring.slots[ring.idx % NUM := h]), last,
                   Queue(q.heads + [h], q.n), reqs[h := r], r.phase)
  {
    InFlight(q.heads, reqs);
    WrapSlot(q.n + |q.heads|, 0);
    forall k | 0 <= k < |q.heads|
      ensures ring.slots[ring.idx % NUM := h][(q.n + k) % NUM] == q.heads[k]
    {
      SlotsDiffer(q.n, k, |q.heads|);
    }
    var reqs', heads := reqs[h := r], q.heads + [h];
    forall g
      ensures Listed(reqs', g, heads, r.phase)
    {
      assert Listed(reqs, g, q.heads, r.phase);
    }
  }

  lemma RingPop(ring: Ring, last: nat, q: Queue, reqs: map<nat, Req>, ph: Phase, r: Req)
    requires RingOk(ring, last, q, reqs, ph) && q.heads != [] && r.phase != ph
    ensures RingOk(ring, (last + 1) % WRAP, Queue(q.heads[1..], q.n + 1), reqs[q.heads[0] := r], ph)
  {
    WrapSlot(q.n, 0);
    var heads := q.heads[1..];
    forall k | 0 <= k < |heads|
      ensures ring.slots[(q.n + 1 + k) % NUM] == heads[k]
    {
      assert ring.slots[(q.n + (k + 1)) % NUM] == q.heads[k + 1];
    }
    var reqs' := reqs[q.heads[0] := r];
    forall g
      ensures Listed(reqs', g, heads, ph)
    {
      assert Listed(reqs, g, q.heads, ph);
      assert q.heads == [q.heads[0]] + heads;
    }
  }

  /** A request outside a ring may change, as long as it stays outside. */
  lemma RingSame(ring: Ring, last: nat, q: Queue, reqs: map<nat, Req>, ph: Phase, h: nat, r: Req)
    requires RingOk(ring, last, q, reqs, ph) && h !in q.heads && r.phase != ph
    ensures RingOk(ring, last, q, reqs[h := r], ph)
  {
    var reqs' := reqs[h := r];
    forall g
      ensures Listed(reqs', g, q.heads, ph)
    {
      assert Listed(reqs, g, q.heads, ph);
    }
  }

  lemma RingDrop(ring: Ring, last: nat, q: Queue, reqs: map<nat, Req>, ph: Phase, h: nat)
    requires RingOk(ring, last, q, reqs, ph) && h !in q.heads
    ensures RingOk(ring, last, q, reqs - {h}, ph)
  {
    var reqs' := reqs - {h};
    forall g
      ensures Listed(reqs', g, q.heads, ph)
    {
      assert Listed(reqs, g, q.heads, ph);
    }
  }

  // ---------- How a request is laid out ----------

  ghost predicate Formatted(h: nat, r: Req, desc: seq<Desc>, info: seq<Info>, ops: seq<Op>)
    requires OwnCells(h, r) && |desc| == NUM && |info| == NUM && |ops| == NUM
  {
    && desc[h] == Desc(OpAt(h), 16, true, false, r.mid)
    && desc[r.mid] == Desc(DataOf(r.b), BSIZE, true, !r.write, r.last)
    && desc[r.last] == Desc(StatusAt(h), 1, false, true, 0)
    && ops[h] == Op(r.write, r.sector)
    && info[h].b == Some(r.b)
    && (r.phase == Completed || r.phase == Seen ==> info[h].status == 0)
  }

  /** There are not three free descriptors. */
  ghost predicate Few(free: seq<bool>) {
    forall i, j, k :: 0 <= i < j < k < |free| ==> !(free[i] && free[j] && free[k])
  }

  /** The descriptors of idx, and no others, have become used. */
  ghost predicate Took(was: seq<bool>, now: seq<bool>, idx: seq<nat>) {
    && |was| == |now| && Distinct(idx)
    && (forall k :: 0 <= k < |idx| ==> idx[k] < |was| && was[idx[k]])
    && (forall i :: 0 <= i < |was| ==> (now[i] <==> was[i] && i !in idx))
  }

  lemma TookAll(was: seq<bool>, now: seq<bool>, idx: seq<nat>)
    requires Took(was, now, idx) && |idx| < 3 && forall i :: 0 <= i < |now| ==> !now[i]
    ensures Few(was)
  {
  }

  lemma TookCells(was: seq<bool>, now: seq<bool>, idx: seq<nat>)
    requires Took(was, now, idx) && |idx| == 3 && |was| == NUM
    ensures idx[0] < NUM && idx[1] < NUM && idx[2] < NUM && idx[0] != idx[1] && idx[0] != idx[2] && idx[1] != idx[2]
  {
  }

  function Fetch(m: map<nat, Block>, k: nat): Block {
    if k in m then m[k] else 0
  }

  // ---------- One more request, one request less ----------

  lemma ChainAdded(reqs: map<nat, Req>, h: nat, r: Req, free: seq<bool>, free': seq<bool>)
    requires ChainsOk(reqs) && FreeOk(free, reqs) && Took(free, free', [h, r.mid, r.last])
    requires forall g :: g in reqs ==> reqs[g].b != r.b
    ensures h !in reqs && ChainsOk(reqs[h := r]) && FreeOk(free', reqs[h := r])
  {
    var idx, reqs' := [h, r.mid, r.last], reqs[h := r];
    assert free[idx[0]] && free[idx[1]] && free[idx[2]] && idx[0] != idx[1] && idx[0] != idx[2] && idx[1] != idx[2];
    assert OwnCells(h, r);
    assert CellOk(free, reqs, h) && CellOk(free, reqs, r.mid) && CellOk(free, reqs, r.last);
    forall g | g in reqs
      ensures g != h && Apart(g, reqs[g], h, r) && Apart(h, r, g, reqs[g])
    {
      assert g in Chain(g, reqs[g]);
      assert OwnCells(g, reqs[g]);
    }
    forall g, k
      ensures PairApart(reqs', g, k)
    {
      assert PairApart(reqs, g, k);
    }
    forall i | 0 <= i < NUM
      ensures CellOk(free', reqs', i)
    {
      assert CellOk(free, reqs, i);
      assert i in Chain(h, r) <==> i in idx;
      if i in Chain(h, r) {
        assert h in reqs' && i in Chain(h, reqs'[h]);
      }
      if g :| g in reqs && i in Chain(g, reqs[g]) {
        assert g in reqs' && i in Chain(g, reqs'[g]);
      }
      if g :| g in reqs' && i in Chain(g, reqs'[g]) {
        assert g != h ==> g in reqs && i in Chain(g, reqs[g]);
      }
    }
  }

  lemma ChainGone(reqs: map<nat, Req>, h: nat, free: seq<bool>, free': seq<bool>)
    requires ChainsOk(reqs) && FreeOk(free, reqs) && h in reqs && |free'| == NUM
    requires forall i :: 0 <= i < NUM ==> (free'[i] <==> free[i] || i in Chain(h, reqs[h]))
    ensures ChainsOk(reqs - {h}) && FreeOk(free', reqs - {h})
  {
    var reqs' := reqs - {h};
    forall g, k
      ensures PairApart(reqs', g, k)
    {
      assert PairApart(reqs, g, k);
    }
    forall i | 0 <= i < NUM
      ensures CellOk(free', reqs', i)
    {
      assert CellOk(free, reqs, i);
      if g :| g in reqs' && i in Chain(g, reqs'[g]) {
        assert g in reqs && i in Chain(g, reqs[g]);
        assert PairApart(reqs, g, h);
      }
      if g :| g in reqs && i in Chain(g, reqs[g]) {
        assert g != h ==> g in reqs' && i in Chain(g, reqs'[g]);
      }
    }
  }

  /** A change of phase moves no descriptor. */
  lemma PhaseChanged(reqs: map<nat, Req>, h: nat, ph: Phase, free: seq<bool>)
    requires ChainsOk(reqs) && FreeOk(free, reqs) && h in reqs
    ensures ChainsOk(reqs[h := reqs[h].(phase := ph)]) && FreeOk(free, reqs[h := reqs[h].(phase := ph)])
  {
    var reqs' := reqs[h := reqs[h].(phase := ph)];
    forall g | g in reqs
      ensures OwnCells(g, reqs'[g]) && Chain(g, reqs'[g]) == Chain(g, reqs[g]) && reqs'[g].b == reqs[g].b
    {
      assert OwnCells(g, reqs[g]);
    }
    forall g, k
      ensures PairApart(reqs', g, k)
    {
      assert PairApart(reqs, g, k);
    }
    forall i | 0 <= i < NUM
      ensures CellOk(free, reqs', i)
    {
      assert CellOk(free, reqs, i);
      if g :| g in reqs && i in Chain(g, reqs[g]) {
        assert g in reqs' && i in Chain(g, reqs'[g]);
      }
      if g :| g in reqs' && i in Chain(g, reqs'[g]) {
        assert g in reqs && i in Chain(g, reqs[g]);
      }
    }
  }

  ghost predicate LaidOut(h: nat, r: Req, desc: seq<Desc>, info: seq<Info>, ops: seq<Op>, busy: set<Buf>) {
    && |desc| == NUM && |info| == NUM && |ops| == NUM && OwnCells(h, r)
    && Formatted(h, r, desc, info, ops)
    && (r.b in busy <==> r.phase != Seen)
  }

  /** Every request is laid out in descriptors of its own, and the others are free. */
  ghost predicate Shape(reqs: map<nat, Req>, free: seq<bool>, desc: seq<Desc>, info: seq<Info>, ops: seq<Op>,
                        busy: set<Buf>) {
    && |desc| == NUM && |info| == NUM && |ops| == NUM
    && ChainsOk(reqs) && FreeOk(free, reqs)
    && forall h :: h in reqs ==> LaidOut(h, reqs[h], desc, info, ops, busy)
  }

  // ---------- Steps ----------

  datatype State = State(
    reqs: map<nat, Req>, free: seq<bool>, desc: seq<Desc>, info: seq<Info>, ops: seq<Op>, busy: set<Buf>,
    avail: Ring, lastAvail: nat, availQ: Queue, used: Ring, lastUsed: nat, usedQ: Queue,
    store: map<nat, Block>, data: map<Buf, Block>)

  ghost predicate Good(s: State) {
    && Shape(s.reqs, s.free, s.desc, s.info, s.ops, s.busy)
    && RingOk(s.avail, s.lastAvail, s.availQ, s.reqs, Published)
    && RingOk(s.used, s.lastUsed, s.usedQ, s.reqs, Completed)
  }

  /** Good(now), behind a quantifier: its parts are unfolded only where they are asserted. */
  ghost predicate Sound(now: State) {
    forall s :: s == now ==> Good(s)
  }

  /** Three free descriptors have become the chain of request r, and nothing else changed. */
  ghost predicate Prepared(s: State, s': State, h: nat, r: Req) {
    && Took(s.free, s'.free, [h, r.mid, r.last]) && OwnCells(h, r)
    && |s'.desc| == NUM && |s'.info| == NUM && |s'.ops| == NUM && Formatted(h, r, s'.desc, s'.info, s'.ops)
    && (forall i :: 0 <= i < NUM && i !in Chain(h, r) ==> i < |s.desc| && s'.desc[i] == s.desc[i])
    && (forall i :: 0 <= i < NUM && i != h ==>
        i < |s.info| && s'.info[i] == s.info[i] && i < |s.ops| && s'.ops[i] == s.ops[i])
    && s' == s.(free := s'.free, desc := s'.desc, info := s'.info, ops := s'.ops)
  }

  lemma FormattedAll(s: State, s': State, idx: seq<nat>, r: Req)
    requires |idx| == 3 && idx == [idx[0], r.mid, r.last] && Took(s.free, s'.free, idx) && OwnCells(idx[0], r)
    requires |s.desc| == NUM && |s.info| == NUM && |s.ops| == NUM && |s'.desc| == NUM && |s'.info| == NUM
    requires |s'.ops| == NUM
    requires Formatted(idx[0], r, s'.desc, s'.info, s'.ops)
    requires forall i :: 0 <= i < NUM && i !in idx ==> s'.desc[i] == s.desc[i]
    requires forall i :: 0 <= i < NUM && i != idx[0] ==> s'.info[i] == s.info[i] && s'.ops[i] == s.ops[i]
    requires s' == s.(free := s'.free, desc := s'.desc, info := s'.info, ops := s'.ops)
    ensures Prepared(s, s', idx[0], r)
  {
  }

  /** The chain is published. */
  ghost function Publish(s: State, h: nat, r: Req): (s': State)
    requires |s.avail.slots| == NUM
  {
    s.(reqs := s.reqs[h := r], busy := s.busy + {r.b},
       avail := Ring((s.avail.idx + 1) % WRAP, s.avail.slots[s.avail.idx % NUM := h]),
       availQ := Queue(s.availQ.heads + [h], s.availQ.n))
  }

  /** virtio_disk_rw up to its wait: a chain for buffer r.b is laid out and published. */
  ghost predicate Submits(s: State, mid: State, s': State, h: nat, r: Req) {
    && r.phase == Published && (forall g :: g in s.reqs ==> s.reqs[g].b != r.b)
    && Prepared(s, mid, h, r) && |mid.avail.slots| == NUM && s' == Publish(mid, h, r)
  }

  /** A failed try leaves traces only in descriptors that are free. */
  ghost predicate Clears(s: State, s': State) {
    && s' == s.(desc := s'.desc) && |s'.desc| == NUM && |s.desc| == NUM
    && forall i :: 0 <= i < NUM && i < |s.free| && !s.free[i] ==> s'.desc[i] == s.desc[i]
  }

  /** The device takes the chain with head h. */
  ghost predicate Takes(s: State, s': State, h: nat) {
    && s.availQ.heads != [] && h == s.availQ.heads[0] && h in s.reqs
    && s' == s.(reqs := s.reqs[h := s.reqs[h].(phase := Taken)],
                availQ := Queue(s.availQ.heads[1..], s.availQ.n + 1), lastAvail := (s.lastAvail + 1) % WRAP)
  }

  /** The device moves the block of request h, sets its status and tells the driver. */
  ghost predicate Completes(s: State, s': State, h: nat) {
    && h in s.reqs && s.reqs[h].phase == Taken && h < |s.info| && |s.used.slots| == NUM
    && var r := s.reqs[h];
    s' == s.(reqs := s.reqs[h := r.(phase := Completed)], info := s.info[h := s.info[h].(status := 0)],
             used := Ring((s.used.idx + 1) % WRAP, s.used.slots[s.used.idx % NUM := h]),
             usedQ := Queue(s.usedQ.heads + [h], s.usedQ.n),
             store := if r.write then s.store[r.sector := Fetch(s.data, r.b)] else s.store,
             data := if r.write then s.data else s.data[r.b := Fetch(s.store, r.sector)])
  }

  /** One round of virtio_disk_intr: the driver learns that request h is done, and wakes its buffer. */
  ghost predicate Notices(s: State, s': State, h: nat) {
    s.usedQ.heads != [] && h == s.usedQ.heads[0] && h in s.reqs && s' == Notice(s)
  }

  ghost function Notice(s: State): (r: State) {
    if s.usedQ.heads == [] || s.usedQ.heads[0] !in s.reqs then s
    else
      var h := s.usedQ.heads[0];
      s.(reqs := s.reqs[h := s.reqs[h].(phase := Seen)], busy := s.busy - {s.reqs[h].b},
         usedQ := Queue(s.usedQ.heads[1..], s.usedQ.n + 1), lastUsed := (s.lastUsed + 1) % WRAP)
  }

  /** The end of virtio_disk_rw: the chain of request h is freed. */
  ghost predicate Releases(s: State, s': State, h: nat) {
    && h in s.reqs && s.reqs[h].phase == Seen && |s.free| == |s'.free| == NUM && |s'.desc| == NUM && |s'.info| == NUM
    && (forall i :: 0 <= i < NUM ==> (s'.free[i] <==> s.free[i] || i in Chain(h, s.reqs[h])))
    && (forall i :: 0 <= i < NUM && i !in Chain(h, s.reqs[h]) ==> i < |s.desc| && s'.desc[i] == s.desc[i])
    && (forall i :: 0 <= i < NUM && i != h ==> i < |s.info| && s'.info[i] == s.info[i])
    && s' == s.(reqs := s.reqs - {h}, free := s'.free, desc := s'.desc, info := s'.info)
  }

  /** Whoever has buffer b locked changes its contents, with no request for it in flight. */
  ghost predicate Fills(s: State, s': State, b: Buf, x: Block) {
    (forall g :: g in s.reqs ==> s.reqs[g].b != b) && s' == s.(data := s.data[b := x])
  }

  /** A change of phase, with the status byte and b->disk changed to match */
  lemma ShapePhase(reqs: map<nat, Req>, free: seq<bool>, desc: seq<Desc>, info: seq<Info>, ops: seq<Op>, busy: set<Buf>,
                   h: nat, ph: Phase, info': seq<Info>, busy': set<Buf>)
    requires Shape(reqs, free, desc, info, ops, busy) && h in reqs
    requires |info'| == NUM && info' == info[h := info'[h]] && info'[h].b == info[h].b
    requires ph == Completed || ph == Seen ==> info'[h].status == 0
    requires reqs[h].b in busy' <==> ph != Seen
    requires forall b :: b != reqs[h].b ==> (b in busy' <==> b in busy)
    ensures Shape(reqs[h := reqs[h].(phase := ph)], free, desc, info', ops, busy')
  {
    PhaseChanged(reqs, h, ph, free);
    var reqs' := reqs[h := reqs[h].(phase := ph)];
    forall g | g in reqs'
      ensures LaidOut(g, reqs'[g], desc, info', ops, busy')
    {
      assert LaidOut(g, reqs[g], desc, info, ops, busy);
      assert PairApart(reqs, g, h);
    }
  }

  lemma TakeKeeps(s: State, s': State, h: nat)
    requires Good(s) && Takes(s, s', h)
    ensures Good(s')
  {
    var r := s.reqs[h].(phase := Taken);
    RingPop(s.avail, s.lastAvail, s.availQ, s.reqs, Published, r);
    RingSame(s.used, s.lastUsed, s.usedQ, s.reqs, Completed, h, r);
    ShapePhase(s.reqs, s.free, s.desc, s.info, s.ops, s.busy, h, Taken, s.info, s.busy);
  }

  lemma CompleteKeeps(s: State, s': State, h: nat)
    requires Good(s) && Completes(s, s', h)
    ensures Good(s')
  {
    var r := s.reqs[h].(phase := Completed);
    assert LaidOut(h, s.reqs[h], s.desc, s.info, s.ops, s.busy);
    RingPush(s.used, s.lastUsed, s.usedQ, s.reqs, h, r);
    RingSame(s.avail, s.lastAvail, s.availQ, s.reqs, Published, h, r);
    ShapePhase(s.reqs, s.free, s.desc, s.info, s.ops, s.busy, h, Completed, s'.info, s.busy);
  }

  lemma NoticeKeeps(s: State, s': State, h: nat)
    requires Good(s) && Notices(s, s', h)
    ensures Good(s')
  {
    var r := s.reqs[h].(phase := Seen);
    assert LaidOut(h, s.reqs[h], s.desc, s.info, s.ops, s.busy);
    RingPop(s.used, s.lastUsed, s.usedQ, s.reqs, Completed, r);
    RingSame(s.avail, s.lastAvail, s.availQ, s.reqs, Published, h, r);
    ShapePhase(s.reqs, s.free, s.desc, s.info, s.ops, s.busy, h, Seen, s.info, s'.busy);
  }

  lemma SubmitKeeps(s: State, mid: State, s': State, h: nat, r: Req)
    requires Good(s) && Submits(s, mid, s', h, r)
    ensures Good(s')
  {
    SubmitRings(s, mid, s', h, r);
    SubmitShape(s, mid, s', h, r);
  }

  lemma SubmitRings(s: State, mid: State, s': State, h: nat, r: Req)
    requires Good(s) && Submits(s, mid, s', h, r)
    ensures RingOk(s'.avail, s'.lastAvail, s'.availQ, s'.reqs, Published)
    ensures RingOk(s'.used, s'.lastUsed, s'.usedQ, s'.reqs, Completed)
  {
    ChainAdded(s.reqs, h, r, s.free, s'.free);
    RingPush(s.avail, s.lastAvail, s.availQ, s.reqs, h, r);
    RingSame(s.used, s.lastUsed, s.usedQ, s.reqs, Completed, h, r);
  }

  lemma SubmitShape(s: State, mid: State, s': State, h: nat, r: Req)
    requires Good(s) && Submits(s, mid, s', h, r)
    ensures Shape(s'.reqs, s'.free, s'.desc, s'.info, s'.ops, s'.busy)
  {
    ChainAdded(s.reqs, h, r, s.free, s'.free);
    forall g | g in s'.reqs
      ensures LaidOut(g, s'.reqs[g], s'.desc, s'.info, s'.ops, s'.busy)
    {
      if g != h {
        assert LaidOut(g, s.reqs[g], s.desc, s.info, s.ops, s.busy);
        assert PairApart(s'.reqs, g, h);
      }
    }
  }

  lemma ReleaseKeeps(s: State, s': State, h: nat)
    requires Good(s) && Releases(s, s', h)
    ensures Good(s')
  {
    ChainGone(s.reqs, h, s.free, s'.free);
    RingDrop(s.avail, s.lastAvail, s.availQ, s.reqs, Published, h);
    RingDrop(s.used, s.lastUsed, s.usedQ, s.reqs, Completed, h);
    forall g | g in s'.reqs
      ensures LaidOut(g, s'.reqs[g], s'.desc, s'.info, s'.ops, s'.busy)
    {
      assert LaidOut(g, s.reqs[g], s.desc, s.info, s.ops, s.busy);
      assert PairApart(s.reqs, g, h);
    }
  }

  lemma ClearKeeps(s: State, s': State)
    requires Good(s) && Clears(s, s')
    ensures Good(s')
  {
    forall g | g in s'.reqs
      ensures LaidOut(g, s'.reqs[g], s'.desc, s'.info, s'.ops, s'.busy)
    {
      assert LaidOut(g, s.reqs[g], s.desc, s.info, s.ops, s.busy);
      forall i | i in Chain(g, s.reqs[g])
        ensures !s.free[i]
      {
        assert CellOk(s.free, s.reqs, i);
      }
      assert s.reqs[g].mid in Chain(g, s.reqs[g]) && s.reqs[g].last in Chain(g, s.reqs[g]) && g in Chain(g, s.reqs[g]);
    }
  }

  // ---------- Runs ----------

  datatype Step =
    | Submit(mid: State, h: nat, r: Req)
    | Retry
    | Take(h: nat)
    | Complete(h: nat)
    | See(h: nat)
    | Release(h: nat)
    | Fill(b: Buf, x: Block)

  ghost predicate Next(s: State, s': State, step: Step) {
    match step
    case Submit(mid, h, r) => Submits(s, mid, s', h, r)
    case Retry => Clears(s, s')
    case Take(h) => Takes(s, s', h)
    case Complete(h) => Completes(s, s', h)
    case See(h) => Notices(s, s', h)
    case Release(h) => Releases(s, s', h)
    case Fill(b, x) => Fills(s, s', b, x)
  }

  ghost predicate Init(s: State) {
    && s.reqs == map[] && s.busy == {} && |s.desc| == NUM && |s.info| == NUM && |s.ops| == NUM
    && |s.free| == NUM && (forall i :: 0 <= i < NUM ==> s.free[i])
    && s.availQ == Queue([], 0) && s.lastAvail == 0 && s.avail.idx == 0 && |s.avail.slots| == NUM
    && s.usedQ == Queue([], 0) && s.lastUsed == 0 && s.used.idx == 0 && |s.used.slots| == NUM
  }

  lemma InitSound(s: State)
    requires Init(s)
    ensures Sound(s)
  {
    assert Good(s);
  }

  lemma NextSound(s: State, s': State, step: Step)
    requires Sound(s) && Next(s, s', step)
    ensures Sound(s')
  {
    assert Good(s);
    match step
    case Submit(mid, h, r) => SubmitKeeps(s, mid, s', h, r);
    case Retry => ClearKeeps(s, s');
    case Take(h) => TakeKeeps(s, s', h);
    case Complete(h) => CompleteKeeps(s, s', h);
    case See(h) => NoticeKeeps(s, s', h);
    case Release(h) => ReleaseKeeps(s, s', h);
    case Fill(_, _) =>
  }

  ghost predicate Follows(s: State, s': State) {
    exists step :: Next(s, s', step)
  }

  ghost predicate IsRun(run: seq<State>) {
    && |run| > 0
    && Init(run[0])
    && forall k :: 0 < k < |run| ==> FollowsAt(run, k)
  }

  /** State k of a run follows from the one before. */
  ghost predicate FollowsAt(run: seq<State>, k: nat)
    requires 0 < k < |run|
  {
    Follows(run[k - 1], run[k])
  }

  lemma {:induction false} RunSound(run: seq<State>, k: nat)
    requires IsRun(run) && k < |run|
    ensures Sound(run[k])
  {
    if k == 0 {
      InitSound(run[0]);
    } else {
      RunSound(run, k - 1);
      assert FollowsAt(run, k);
      var step :| Next(run[k - 1], run[k], step);
      NextSound(run[k - 1], run[k], step);
    }
  }

  // ---------- What the driver promises ----------

  /** Every descriptor is either free or in exactly one chain. */
  lemma Partitioned(run: seq<State>, k: nat, i: nat)
    requires IsRun(run) && k < |run| && i < NUM
    ensures |run[k].free| == NUM && (run[k].free[i] <==> !InChain(run[k].reqs, i))
    ensures var reqs := run[k].reqs;
            forall h, g :: h in reqs && g in reqs && i in Chain(h, reqs[h]) && i in Chain(g, reqs[g]) ==> h == g
  {
    RunSound(run, k);
    var s := run[k];
    assert Good(s);
    assert CellOk(s.free, s.reqs, i);
    forall h, g | h in s.reqs && g in s.reqs && i in Chain(h, s.reqs[h]) && i in Chain(g, s.reqs[g])
      ensures h == g
    {
      assert PairApart(s.reqs, h, g);
    }
  }

  lemma {:induction false} Listing(s: set<nat>) returns (q: seq<nat>)
    ensures Distinct(q) && |q| == |s| && forall k :: 0 <= k < |q| ==> q[k] in s
  {
    if s == {} {
      q := [];
    } else {
      var x :| x in s;
      q := Listing(s - {x});
      q := q + [x];
    }
  }

  /** At no time are more than NUM / 3 requests in flight. */
  lemma FewInFlight(run: seq<State>, k: nat)
    requires IsRun(run) && k < |run|
    ensures |run[k].reqs.Keys| <= NUM / 3
  {
    RunSound(run, k);
    assert Good(run[k]);
    var q := Listing(run[k].reqs.Keys);
    InFlight(q, run[k].reqs);
  }

  /**
   However many requests there have been and however often the 16-bit indices have
   wrapped, each ring holds what is waiting, oldest first, and is never nearly full.
   */
  lemma RingsHold(run: seq<State>, k: nat, j: nat)
    requires IsRun(run) && k < |run|
    ensures |run[k].availQ.heads| <= NUM / 3 && |run[k].usedQ.heads| <= NUM / 3
    ensures (run[k].lastAvail == run[k].avail.idx <==> run[k].availQ.heads == [])
    ensures (run[k].lastUsed == run[k].used.idx <==> run[k].usedQ.heads == [])
    ensures |run[k].avail.slots| == NUM && |run[k].used.slots| == NUM
    ensures j < |run[k].availQ.heads| ==> run[k].avail.slots[(run[k].lastAvail + j) % NUM] == run[k].availQ.heads[j]
    ensures j < |run[k].usedQ.heads| ==> run[k].used.slots[(run[k].lastUsed + j) % NUM] == run[k].usedQ.heads[j]
  {
    RunSound(run, k);
    BothRingsHold(run[k], j);
  }

  lemma BothRingsHold(s: State, j: nat)
    requires Sound(s)
    ensures RingHolds(s.avail, s.lastAvail, s.availQ, j) && RingHolds(s.used, s.lastUsed, s.usedQ, j)
  {
    assert Good(s);
    OneRingHolds(s.avail, s.lastAvail, s.availQ, s.reqs, Published, j);
    OneRingHolds(s.used, s.lastUsed, s.usedQ, s.reqs, Completed, j);
  }

  /** A ring with at most NUM / 3 waiting, told from empty, the j-th of them in its slot */
  ghost predicate RingHolds(ring: Ring, last: nat, q: Queue, j: nat) {
    && |q.heads| <= NUM / 3 && (last == ring.idx <==> q.heads == []) && |ring.slots| == NUM
    && (j < |q.heads| ==> ring.slots[(last + j) % NUM] == q.heads[j])
  }

  lemma OneRingHolds(ring: Ring, last: nat, q: Queue, reqs: map<nat, Req>, ph: Phase, j: nat)
    requires ChainsOk(reqs) && RingOk(ring, last, q, reqs, ph)
    ensures RingHolds(ring, last, q, j)
  {
    RingNext(ring, last, q, reqs, ph);
    WrapSum(q.n, j);
  }

  lemma WrapSum(n: nat, j: nat)
    ensures (n % WRAP + j) % NUM == (n + j) % NUM
  {
    assert n == n / WRAP * WRAP + n % WRAP;
    assert n + j == n / WRAP * (WRAP / NUM) * NUM + (n % WRAP + j);
  }

  function Rank(ph: Phase): nat {
    match ph
    case Published => 0
    case Taken => 1
    case Completed => 2
    case Seen => 3
  }

  /**
   A request keeps its buffer, direction and sector until it is released, and goes
   through its phases one by one: it is completed once and wakes its buffer once.
   */
  lemma RequestStays(run: seq<State>, k: nat, h: nat)
    requires IsRun(run) && 0 < k < |run| && h in run[k - 1].reqs && h in run[k].reqs
    ensures run[k].reqs[h] == run[k - 1].reqs[h].(phase := run[k].reqs[h].phase)
    ensures Rank(run[k - 1].reqs[h].phase) <= Rank(run[k].reqs[h].phase) <= Rank(run[k - 1].reqs[h].phase) + 1
  {
    RunSound(run, k - 1);
    assert FollowsAt(run, k);
    StepStays(run[k - 1], run[k], h);
  }

  lemma HeadPhases(s: State)
    requires Sound(s)
    ensures s.availQ.heads != [] ==> s.availQ.heads[0] in s.reqs && s.reqs[s.availQ.heads[0]].phase == Published
    ensures s.usedQ.heads != [] ==> s.usedQ.heads[0] in s.reqs && s.reqs[s.usedQ.heads[0]].phase == Completed
  {
    assert Good(s);
  }

  lemma SubmitFresh(s: State, mid: State, s': State, h: nat, r: Req)
    requires Sound(s) && Submits(s, mid, s', h, r)
    ensures h !in s.reqs
  {
    assert Good(s);
    ChainAdded(s.reqs, h, r, s.free, mid.free);
  }

  lemma StepStays(s: State, s': State, h: nat)
    requires Sound(s) && Follows(s, s') && h in s.reqs && h in s'.reqs
    ensures s'.reqs[h] == s.reqs[h].(phase := s'.reqs[h].phase)
    ensures Rank(s.reqs[h].phase) <= Rank(s'.reqs[h].phase) <= Rank(s.reqs[h].phase) + 1
  {
    HeadPhases(s);
    var step :| Next(s, s', step);
    if step.Submit? {
      SubmitFresh(s, step.mid, s', step.h, step.r);
    }
  }

  class Disk {
    // shared with the device
    var desc: seq<Desc>
    var ops: seq<Op>
    var avail: Ring
    var used: Ring
    // the driver's own
    var free: seq<bool>
    var info: seq<Info>
    var lastUsed: nat            // disk.used_idx
    var busy: set<Buf>           // b->disk == 1
    // the device's own
    var lastAvail: nat
    var store: map<nat, Block>   // the disk, by first sector
    var data: map<Buf, Block>    // b->data

    ghost var reqs: map<nat, Req>
    ghost var availQ: Queue
    ghost var usedQ: Queue

    /** The driver's part of virtio_disk_init: all descriptors unused */
    constructor (blocks: map<nat, Block>)
      ensures Init(Now()) && store == blocks
    {
      desc, ops, info := seq(NUM, i => NODESC), seq(NUM, i => Op(false, 0)), seq(NUM, i => Info(None, 0));
      avail, used := Ring(0, seq(NUM, i => 0)), Ring(0, seq(NUM, i => 0));
      free, lastUsed, busy, lastAvail := seq(NUM, i => true), 0, {}, 0;
      store, data := blocks, map[];
      reqs, availQ, usedQ := map[], Queue([], 0), Queue([], 0);
    }

    ghost function Now(): (s: State)
      reads this
    {
      State(reqs, free, desc, info, ops, busy, avail, lastAvail, availQ, used, lastUsed, usedQ, store, data)
    }

    ghost predicate Valid()
      reads this
    {
      Sound(Now())
    }

    /** alloc_desc: the first free descriptor */
    method AllocDesc() returns (i: int)
      requires |free| == NUM
      modifies this`free
      ensures i < 0 ==> free == old(free) && forall j :: 0 <= j < NUM ==> !free[j]
      ensures i >= 0 ==> i < NUM && old(free)[i] && free == old(free)[i := false] && forall j :: 0 <= j < i ==> !free[j]
    {
      i := 0;
      while i < NUM
        invariant 0 <= i <= NUM && forall j :: 0 <= j < i ==> !free[j]
      {
        if free[i] {
          free := free[i := false];
          return;
        }
        i := i + 1;
      }
      return -1;
    }

    /** free_desc; freeing a free descriptor panics */
    method FreeDesc(i: nat)
      requires |free| == NUM && |desc| == NUM && i < NUM && !free[i]
      modifies this`free, this`desc
      ensures free == old(free)[i := true] && desc == old(desc)[i := NODESC]
    {
      desc, free := desc[i := NODESC], free[i := true];
    }

    /** alloc3_desc: three descriptors or none; fails only when there are not three. */
    method Alloc3() returns (ok: bool, idx: seq<nat>)
      requires |free| == NUM && |desc| == NUM
      modifies this`free, this`desc
      ensures |desc| == NUM && forall i :: 0 <= i < NUM && !old(free)[i] ==> desc[i] == old(desc)[i]
      ensures ok ==> |idx| == 3 && Took(old(free), free, idx) && desc == old(desc)
      ensures !ok ==> free == old(free) && Few(free)
    {
      idx := [];
      for i := 0 to 3
        invariant |idx| == i && |free| == NUM && Took(old(free), free, idx) && desc == old(desc)
      {
        var d := AllocDesc();
        if d < 0 {
          TookAll(old(free), free, idx);
          PutBack(idx, old(free));
          return false, idx;
        }
        idx := idx + [d];
      }
      ok := true;
    }

    /** alloc3_desc's way out */
    method PutBack(idx: seq<nat>, ghost was: seq<bool>)
      requires |free| == NUM && |desc| == NUM && Took(was, free, idx)
      modifies this`free, this`desc
      ensures free == was && |desc| == NUM && forall i :: 0 <= i < NUM && !was[i] ==> desc[i] == old(desc)[i]
    {
      for j := 0 to |idx|
        invariant |free| == NUM && |desc| == NUM
        invariant forall i :: 0 <= i < NUM && !was[i] ==> desc[i] == old(desc)[i]
        invariant forall i :: 0 <= i < NUM ==> (free[i] <==> was[i] && i !in idx[j..])
      {
        assert idx[j] in idx[j..];
        FreeDesc(idx[j]);
        forall i | 0 <= i < NUM
          ensures i in idx[j..] <==> i == idx[j] || i in idx[j + 1..]
        {
          assert idx[j..] == [idx[j]] + idx[j + 1..];
        }
        assert idx[j] !in idx[j + 1..];
      }
    }

    /** Laying out the three descriptors of a request */
    method Format(idx: seq<nat>, b: Buf, write: bool, sector: nat)
      requires |desc| == NUM && |info| == NUM && |ops| == NUM
      requires |idx| == 3 && OwnCells(idx[0], Req(idx[1], idx[2], b, write, sector, Published))
      modifies this`desc, this`info, this`ops
      ensures |desc| == NUM && |info| == NUM && |ops| == NUM
      ensures Formatted(idx[0], Req(idx[1], idx[2], b, write, sector, Published), desc, info, ops)
      ensures forall i :: 0 <= i < NUM && i !in idx ==> desc[i] == old(desc)[i]
      ensures forall i :: 0 <= i < NUM && i != idx[0] ==> info[i] == old(info)[i] && ops[i] == old(ops)[i]
    {
      ops := ops[idx[0] := Op(write, sector)];
      desc := desc[idx[0] := Desc(OpAt(idx[0]), 16, true, false, idx[1])];
      desc := desc[idx[1] := Desc(DataOf(b), BSIZE, true, !write, idx[2])];
      info := info[idx[0] := info[idx[0]].(status := 0xff)];
      desc := desc[idx[2] := Desc(StatusAt(idx[0]), 1, false, true, 0)];
      info := info[idx[0] := info[idx[0]].(b := Some(b))];
    }

    /** Allocating and laying out a chain; without three free descriptors it fails. */
    method Prepare(b: Buf, write: bool, sector: nat) returns (h: Option<nat>, ghost r: Req)
      requires Valid()
      modifies this`free, this`desc, this`info, this`ops
      ensures h == None ==> Few(old(free)) && Clears(old(Now()), Now())
      ensures h.Some? ==>
                r == Req(r.mid, r.last, b, write, sector, Published) && Prepared(old(Now()), Now(), h.value, r)
    {
      Sizes();
      var ok, idx := Alloc3();
      r := Req(0, 0, b, write, sector, Published);
      if !ok {
        return None, r;
      }
      r := Lay(old(Now()), idx, b, write, sector);
      return Some(idx[0]), r;
    }

    method Lay(ghost was: State, idx: seq<nat>, b: Buf, write: bool, sector: nat) returns (ghost r: Req)
      requires |was.free| == NUM && |desc| == NUM && |info| == NUM && |ops| == NUM
      requires |idx| == 3 && Took(was.free, free, idx) && Now() == was.(free := free)
      modifies this`desc, this`info, this`ops
      ensures r == Req(idx[1], idx[2], b, write, sector, Published) && Prepared(was, Now(), idx[0], r)
    {
      TookCells(was.free, free, idx);
      r := Req(idx[1], idx[2], b, write, sector, Published);
      assert idx == [idx[0], r.mid, r.last];
      Format(idx, b, write, sector);
      FormattedAll(was, Now(), idx, r);
    }

    /**
     One try of virtio_disk_rw, up to its wait; without three free descriptors it has
     to sleep and try again.  The caller holds b's lock, so b has no other request.
     */
    method Submit(b: Buf, write: bool, blockno: nat) returns (h: Option<nat>, ghost r: Req, ghost mid: State)
      requires Valid() && forall g :: g in reqs ==> reqs[g].b != b
      modifies this
      ensures h == None ==> Few(old(free)) && Clears(old(Now()), Now())
      ensures h.Some? ==> r == Req(r.mid, r.last, b, write, blockno * (BSIZE / 512), Published)
      ensures h.Some? ==> Submits(old(Now()), mid, Now(), h.value, r)
    {
      Sizes();
      h, r := Prepare(b, write, blockno * (BSIZE / 512));
      mid := Now();
      if h.Some? {
        busy := busy + {b};
        avail := avail.(slots := avail.slots[avail.idx % NUM := h.value]);
        avail := avail.(idx := (avail.idx + 1) % WRAP);
        reqs := reqs[h.value := r];
        availQ := Queue(availQ.heads + [h.value], availQ.n);
      }
    }

    lemma Sizes()
      requires Valid()
      ensures |free| == NUM && |desc| == NUM && |info| == NUM && |ops| == NUM && |avail.slots| == NUM
    {
      assert Good(Now());
    }

    /** free_chain: frees exactly the three descriptors of the chain. */
    method FreeChain(h: nat, ghost r: Req)
      requires |free| == NUM && |desc| == NUM && OwnCells(h, r) && !free[h] && !free[r.mid] && !free[r.last]
      requires desc[h].hasNext && desc[h].next == r.mid && desc[r.mid].hasNext && desc[r.mid].next == r.last
      requires !desc[r.last].hasNext
      modifies this`free, this`desc
      ensures free == old(free)[h := true][r.mid := true][r.last := true]
      ensures desc == old(desc)[h := NODESC][r.mid := NODESC][r.last := NODESC]
    {
      var i := h;
      ghost var chain, k := [h, r.mid, r.last], 0;
      while true
        invariant 0 <= k < 3 && i == chain[k] && |free| == NUM && |desc| == NUM
        invariant k == 0 ==> free == old(free) && desc == old(desc)
        invariant k == 1 ==> free == old(free)[h := true] && desc == old(desc)[h := NODESC]
        invariant k == 2 ==>
                    free == old(free)[h := true][r.mid := true] && desc == old(desc)[h := NODESC][r.mid := NODESC]
        decreases 3 - k
      {
        var d := desc[i];
        FreeDesc(i);
        if !d.hasNext {
          break;
        }
        i, k := d.next, k + 1;
      }
    }

    /** The end of virtio_disk_rw, once b->disk is 0 */
    method Finish(h: nat)
      requires Valid() && h in reqs && reqs[h].phase == Seen
      modifies this`free, this`desc, this`info, this`reqs
      ensures Releases(old(Now()), Now(), h)
    {
      ghost var r := reqs[h];
      ChainHeld(h);
      info := info[h := info[h].(b := None)];
      FreeChain(h, r);
      reqs := reqs - {h};
    }

    lemma ChainHeld(h: nat)
      requires Valid() && h in reqs
      ensures |free| == NUM && OwnCells(h, reqs[h]) && !free[h] && !free[reqs[h].mid] && !free[reqs[h].last]
      ensures |desc| == NUM && |info| == NUM && |ops| == NUM && Formatted(h, reqs[h], desc, info, ops)
    {
      assert Good(Now());
      assert LaidOut(h, reqs[h], desc, info, ops, busy);
      forall i | i in Chain(h, reqs[h])
        ensures !free[i]
      {
        assert CellOk(free, reqs, i);
      }
      assert h in Chain(h, reqs[h]) && reqs[h].mid in Chain(h, reqs[h]) && reqs[h].last in Chain(h, reqs[h]);
    }

    /** The device takes the next published chain from the ring. */
    method DeviceTake() returns (h: nat)
      requires Valid() && lastAvail != avail.idx
      modifies this`lastAvail, this`reqs, this`availQ
      ensures Takes(old(Now()), Now(), h)
    {
      assert Good(Now());
      RingNext(avail, lastAvail, availQ, reqs, Published);
      h := avail.slots[lastAvail % NUM];
      reqs := reqs[h := reqs[h].(phase := Taken)];
      availQ := Queue(availQ.heads[1..], availQ.n + 1);
      lastAvail := (lastAvail + 1) % WRAP;
    }

    /** The device follows the chain with head h as the descriptors say, moves the block and writes the status byte. */
    method DeviceMove(h: nat, ghost r: Req)
      requires LaidOut(h, r, desc, info, ops, busy)
      modifies this`store, this`data, this`info
      ensures info == old(info)[h := old(info)[h].(status := 0)]
      ensures store == if r.write then old(store)[r.sector := Fetch(old(data), r.b)] else old(store)
      ensures data == if r.write then old(data) else old(data)[r.b := Fetch(old(store), r.sector)]
    {
      var d1 := desc[desc[h].next];
      var d2 := desc[d1.next];
      var op := ops[desc[h].addr.i];
      var b := d1.addr.b;
      if op.write && !d1.deviceWrites {
        store := store[op.sector := Fetch(data, b)];
      } else if !op.write && d1.deviceWrites {
        data := data[b := Fetch(store, op.sector)];
      }
      info := info[d2.addr.i := info[d2.addr.i].(status := 0)];
    }

    /** The device finishes request h and adds it to the used ring. */
    method DeviceComplete(h: nat)
      requires Valid() && h in reqs && reqs[h].phase == Taken
      modifies this`store, this`data, this`info, this`used, this`reqs, this`usedQ
      ensures Completes(old(Now()), Now(), h)
    {
      assert Good(Now());
      assert LaidOut(h, reqs[h], desc, info, ops, busy);
      DeviceMove(h, reqs[h]);
      used := Ring((used.idx + 1) % WRAP, used.slots[used.idx % NUM := h]);
      reqs := reqs[h := reqs[h].(phase := Completed)];
      usedQ := Queue(usedQ.heads + [h], usedQ.n);
    }

    /** One round of virtio_disk_intr's loop; a bad status, or an entry of no request, would panic. */
    method IntrOne() returns (b: Buf)
      requires Valid() && lastUsed != used.idx
      modifies this`busy, this`lastUsed, this`reqs, this`usedQ
      ensures Now() == Notice(old(Now()))
      ensures old(usedQ).heads != [] && old(usedQ).heads[0] in old(reqs) && b == old(reqs)[old(usedQ).heads[0]].b
    {
      assert Good(Now());
      RingNext(used, lastUsed, usedQ, reqs, Completed);
      var id := used.slots[lastUsed % NUM];
      ghost var h := id;
      assert LaidOut(id, reqs[id], desc, info, ops, busy);
      assert info[id].status == 0;
      b := info[id].b.value;
      busy := busy - {b};
      lastUsed := (lastUsed + 1) % WRAP;
      reqs := reqs[h := reqs[h].(phase := Seen)];
      usedQ := Queue(usedQ.heads[1..], usedQ.n + 1);
    }

    lemma NextUsed()
      requires Valid()
      ensures Distinct(usedQ.heads) && (lastUsed == used.idx <==> usedQ.heads == [])
      ensures forall j :: 0 <= j < |usedQ.heads| ==> usedQ.heads[j] in reqs
    {
      assert Good(Now());
      RingNext(used, lastUsed, usedQ, reqs, Completed);
    }

    /** virtio_disk_intr: notices every completion in the ring, and wakes exactly their buffers, in that order. */
    method Intr() returns (woken: seq<Buf>)
      requires Valid()
      modifies this`busy, this`lastUsed, this`reqs, this`usedQ
      ensures Valid() && usedQ.heads == []
      ensures Bufs(old(Now()), woken, |old(usedQ).heads|)
      ensures Now() == NoticeAll(old(Now()), |old(usedQ).heads|)
    {
      woken := [];
      ghost var s0, s, k := Now(), Now(), 0;
      NextUsed();
      while lastUsed != used.idx
        invariant k == |woken| <= |s0.usedQ.heads| && s == Now() && s == NoticeAll(s0, k) && Left(s0, s, k)
        invariant Bufs(s0, woken, k)
        invariant Valid()
        decreases |s0.usedQ.heads| - k
      {
        NextUsed();
        LeftOne(s0, s, k);
        NoticeValid(s);
        var b := IntrOne();
        woken := woken + [b];
        s, k := Notice(s), k + 1;
      }
      NextUsed();
    }
  }

  /** The state after k rounds of virtio_disk_intr's loop */
  ghost function NoticeAll(s: State, k: nat): (r: State) {
    if k == 0 then s else Notice(NoticeAll(s, k - 1))
  }

  /** The completions after the first k are still in the ring as they were. */
  ghost predicate Left(s: State, now: State, k: nat)
    requires k <= |s.usedQ.heads|
  {
    && now.usedQ.heads == s.usedQ.heads[k..]
    && forall j :: k <= j < |s.usedQ.heads| ==>
         s.usedQ.heads[j] in s.reqs && s.usedQ.heads[j] in now.reqs &&
             now.reqs[s.usedQ.heads[j]] == s.reqs[s.usedQ.heads[j]]
  }

  lemma LeftOne(s: State, now: State, k: nat)
    requires k < |s.usedQ.heads| && Left(s, now, k) && Distinct(s.usedQ.heads)
    ensures Left(s, Notice(now), k + 1) && now.usedQ.heads[0] == s.usedQ.heads[k]
  {
    assert now.usedQ.heads[0] == s.usedQ.heads[k];
  }

  lemma NoticeValid(s: State)
    requires Sound(s)
    ensures Sound(Notice(s))
  {
    assert Good(s);
    if s.usedQ.heads != [] && s.usedQ.heads[0] in s.reqs {
      NoticeKeeps(s, Notice(s), s.usedQ.heads[0]);
    }
  }

  /** woken lists the buffers of the first k completions. */
  ghost predicate Bufs(s: State, woken: seq<Buf>, k: nat) {
    && |woken| == k <= |s.usedQ.heads|
    && forall j :: 0 <= j < k ==> s.usedQ.heads[j] in s.reqs && woken[j] == s.reqs[s.usedQ.heads[j]].b
  }
}

/**
 The write-ahead log over the buffer cache, as a state machine.

 Threads take the steps of kernel/bio.c and kernel/log.c in any interleaving:
 each step is one critical section under bcache.lock or log.lock, or one piece
 of work done while a buffer's sleep lock is held.  A crash may happen between
 any two steps: it loses everything but the disk, and the machine then reboots
 through recover_from_log, which may itself crash.

 A Tid stands for one file system operation (the code between begin_op and
 end_op) or for one reader outside a transaction; it is never used for a second
 operation.
 */
module LogMachine {
  import opened Common
  import opened Blocks
  import opened LogFormat

  const ROOTDEV: nat := 1
  const NBUF: nat := 30

  type Tid = nat

  /** One buffer: struct buf, and who refers to it. */
  datatype Slot = Slot(
    dev: nat,
    blockno: nat,
    valid: bool,
    refcnt: int,
    data: Block,
    holder: Option<Tid>,  // who holds the sleep lock
    refs: set<Tid>,       // who has called bget and not finished brelse
    dirty: bool           // changed since the holder last called log_write
  )

  datatype Phase =
    | Normal               // log.committing == 0
    | WriteLog(tail: nat)  // commit: write_log has copied `tail` blocks
    | WriteHead            // commit: about to write the header
    | Install(tail: nat)   // commit: install_trans has copied `tail` blocks
    | ClearHead            // commit: lh.n is 0, header not yet erased
    | EndCommit            // commit returned
    | Boot                 // after a crash
    | RecInstall(tail: nat)
    | RecClear

  /** A call of log_write by operation `op`. */
  datatype Event = Event(op: Tid, bno: nat, data: Block)

  /** The disk, struct log, and what has happened so far. */
  datatype Core = Core(
    l: Layout,
    image: seq<Block>,       // the disk when the machine was first booted
    disk: seq<Block>,
    blocks: seq<nat>,        // log.lh
    outstanding: int,
    phase: Phase,
    committer: Tid,          // the thread in commit() or recover_from_log()
    active: map<Tid, nat>,   // operations between begin_op and end_op, with their log_write calls
    started: set<Tid>,       // operations that have called begin_op
    events: seq<Event>,      // all log_write calls that a crash has not undone
    commits: nat             // how many of them are committed
  )

  datatype State = State(c: Core, slots: seq<Slot>)

  /** The last contents given to block b. */
  ghost function Last(image: seq<Block>, events: seq<Event>, b: nat): Block
    requires b < |image|
  {
    if events == [] then image[b]
    else if events[|events| - 1].bno == b then events[|events| - 1].data
    else Last(image, events[..|events| - 1], b)
  }

  predicate Recovering(c: Core) {
    c.phase.Boot? || c.phase.RecInstall? || c.phase.RecClear?
  }

  /** Logged blocks that are newer in the cache than at home. */
  function Pending(c: Core): seq<nat> {
    match c.phase
    case Boot => []
    case RecInstall(_) => []
    case RecClear => []
    case Install(tail) => if tail <= |c.blocks| then c.blocks[tail..] else []
    case _ => c.blocks
  }

  // ---------- The invariant of the log and the disk ----------

  ghost predicate Shape(c: Core) {
    && c.l.Valid()
    && |c.image| == |c.disk| == c.l.nblocks
    && (forall j :: 0 <= j < |c.events| ==> c.l.Home(c.events[j].bno))
  }

  /** Home blocks with nothing pending hold their last contents. */
  ghost predicate Clean(c: Core)
    requires Shape(c)
  {
    !Recovering(c) ==> forall b: nat :: CleanAt(c, b)
  }

  ghost predicate CleanAt(c: Core, b: nat)
    requires Shape(c)
  {
    c.l.Home(b) && b !in Pending(c) ==> c.disk[b] == Last(c.image, c.events, b)
  }

  /** log_write calls the active operations may still make. */
  ghost function Unspent(active: map<Tid, nat>): int {
    if active == map[] then 0 else
      var t :| t in active;
      MAXOPBLOCKS - active[t] + Unspent(active - {t})
  }

  ghost predicate Protocol(c: Core) {
    && GoodList(c.l, c.blocks)
    && c.outstanding == |c.active|
    && (forall t :: t in c.active ==> t in c.started && c.active[t] <= MAXOPBLOCKS)
    && |c.blocks| + Unspent(c.active) <= LOGSIZE
    && (!c.phase.Normal? ==> c.active == map[])
    && (c.phase.WriteLog? || c.phase.Install? || c.phase.RecInstall? ==> c.phase.tail <= |c.blocks|)
    && (c.phase.ClearHead? || c.phase.EndCommit? || c.phase.RecClear? ==> c.blocks == [])
  }

  /** Committed events belong to finished operations, whose other events are committed too. */
  ghost predicate Whole(c: Core) {
    && c.commits <= |c.events|
    && (forall i :: 0 <= i < |c.events| ==> c.events[i].op in c.started)
    && (forall i :: 0 <= i < c.commits ==> c.events[i].op !in c.active)
    && (forall i, j :: 0 <= i < c.commits <= j < |c.events| ==> c.events[i].op != c.events[j].op)
    && (!c.phase.Normal? && !c.phase.WriteLog? && !c.phase.WriteHead? ==> c.commits == |c.events|)
    && (c.phase.Normal? && c.blocks == [] ==> c.commits == |c.events|)
  }

  /** The list in the on-disk header. */
  ghost function Header(c: Core): seq<nat>
    requires Shape(c) && HeadOk(c.disk[c.l.start])
  {
    DecodeHead(c.disk[c.l.start])
  }

  /**
   What recovery would make of the disk: entries of the header from their log
   blocks, everything else from home, is the committed state.
   */
  ghost predicate Recoverable(c: Core)
    requires Shape(c)
  {
    && HeadOk(c.disk[c.l.start])
    && GoodList(c.l, Header(c))
    && c.commits <= |c.events|
    && (forall j :: 0 <= j < |Header(c)| ==>
          c.disk[c.l.start + 1 + j] == Last(c.image, c.events[..c.commits], Header(c)[j]))
    && (forall b: nat :: c.l.Home(b) && b !in Header(c) ==>
          c.disk[b] == Last(c.image, c.events[..c.commits], b))
  }

  ghost predicate LogHolds(c: Core, n: nat)
    requires Shape(c) && GoodList(c.l, c.blocks) && n <= |c.blocks|
  {
    forall j :: 0 <= j < n ==> c.disk[c.l.start + 1 + j] == Last(c.image, c.events, c.blocks[j])
  }

  /** How far the commit or the recovery has come. */
  ghost predicate Progress(c: Core)
    requires Shape(c) && HeadOk(c.disk[c.l.start]) && Protocol(c)
  {
    match c.phase
    case Normal => Header(c) == []
    case WriteLog(tail) => Header(c) == [] && LogHolds(c, tail)
    case WriteHead => Header(c) == [] && LogHolds(c, |c.blocks|)
    case Install(_) => Header(c) == c.blocks
    case ClearHead => true
    case EndCommit => Header(c) == []
    case Boot => true
    case RecInstall(tail) =>
      && Header(c) == c.blocks
      && forall j :: 0 <= j < tail ==> c.disk[c.blocks[j]] == Last(c.image, c.events, c.blocks[j])
    case RecClear => forall b: nat :: c.l.Home(b) ==> c.disk[b] == Last(c.image, c.events, b)
  }

  ghost predicate CoreInv(c: Core) {
    && Shape(c)
    && Clean(c)
    && Protocol(c)
    && Whole(c)
    && Recoverable(c)
    && Progress(c)
  }

  // ---------- The invariant of the cache ----------

  ghost predicate CacheShape(c: Core, slots: seq<Slot>) {
    && Shape(c)
    && |slots| == NBUF
    && (forall i :: 0 <= i < NBUF && slots[i].dev == ROOTDEV ==> slots[i].blockno < c.l.nblocks)
  }

  /** Each block of the device is cached at most once. */
  ghost predicate Unique(slots: seq<Slot>)
  {
    forall i, j ::
      0 <= i < |slots| && 0 <= j < |slots| && i != j && slots[i].dev == ROOTDEV && slots[j].dev == ROOTDEV ==>
        slots[i].blockno != slots[j].blockno
  }

  predicate Pinned(c: Core, sl: Slot) {
    sl.dev == ROOTDEV && sl.blockno in Pending(c)
  }

  ghost predicate SlotRefs(c: Core, sl: Slot) {
    && sl.refcnt == |sl.refs| + (if Pinned(c, sl) then 1 else 0)
    && (sl.holder.Some? ==> sl.holder.value in sl.refs)
  }

  ghost predicate Refs(c: Core, slots: seq<Slot>) {
    forall i :: 0 <= i < |slots| ==> SlotRefs(c, slots[i])
  }

  /** What a reader of block b should see. */
  ghost function View(c: Core, b: nat): Block
    requires Shape(c) && b < c.l.nblocks
  {
    if c.l.InLog(b) || Recovering(c) then c.disk[b] else Last(c.image, c.events, b)
  }

  ghost predicate SlotCoherent(c: Core, sl: Slot)
    requires Shape(c)
    requires sl.dev == ROOTDEV ==> sl.blockno < c.l.nblocks
  {
    && (sl.dirty ==>
          && sl.valid && sl.dev == ROOTDEV && c.l.Home(sl.blockno)
          && sl.holder.Some? && sl.holder.value in c.active)
    && (sl.dev == ROOTDEV && sl.valid && !sl.dirty ==> sl.data == View(c, sl.blockno))
  }

  ghost predicate Coherent(c: Core, slots: seq<Slot>)
    requires CacheShape(c, slots)
  {
    forall i :: 0 <= i < NBUF ==> SlotCoherent(c, slots[i])
  }

  ghost predicate CachedAt(slots: seq<Slot>, b: nat, i: int) {
    0 <= i < |slots| && slots[i].dev == ROOTDEV && slots[i].blockno == b && slots[i].valid
  }

  ghost predicate PendingCached(c: Core, slots: seq<Slot>) {
    forall b: nat :: b in Pending(c) ==> exists i :: CachedAt(slots, b, i)
  }

  ghost predicate CacheInv(c: Core, slots: seq<Slot>) {
    && CacheShape(c, slots)
    && Unique(slots)
    && Refs(c, slots)
    && Coherent(c, slots)
    && PendingCached(c, slots)
  }

  ghost predicate Inv(s: State) {
    CoreInv(s.c) && CacheInv(s.c, s.slots)
  }

  // ---------- Steps ----------

  /** The buffers as binit leaves them. */
  function FreshSlots(): seq<Slot> {
    seq(NBUF, _ => Slot(0, 0, false, 0, ZeroBlock(), None, {}, false))
  }

  ghost predicate Init(s: State) {
    && Shape(s.c)
    && s.c.disk == s.c.image
    && s.slots == FreshSlots()
    && s.c.blocks == [] && s.c.outstanding == 0 && s.c.active == map[] && s.c.started == {}
    && s.c.events == [] && s.c.commits == 0
    && s.c.phase == Boot
    && HeadOk(s.c.disk[s.c.l.start]) && Header(s.c) == []
  }

  predicate Index(s: State, i: nat) {
    i < |s.slots|
  }

  /** Thread t holds slot i's lock, and the slot caches block b with its contents read in. */
  predicate Holds(s: State, t: Tid, i: nat, b: nat) {
    && Index(s, i)
    && s.slots[i].holder == Some(t)
    && s.slots[i].valid
    && s.slots[i].dev == ROOTDEV
    && s.slots[i].blockno == b
  }

  ghost predicate Cached(s: State, b: nat) {
    exists i :: 0 <= i < |s.slots| && s.slots[i].dev == ROOTDEV && s.slots[i].blockno == b
  }

  /** log_write's "too big a transaction" panic. */
  predicate LogFull(c: Core) {
    |c.blocks| >= LOGSIZE || |c.blocks| >= c.l.size - 1
  }

  /** bget, block already cached */
  ghost predicate GetHit(s: State, s': State, t: Tid, i: nat) {
    && Index(s, i) && s.slots[i].dev == ROOTDEV && t !in s.slots[i].refs
    && var sl := s.slots[i];
    s' == State(s.c, s.slots[i := sl.(refcnt := sl.refcnt + 1, refs := sl.refs + {t})])
  }

  /** bget, recycling an unused buffer (any one: the code takes the least recently used) */
  ghost predicate GetMiss(s: State, s': State, t: Tid, i: nat, b: nat) {
    && Index(s, i) && b < s.c.l.nblocks && !Cached(s, b) && s.slots[i].refcnt == 0
    && var sl := s.slots[i];
    s' == State(s.c, s.slots[i := sl.(dev := ROOTDEV, blockno := b, valid := false, refcnt := 1,
        refs := sl.refs + {t})])
  }

  /** bget's acquiresleep */
  ghost predicate Acquire(s: State, s': State, t: Tid, i: nat) {
    && Index(s, i) && t in s.slots[i].refs && s.slots[i].holder == None
    && s' == State(s.c, s.slots[i := s.slots[i].(holder := Some(t))])
  }

  /** bread's disk read */
  ghost predicate ReadIn(s: State, s': State, t: Tid, i: nat) {
    && Index(s, i) && s.slots[i].holder == Some(t) && !s.slots[i].valid
    && s.slots[i].dev == ROOTDEV && s.slots[i].blockno < |s.c.disk|
    && s' == State(s.c, s.slots[i := s.slots[i].(data := s.c.disk[s.slots[i].blockno], valid := true)])
  }

  /** An operation changes a buffer it has locked. */
  ghost predicate Modify(s: State, s': State, t: Tid, i: nat, data: Block) {
    && Index(s, i) && Holds(s, t, i, s.slots[i].blockno)
    && s.c.l.Home(s.slots[i].blockno) && t in s.c.active
    && s' == State(s.c, s.slots[i := s.slots[i].(data := data, dirty := true)])
  }

  ghost predicate LogWrite(s: State, s': State, t: Tid, i: nat) {
    && Index(s, i) && Holds(s, t, i, s.slots[i].blockno)
    && s.c.l.Home(s.slots[i].blockno) && t in s.c.active
    && s.c.active[t] < MAXOPBLOCKS
    && !LogFull(s.c)
    && var sl := s.slots[i];
    && var pin := if sl.blockno in s.c.blocks then 0 else 1;
    s' == State(
      s.c.(blocks := Absorb(s.c.blocks, sl.blockno),
           active := s.c.active[t := s.c.active[t] + 1],
           events := s.c.events + [Event(t, sl.blockno, sl.data)]),
      s.slots[i := sl.(refcnt := sl.refcnt + pin, dirty := false)])
  }

  /** brelse's releasesleep: the holder has logged its changes */
  ghost predicate Release(s: State, s': State, t: Tid, i: nat) {
    && Index(s, i) && s.slots[i].holder == Some(t) && !s.slots[i].dirty
    && s' == State(s.c, s.slots[i := s.slots[i].(holder := None)])
  }

  /** brelse's second half */
  ghost predicate Unref(s: State, s': State, t: Tid, i: nat) {
    && Index(s, i) && t in s.slots[i].refs && s.slots[i].holder != Some(t)
    && var sl := s.slots[i];
    s' == State(s.c, s.slots[i := sl.(refcnt := sl.refcnt - 1, refs := sl.refs - {t})])
  }

  ghost predicate BeginOp(s: State, s': State, t: Tid) {
    && s.c.phase.Normal? && t !in s.c.started
    && |s.c.blocks| + (s.c.outstanding + 1) * MAXOPBLOCKS <= LOGSIZE
    && s' == s.(c := s.c.(outstanding := s.c.outstanding + 1, active := s.c.active[t := 0],
       started := s.c.started + {t}))
  }

  ghost predicate EndOp(s: State, s': State, t: Tid) {
    && t in s.c.active
    && (forall i :: 0 <= i < |s.slots| && s.slots[i].holder == Some(t) ==> !s.slots[i].dirty)
    && var c1 := s.c.(outstanding := s.c.outstanding - 1, active := s.c.active - {t});
    s' == s.(c := if c1.outstanding != 0 then c1
                  else c1.(phase := if |s.c.blocks| > 0 then WriteLog(0) else EndCommit, committer := t))
  }

  /** The committer holds the log block of the entry at `tail` in slot i and its home block in slot j. */
  predicate HoldsPair(s: State, tail: nat, i: nat, j: nat) {
    && tail < |s.c.blocks|
    && Holds(s, s.c.committer, i, s.c.l.start + 1 + tail)
    && Holds(s, s.c.committer, j, s.c.blocks[tail])
  }

  /** One round of write_log: memmove and bwrite of the locked log block */
  ghost predicate CopyToLog(s: State, s': State, i: nat, j: nat) {
    && s.c.phase.WriteLog? && HoldsPair(s, s.c.phase.tail, i, j) && s.slots[i].blockno < |s.c.disk|
    && s' == State(
      s.c.(disk := s.c.disk[s.slots[i].blockno := s.slots[j].data], phase := WriteLog(s.c.phase.tail + 1)),
      s.slots[i := s.slots[i].(data := s.slots[j].data)])
  }

  ghost predicate LogCopied(s: State, s': State) {
    && s.c.phase.WriteLog? && s.c.phase.tail == |s.c.blocks|
    && s' == s.(c := s.c.(phase := WriteHead))
  }

  /** write_head: the real commit */
  ghost predicate CommitHead(s: State, s': State, i: nat) {
    && s.c.phase.WriteHead? && Holds(s, s.c.committer, i, s.c.l.start) && s.slots[i].blockno < |s.c.disk|
    && |s.c.blocks| <= LOGSIZE && (forall j :: 0 <= j < |s.c.blocks| ==> s.c.blocks[j] < TWO32)
    && var head := EncodeHead(s.slots[i].data, s.c.blocks);
    s' == State(
      s.c.(disk := s.c.disk[s.slots[i].blockno := head], phase := Install(0), commits := |s.c.events|),
      s.slots[i := s.slots[i].(data := head)])
  }

  /** One round of install_trans(0), including bunpin */
  ghost predicate CopyHome(s: State, s': State, i: nat, j: nat) {
    && s.c.phase.Install? && HoldsPair(s, s.c.phase.tail, i, j) && s.slots[j].blockno < |s.c.disk|
    && s' == State(
      s.c.(disk := s.c.disk[s.slots[j].blockno := s.slots[i].data], phase := Install(s.c.phase.tail + 1)),
      s.slots[j := s.slots[j].(data := s.slots[i].data, refcnt := s.slots[j].refcnt - 1)])
  }

  ghost predicate Installed(s: State, s': State) {
    && s.c.phase.Install? && s.c.phase.tail == |s.c.blocks|
    && s' == s.(c := s.c.(phase := ClearHead, blocks := []))
  }

  /** write_head with lh.n == 0, at the end of a commit or of recovery */
  ghost predicate EraseHead(s: State, s': State, i: nat) {
    && (s.c.phase.ClearHead? || s.c.phase.RecClear?)
    && Holds(s, s.c.committer, i, s.c.l.start) && s.slots[i].blockno < |s.c.disk|
    && var head := EncodeHead(s.slots[i].data, []);
    s' == State(
      s.c.(disk := s.c.disk[s.slots[i].blockno := head],
           phase := if s.c.phase.ClearHead? then EndCommit else Normal),
      s.slots[i := s.slots[i].(data := head)])
  }

  ghost predicate Finish(s: State, s': State) {
    && s.c.phase.EndCommit?
    && s' == s.(c := s.c.(phase := Normal))
  }

  /** Power loss or panic: only the disk survives. */
  ghost predicate Crash(s: State, s': State) {
    && s.c.commits <= |s.c.events|
    && s' == State(
      s.c.(blocks := [], outstanding := 0, phase := Boot, active := map[], events := s.c.events[..s.c.commits]),
      FreshSlots())
  }

  ghost predicate ReadHead(s: State, s': State, t: Tid, i: nat) {
    && s.c.phase.Boot? && Holds(s, t, i, s.c.l.start) && HeadOk(s.slots[i].data)
    && s' == s.(c := s.c.(blocks := DecodeHead(s.slots[i].data), phase := RecInstall(0), committer := t))
  }

  /** One round of install_trans(1) */
  ghost predicate RecCopyHome(s: State, s': State, i: nat, j: nat) {
    && s.c.phase.RecInstall? && HoldsPair(s, s.c.phase.tail, i, j) && s.slots[j].blockno < |s.c.disk|
    && s' == State(
      s.c.(disk := s.c.disk[s.slots[j].blockno := s.slots[i].data], phase := RecInstall(s.c.phase.tail + 1)),
      s.slots[j := s.slots[j].(data := s.slots[i].data)])
  }

  ghost predicate RecInstalled(s: State, s': State) {
    && s.c.phase.RecInstall? && s.c.phase.tail == |s.c.blocks|
    && s' == s.(c := s.c.(phase := RecClear, blocks := []))
  }

  datatype Step =
    | SGetHit(t: Tid, i: nat)
    | SGetMiss(t: Tid, i: nat, b: nat)
    | SAcquire(t: Tid, i: nat)
    | SReadIn(t: Tid, i: nat)
    | SModify(t: Tid, i: nat, data: Block)
    | SLogWrite(t: Tid, i: nat)
    | SRelease(t: Tid, i: nat)
    | SUnref(t: Tid, i: nat)
    | SBeginOp(t: Tid)
    | SEndOp(t: Tid)
    | SCopyToLog(i: nat, j: nat)
    | SLogCopied
    | SCommitHead(i: nat)
    | SCopyHome(i: nat, j: nat)
    | SInstalled
    | SEraseHead(i: nat)
    | SFinish
    | SCrash
    | SReadHead(t: Tid, i: nat)
    | SRecCopyHome(i: nat, j: nat)
    | SRecInstalled

  ghost predicate Next(s: State, s': State, step: Step) {
    match step
    case SGetHit(t, i) => GetHit(s, s', t, i)
    case SGetMiss(t, i, b) => GetMiss(s, s', t, i, b)
    case SAcquire(t, i) => Acquire(s, s', t, i)
    case SReadIn(t, i) => ReadIn(s, s', t, i)
    case SModify(t, i, data) => Modify(s, s', t, i, data)
    case SLogWrite(t, i) => LogWrite(s, s', t, i)
    case SRelease(t, i) => Release(s, s', t, i)
    case SUnref(t, i) => Unref(s, s', t, i)
    case SBeginOp(t) => BeginOp(s, s', t)
    case SEndOp(t) => EndOp(s, s', t)
    case SCopyToLog(i, j) => CopyToLog(s, s', i, j)
    case SLogCopied => LogCopied(s, s')
    case SCommitHead(i) => CommitHead(s, s', i)
    case SCopyHome(i, j) => CopyHome(s, s', i, j)
    case SInstalled => Installed(s, s')
    case SEraseHead(i) => EraseHead(s, s', i)
    case SFinish => Finish(s, s')
    case SCrash => Crash(s, s')
    case SReadHead(t, i) => ReadHead(s, s', t, i)
    case SRecCopyHome(i, j) => RecCopyHome(s, s', i, j)
    case SRecInstalled => RecInstalled(s, s')
  }
}

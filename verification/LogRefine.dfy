/**
 The state machine and the code write the same blocks in the same order: over any run, while
 a commit is under way, the disk is the disk at its start after a first part of the writes
 that LogCode.Log.Commit makes, whatever other threads do meanwhile; and so for recovery and
 LogCode.Log.RecoverFromLog.
 */
module LogRefine {
  import opened Blocks
  import opened LogFormat
  import opened LogReplay
  import opened LogMachine
  import opened LogSafety

  /** What commit() starts from: the disk, the logged blocks and their contents in the cache */
  datatype Txn = Txn(l: Layout, disk: seq<Block>, blocks: seq<nat>, cache: map<nat, Block>)

  ghost predicate Ready(t: Txn) {
    CommitReady(t.l, t.disk, t.blocks, t.cache)
  }

  predicate InCommit(p: Phase) {
    p.WriteLog? || p.WriteHead? || p.Install? || p.ClearHead? || p.EndCommit?
  }

  predicate InBlocks(p: Phase, n: nat) {
    p.WriteLog? || p.Install? ==> p.tail <= n
  }

  /** How many of commit's writes have been made when it comes to this phase */
  function Count(p: Phase, n: nat): (k: nat) {
    match p
    case WriteLog(tail) => tail
    case WriteHead => n
    case Install(tail) => n + 1 + tail
    case ClearHead => 2 * n + 1
    case _ => 2 * n + 2
  }

  // ---------- The writes of commit, one by one ----------

  /** The k-th write of commit: log blocks, the header, home blocks, and the empty header */
  ghost function WriteAt(t: Txn, k: nat): (w: Wr)
    requires Ready(t) && k <= 2 * |t.blocks| + 1
  {
    var n := |t.blocks|;
    if k < n then Wr(t.l.start + 1 + k, t.cache[t.blocks[k]])
    else if k == n then Wr(t.l.start, EncodeHead(t.disk[t.l.start], t.blocks))
    else if k <= 2 * n then Wr(t.blocks[k - n - 1], t.cache[t.blocks[k - n - 1]])
    else Wr(t.l.start, EncodeHead(EncodeHead(t.disk[t.l.start], t.blocks), []))
  }

  ghost predicate Listed(t: Txn, ws: seq<Wr>) {
    && Ready(t) && |ws| == 2 * |t.blocks| + 2 && InRange(ws, |t.disk|)
    && (forall k :: 0 <= k < |ws| ==> ws[k] == WriteAt(t, k))
  }

  lemma CommitListed(t: Txn)
    requires Ready(t)
    ensures Listed(t, CommitWrites(t.l, t.disk, t.blocks, t.cache))
  {
    var n, ws := |t.blocks|, CommitWrites(t.l, t.disk, t.blocks, t.cache);
    PreparedHead(t.l, t.disk, t.blocks, t.cache);
    var d := Prepared(t.l, t.disk, t.blocks, t.cache);
    var pw, rw := PrepareWrites(t.l, t.disk, t.blocks, t.cache), RecoverWrites(t.l, d);
    assert ws == pw + rw;
    forall k | 0 <= k < |ws|
      ensures ws[k] == WriteAt(t, k)
    {
      if k <= n {
        assert ws[k] == pw[k];
      } else {
        assert ws[k] == rw[k - n - 1];
        SecondListed(t, d, rw, k - n - 1);
      }
    }
  }

  /** The writes after the header's */
  lemma SecondListed(t: Txn, d: seq<Block>, rw: seq<Wr>, k: nat)
    requires Ready(t) && d == Prepared(t.l, t.disk, t.blocks, t.cache) && k <= |t.blocks|
    requires GoodDisk(t.l, d) && Head(t.l, d) == t.blocks && rw == RecoverWrites(t.l, d)
    ensures |rw| == |t.blocks| + 1 && rw[k] == WriteAt(t, |t.blocks| + 1 + k)
  {
    PreparedIs(t, d, k);
    RecoverListed(t, d, rw, k);
  }

  lemma RecoverListed(t: Txn, d: seq<Block>, rw: seq<Wr>, k: nat)
    requires Ready(t) && k <= |t.blocks| && GoodDisk(t.l, d) && Head(t.l, d) == t.blocks
    requires d[t.l.start] == EncodeHead(t.disk[t.l.start], t.blocks)
    requires k < |t.blocks| ==> d[t.l.start + 1 + k] == t.cache[t.blocks[k]]
    requires rw == RecoverWrites(t.l, d)
    ensures |rw| == |t.blocks| + 1 && rw[k] == WriteAt(t, |t.blocks| + 1 + k)
  {
  }

  lemma PreparedIs(t: Txn, d: seq<Block>, k: nat)
    requires Ready(t) && d == Prepared(t.l, t.disk, t.blocks, t.cache) && k <= |t.blocks|
    ensures d[t.l.start] == EncodeHead(t.disk[t.l.start], t.blocks)
    ensures k < |t.blocks| ==> d[t.l.start + 1 + k] == t.cache[t.blocks[k]]
  {
    PreparedAt(t.l, t.disk, t.blocks, t.cache, t.l.start);
    if k < |t.blocks| {
      PreparedAt(t.l, t.disk, t.blocks, t.cache, t.l.start + 1 + k);
    }
  }

  // ---------- Commit, step by step ----------

  /** A commit of t, with writes ws, has come as far as c's phase says. */
  ghost predicate Stage(t: Txn, ws: seq<Wr>, c: Core) {
    && Listed(t, ws) && c.l == t.l && InCommit(c.phase) && InBlocks(c.phase, |t.blocks|)
    && c.disk == After(t.disk, ws, Count(c.phase, |t.blocks|)) && t.l.start < |c.disk|
    && (c.phase.WriteLog? || c.phase.WriteHead? || c.phase.Install? ==> c.blocks == t.blocks && CacheIs(t, c))
    && (c.phase.WriteLog? || c.phase.WriteHead? ==> c.disk[t.l.start] == t.disk[t.l.start])
    && (c.phase.Install? || c.phase.ClearHead? ==> c.disk[t.l.start] == EncodeHead(t.disk[t.l.start], t.blocks))
  }

  /** The cache holds the last contents of the logged blocks. */
  ghost predicate CacheIs(t: Txn, c: Core) {
    && (forall b :: b in t.blocks ==> b in t.cache && b < |c.image|)
    && (forall b :: b in t.blocks ==> t.cache[b] == Last(c.image, c.events, b))
  }

  ghost function TxnOf(c: Core): (t: Txn)
    requires Shape(c) && Protocol(c)
  {
    Txn(c.l, c.disk, c.blocks, map b | b in c.blocks && b < |c.image| :: Last(c.image, c.events, b))
  }

  /** Stage, behind a quantifier to keep the disk folded */
  ghost predicate Reached(t: Txn, ws: seq<Wr>, c: Core) {
    forall x :: x == c ==> Stage(t, ws, x)
  }

  lemma TxnReady(c: Core)
    requires CoreInv(c) && c.phase == WriteLog(0)
    ensures Ready(TxnOf(c)) && CacheIs(TxnOf(c), c)
  {
    assert forall b :: b in c.blocks ==> c.l.Home(b);
  }

  lemma StageStart(c: Core, t: Txn, ws: seq<Wr>)
    requires CoreInv(c) && c.phase == WriteLog(0) && t == TxnOf(c)
    requires Ready(t) && CacheIs(t, c) && Listed(t, ws)
    ensures Reached(t, ws, c)
  {
    assert Stage(t, ws, c);
  }

  /** Inv, behind a quantifier to keep it folded */
  ghost predicate Sound(s: State) {
    forall x :: x == s ==> Inv(x)
  }

  lemma RunSound(run: seq<State>, k: nat)
    requires IsRun(run) && k < |run|
    ensures Sound(run[k])
  {
    RunInv(run, k);
  }

  /** write_log copies the last contents. */
  lemma CopyToLogReads(s: State, s': State, i: nat, j: nat)
    requires Sound(s) && CopyToLog(s, s', i, j)
    ensures var c, tail := s.c, s.c.phase.tail;
            && tail < |c.blocks| && c.blocks[tail] < |c.image| && c.l.start + 1 + tail < |c.disk|
            && s'.c == c.(disk := c.disk[c.l.start + 1 + tail := Last(c.image, c.events, c.blocks[tail])],
                          phase := WriteLog(tail + 1))
  {
    assert Inv(s);
    SeesLast(s, s.c.committer, j, s.c.blocks[s.c.phase.tail]);
  }

  lemma CopyToLogStage(t: Txn, ws: seq<Wr>, c: Core, c': Core)
    requires Reached(t, ws, c) && c.phase.WriteLog?
    requires var tail := c.phase.tail;
             && tail < |c.blocks| && c.blocks[tail] < |c.image| && c.l.start + 1 + tail < |c.disk|
             && c' == c.(disk := c.disk[c.l.start + 1 + tail := Last(c.image, c.events, c.blocks[tail])],
                         phase := WriteLog(tail + 1))
    ensures Reached(t, ws, c')
  {
    assert Stage(t, ws, c);
    assert Stage(t, ws, c');
  }

  lemma LogCopiedStage(t: Txn, ws: seq<Wr>, c: Core, c': Core)
    requires Reached(t, ws, c) && c.phase.WriteLog? && c.phase.tail == |c.blocks| && c' == c.(phase := WriteHead)
    ensures Reached(t, ws, c')
  {
    assert Stage(t, ws, c);
    assert Stage(t, ws, c');
  }

  lemma CommitHeadReads(s: State, s': State, i: nat)
    requires Sound(s) && CommitHead(s, s', i)
    ensures var c := s.c;
            && c.l.start < |c.disk| && |c.blocks| <= LOGSIZE
            && (forall j :: 0 <= j < |c.blocks| ==> c.blocks[j] < TWO32)
            && s'.c == c.(disk := c.disk[c.l.start := EncodeHead(c.disk[c.l.start], c.blocks)], phase := Install(0),
                          commits := |c.events|)
  {
    assert Inv(s);
    SeesLast(s, s.c.committer, i, s.c.l.start);
  }

  lemma CommitHeadStage(t: Txn, ws: seq<Wr>, c: Core, c': Core)
    requires Reached(t, ws, c) && c.phase.WriteHead?
    requires c.l.start < |c.disk| && |c.blocks| <= LOGSIZE && (forall j :: 0 <= j < |c.blocks| ==> c.blocks[j] < TWO32)
    requires c' == c.(disk := c.disk[c.l.start := EncodeHead(c.disk[c.l.start], c.blocks)], phase := Install(0),
                      commits := |c.events|)
    ensures Reached(t, ws, c')
  {
    assert Stage(t, ws, c);
    assert Stage(t, ws, c');
  }

  /** install_trans copies the last contents. */
  lemma CopyHomeReads(s: State, s': State, i: nat, j: nat)
    requires Sound(s) && CopyHome(s, s', i, j)
    ensures var c, tail := s.c, s.c.phase.tail;
            && tail < |c.blocks| && c.blocks[tail] < |c.disk| && c.blocks[tail] < |c.image|
            && c.blocks[tail] != c.l.start
            && s'.c == c.(disk := c.disk[c.blocks[tail] := Last(c.image, c.events, c.blocks[tail])],
                          phase := Install(tail + 1))
  {
    CopyHomeData(s, i, j);
  }

  lemma CopyHomeData(s: State, i: nat, j: nat)
    requires Sound(s) && s.c.phase.Install? && HoldsPair(s, s.c.phase.tail, i, j)
    ensures var b := s.c.blocks[s.c.phase.tail];
            b < |s.c.image| && b != s.c.l.start && s.slots[i].data == Last(s.c.image, s.c.events, b)
  {
    ReadsLog(s, i, j);
    LogIsLast(s);
  }

  lemma ReadsLog(s: State, i: nat, j: nat)
    requires Sound(s) && s.c.phase.Install? && HoldsPair(s, s.c.phase.tail, i, j)
    ensures var b := s.c.l.start + 1 + s.c.phase.tail;
            b < |s.c.disk| && s.slots[i].data == s.c.disk[b]
  {
    assert Inv(s);
    SeesLast(s, s.c.committer, i, s.c.l.start + 1 + s.c.phase.tail);
  }

  lemma LogIsLast(s: State)
    requires Sound(s) && s.c.phase.Install? && s.c.phase.tail < |s.c.blocks|
    ensures var b, k := s.c.blocks[s.c.phase.tail], s.c.l.start + 1 + s.c.phase.tail;
            b < |s.c.image| && b != s.c.l.start && k < |s.c.disk| && s.c.disk[k] == Last(s.c.image, s.c.events, b)
  {
    assert Inv(s);
    CoreLogIsLast(s.c);
  }

  lemma CoreLogIsLast(c: Core)
    requires CoreInv(c) && c.phase.Install? && c.phase.tail < |c.blocks|
    ensures var b, k := c.blocks[c.phase.tail], c.l.start + 1 + c.phase.tail;
            b < |c.image| && b != c.l.start && k < |c.disk| && c.disk[k] == Last(c.image, c.events, b)
  {
    LogBlockIsLast(c, c.phase.tail);
  }

  lemma CopyHomeStage(t: Txn, ws: seq<Wr>, c: Core, c': Core)
    requires Reached(t, ws, c) && c.phase.Install?
    requires var tail := c.phase.tail;
             && tail < |c.blocks| && c.blocks[tail] < |c.disk| && c.blocks[tail] < |c.image|
             && c.blocks[tail] != c.l.start
             && c' == c.(disk := c.disk[c.blocks[tail] := Last(c.image, c.events, c.blocks[tail])],
                         phase := Install(tail + 1))
    ensures Reached(t, ws, c')
  {
    assert Stage(t, ws, c);
    assert Stage(t, ws, c');
  }

  lemma InstalledStage(t: Txn, ws: seq<Wr>, c: Core, c': Core)
    requires Reached(t, ws, c) && c.phase.Install? && c.phase.tail == |c.blocks|
    requires c' == c.(phase := ClearHead, blocks := [])
    ensures Reached(t, ws, c')
  {
    assert Stage(t, ws, c);
    assert Stage(t, ws, c');
  }

  lemma EraseHeadReads(s: State, s': State, i: nat)
    requires Sound(s) && EraseHead(s, s', i) && s.c.phase.ClearHead?
    ensures var c := s.c;
            && c.l.start < |c.disk|
            && s'.c == c.(disk := c.disk[c.l.start := EncodeHead(c.disk[c.l.start], [])], phase := EndCommit)
  {
    assert Inv(s);
    SeesLast(s, s.c.committer, i, s.c.l.start);
  }

  lemma EraseHeadStage(t: Txn, ws: seq<Wr>, c: Core, c': Core)
    requires Reached(t, ws, c) && c.phase.ClearHead? && c.l.start < |c.disk|
    requires c' == c.(disk := c.disk[c.l.start := EncodeHead(c.disk[c.l.start], [])], phase := EndCommit)
    ensures Reached(t, ws, c')
  {
    assert Stage(t, ws, c);
    assert Stage(t, ws, c');
  }

  /** Steps other than the committer's do not touch the disk and the log while a commit goes on. */
  lemma OtherSteps(s: State, s': State, step: Step)
    requires Sound(s) && InCommit(s.c.phase) && Next(s, s', step) && InCommit(s'.c.phase)
    requires !step.SCopyToLog? && !step.SLogCopied? && !step.SCommitHead? && !step.SCopyHome? && !step.SInstalled?
    requires !step.SEraseHead?
    ensures s'.c == s.c
  {
    assert Inv(s);
  }

  lemma CopyToLogNext(t: Txn, ws: seq<Wr>, s: State, s': State, i: nat, j: nat)
    requires Sound(s) && Reached(t, ws, s.c) && CopyToLog(s, s', i, j)
    ensures Reached(t, ws, s'.c)
  {
    CopyToLogReads(s, s', i, j);
    CopyToLogStage(t, ws, s.c, s'.c);
  }

  lemma CommitHeadNext(t: Txn, ws: seq<Wr>, s: State, s': State, i: nat)
    requires Sound(s) && Reached(t, ws, s.c) && CommitHead(s, s', i)
    ensures Reached(t, ws, s'.c)
  {
    CommitHeadReads(s, s', i);
    CommitHeadStage(t, ws, s.c, s'.c);
  }

  lemma CopyHomeNext(t: Txn, ws: seq<Wr>, s: State, s': State, i: nat, j: nat)
    requires Sound(s) && Reached(t, ws, s.c) && CopyHome(s, s', i, j)
    ensures Reached(t, ws, s'.c)
  {
    CopyHomeReads(s, s', i, j);
    CopyHomeStage(t, ws, s.c, s'.c);
  }

  lemma EraseHeadNext(t: Txn, ws: seq<Wr>, s: State, s': State, i: nat)
    requires Sound(s) && Reached(t, ws, s.c) && EraseHead(s, s', i) && s.c.phase.ClearHead?
    ensures Reached(t, ws, s'.c)
  {
    EraseHeadReads(s, s', i);
    EraseHeadStage(t, ws, s.c, s'.c);
  }

  /** Every step of any thread, as long as the commit goes on */
  lemma StageNext(t: Txn, ws: seq<Wr>, s: State, s': State, step: Step)
    requires Sound(s) && InCommit(s.c.phase) && Reached(t, ws, s.c) && Next(s, s', step) && InCommit(s'.c.phase)
    ensures Reached(t, ws, s'.c)
  {
    match step
    case SCopyToLog(i, j) => CopyToLogNext(t, ws, s, s', i, j);
    case SLogCopied => LogCopiedStage(t, ws, s.c, s'.c);
    case SCommitHead(i) => CommitHeadNext(t, ws, s, s', i);
    case SCopyHome(i, j) => CopyHomeNext(t, ws, s, s', i, j);
    case SInstalled => InstalledStage(t, ws, s.c, s'.c);
    case SEraseHead(i) => EraseHeadNext(t, ws, s, s', i);
    case _ => OtherSteps(s, s', step);
  }

  lemma ReachesNext(run: seq<State>, k: nat, t: Txn, ws: seq<Wr>)
    requires IsRun(run) && 0 < k < |run| && InCommit(run[k - 1].c.phase) && InCommit(run[k].c.phase)
    requires Reached(t, ws, run[k - 1].c)
    ensures Reached(t, ws, run[k].c)
  {
    RunSound(run, k - 1);
    assert FollowsAt(run, k);
    var s, s' := run[k - 1], run[k];
    var step :| Next(s, s', step);
    StageNext(t, ws, s, s', step);
  }

  lemma {:induction false} CommitReaches(run: seq<State>, i: nat, k: nat, t: Txn, ws: seq<Wr>)
    requires IsRun(run) && i <= k < |run| && Reached(t, ws, run[i].c)
    requires forall m :: i <= m <= k ==> InCommit(run[m].c.phase)
    ensures Reached(t, ws, run[k].c)
  {
    if k > i {
      CommitReaches(run, i, k - 1, t, ws);
      ReachesNext(run, k, t, ws);
    }
  }

  /**
   From the state in which a commit begins, and as long as it goes on, the disk is what the
   first writes of the code's commit make of it.
   */
  lemma CommitIsCode(run: seq<State>, i: nat, k: nat)
    requires IsRun(run) && i <= k < |run| && run[i].c.phase == WriteLog(0)
    requires forall m :: i <= m <= k ==> InCommit(run[m].c.phase)
    ensures Shape(run[i].c) && Protocol(run[i].c) && Ready(TxnOf(run[i].c))
    ensures var t := TxnOf(run[i].c);
            var ws, n := CommitWrites(t.l, t.disk, t.blocks, t.cache), Count(run[k].c.phase, |t.blocks|);
            n <= |ws| && run[k].c.disk == After(t.disk, ws, n)
  {
    RunInv(run, i);
    TxnReady(run[i].c);
    var t := TxnOf(run[i].c);
    var ws := CommitWrites(t.l, t.disk, t.blocks, t.cache);
    CommitListed(t);
    StageStart(run[i].c, t, ws);
    CommitReaches(run, i, k, t, ws);
    assert Stage(t, ws, run[k].c);
  }

  // ---------- Recovery ----------

  predicate InRecovery(p: Phase) {
    p.RecInstall? || p.RecClear?
  }

  /** Recovery from disk d, with writes ws, has come as far as c's phase says. */
  ghost predicate RecStage(d: seq<Block>, ws: seq<Wr>, c: Core) {
    && GoodDisk(c.l, d) && InRecovery(c.phase)
    && var n := |Head(c.l, d)|;
       && RecListed(c.l, d, ws)
       && (c.phase.RecInstall? ==> c.phase.tail <= n && c.blocks == Head(c.l, d))
       && c.disk == After(d, ws, if c.phase.RecInstall? then c.phase.tail else n)
       && (forall b :: c.l.start <= b <= c.l.start + n ==> c.disk[b] == d[b])
  }

  ghost predicate RecListed(l: Layout, d: seq<Block>, ws: seq<Wr>)
    requires GoodDisk(l, d)
  {
    var n := |Head(l, d)|;
    && |ws| == n + 1 && InRange(ws, |d|)
    && (forall k :: 0 <= k < n ==> ws[k] == Wr(Head(l, d)[k], d[l.start + 1 + k]))
    && ws[n] == Wr(l.start, EncodeHead(d[l.start], []))
  }

  /** RecStage, behind a quantifier to keep the disk folded */
  ghost predicate RecReached(d: seq<Block>, ws: seq<Wr>, c: Core) {
    forall x :: x == c ==> RecStage(d, ws, x)
  }

  lemma RecStart(c: Core)
    requires CoreInv(c) && c.phase == RecInstall(0)
    ensures GoodDisk(c.l, c.disk) && RecReached(c.disk, RecoverWrites(c.l, c.disk), c)
  {
    assert RecStage(c.disk, RecoverWrites(c.l, c.disk), c);
  }

  lemma RecCopyReads(s: State, s': State, i: nat, j: nat)
    requires Sound(s) && RecCopyHome(s, s', i, j)
    ensures var c, tail := s.c, s.c.phase.tail;
            && tail < |c.blocks| && c.l.start + 1 + tail < |c.disk| && c.blocks[tail] < |c.disk|
            && s'.c == c.(disk := c.disk[c.blocks[tail] := c.disk[c.l.start + 1 + tail]], phase := RecInstall(tail + 1))
  {
    assert Inv(s);
    SeesLast(s, s.c.committer, i, s.c.l.start + 1 + s.c.phase.tail);
  }

  lemma RecCopyStage(d: seq<Block>, ws: seq<Wr>, c: Core, c': Core)
    requires RecReached(d, ws, c) && c.phase.RecInstall?
    requires var tail := c.phase.tail;
             && tail < |c.blocks| && c.l.start + 1 + tail < |c.disk| && c.blocks[tail] < |c.disk|
             && c' == c.(disk := c.disk[c.blocks[tail] := c.disk[c.l.start + 1 + tail]], phase := RecInstall(tail + 1))
    ensures RecReached(d, ws, c')
  {
    assert RecStage(d, ws, c);
    assert c.l.Home(c.blocks[c.phase.tail]);
    assert RecStage(d, ws, c');
  }

  lemma RecInstalledStage(d: seq<Block>, ws: seq<Wr>, c: Core, c': Core)
    requires RecReached(d, ws, c) && c.phase.RecInstall? && c.phase.tail == |c.blocks|
    requires c' == c.(phase := RecClear, blocks := [])
    ensures RecReached(d, ws, c')
  {
    assert RecStage(d, ws, c);
    assert RecStage(d, ws, c');
  }

  lemma RecCopyNext(d: seq<Block>, ws: seq<Wr>, s: State, s': State, i: nat, j: nat)
    requires Sound(s) && RecReached(d, ws, s.c) && RecCopyHome(s, s', i, j)
    ensures RecReached(d, ws, s'.c)
  {
    RecCopyReads(s, s', i, j);
    RecCopyStage(d, ws, s.c, s'.c);
  }

  lemma RecOtherSteps(s: State, s': State, step: Step)
    requires Sound(s) && InRecovery(s.c.phase) && Next(s, s', step) && InRecovery(s'.c.phase)
    requires !step.SRecCopyHome? && !step.SRecInstalled?
    ensures s'.c == s.c
  {
    assert Inv(s);
  }

  lemma RecNext(d: seq<Block>, ws: seq<Wr>, s: State, s': State, step: Step)
    requires Sound(s) && InRecovery(s.c.phase) && RecReached(d, ws, s.c) && Next(s, s', step)
    requires InRecovery(s'.c.phase)
    ensures RecReached(d, ws, s'.c)
  {
    match step
    case SRecCopyHome(i, j) => RecCopyNext(d, ws, s, s', i, j);
    case SRecInstalled => RecInstalledStage(d, ws, s.c, s'.c);
    case _ => RecOtherSteps(s, s', step);
  }

  lemma {:induction false} RecoveryReaches(run: seq<State>, i: nat, k: nat, d: seq<Block>, ws: seq<Wr>)
    requires IsRun(run) && i <= k < |run| && RecReached(d, ws, run[i].c)
    requires forall m :: i <= m <= k ==> InRecovery(run[m].c.phase)
    ensures RecReached(d, ws, run[k].c)
  {
    if k > i {
      RecoveryReaches(run, i, k - 1, d, ws);
      RunSound(run, k - 1);
      assert FollowsAt(run, k);
      var s, s' := run[k - 1], run[k];
      var step :| Next(s, s', step);
      RecNext(d, ws, s, s', step);
    }
  }

  /** recover_from_log's last write, after which the machine is up */
  lemma RecoveryEnds(s: State, s': State, step: Step, d: seq<Block>, ws: seq<Wr>)
    requires Sound(s) && InRecovery(s.c.phase) && RecReached(d, ws, s.c) && Next(s, s', step) && s'.c.phase.Normal?
    ensures InRange(ws, |d|) && s'.c.disk == After(d, ws, |ws|)
  {
    OnlyErase(s, s', step);
    EraseReads(s, s', step.i);
    LastWrite(d, ws, s.c, s'.c.disk);
  }

  lemma OnlyErase(s: State, s': State, step: Step)
    requires Sound(s) && InRecovery(s.c.phase) && Next(s, s', step) && s'.c.phase.Normal?
    ensures step.SEraseHead? && s.c.phase.RecClear?
  {
    assert Inv(s);
  }

  lemma LastWrite(d: seq<Block>, ws: seq<Wr>, c: Core, disk: seq<Block>)
    requires RecReached(d, ws, c) && c.phase.RecClear? && c.l.start < |c.disk|
    requires disk == c.disk[c.l.start := EncodeHead(c.disk[c.l.start], [])]
    ensures InRange(ws, |d|) && disk == After(d, ws, |ws|)
  {
    assert RecStage(d, ws, c);
  }

  lemma EraseReads(s: State, s': State, i: nat)
    requires Sound(s) && EraseHead(s, s', i)
    ensures s.c.l.start < |s.c.disk|
    ensures s'.c.disk == s.c.disk[s.c.l.start := EncodeHead(s.c.disk[s.c.l.start], [])]
  {
    assert Inv(s);
    SeesLast(s, s.c.committer, i, s.c.l.start);
  }

  /**
   From the state in which recovery has read the header, and as long as it goes on, the disk
   is what the first writes of the code's recovery make of it, and after it what all make of it.
   */
  lemma RecoveryIsCode(run: seq<State>, i: nat, k: nat)
    requires IsRun(run) && i <= k < |run| && run[i].c.phase == RecInstall(0)
    requires forall m :: i <= m <= k ==> InRecovery(run[m].c.phase)
    ensures GoodDisk(run[i].c.l, run[i].c.disk)
    ensures var l, d, p := run[i].c.l, run[i].c.disk, run[k].c.phase;
            var n := if p.RecInstall? then p.tail else |Head(l, d)|;
            && n <= |RecoverWrites(l, d)| && run[k].c.disk == After(d, RecoverWrites(l, d), n)
            && (k + 1 < |run| && run[k + 1].c.phase.Normal? ==> run[k + 1].c.disk == Recover(l, d))
  {
    RunInv(run, i);
    RecStart(run[i].c);
    var l, d := run[i].c.l, run[i].c.disk;
    var ws := RecoverWrites(l, d);
    RecoveryReaches(run, i, k, d, ws);
    assert RecStage(d, ws, run[k].c);
    if k + 1 < |run| && run[k + 1].c.phase.Normal? {
      RunSound(run, k);
      assert FollowsAt(run, k + 1);
      var step :| Next(run[k], run[k + 1], step);
      RecoveryEnds(run[k], run[k + 1], step, d, ws);
    }
  }
}

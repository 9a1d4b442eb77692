/**
 Committing and recovering as sequences of single-block writes.  A crash may cut
 such a sequence short after any number of writes.
 */
module LogReplay {
  import opened Blocks
  import opened LogFormat

  datatype Wr = Wr(bno: nat, data: Block)

  ghost predicate InRange(ws: seq<Wr>, n: nat) {
    forall i :: 0 <= i < |ws| ==> ws[i].bno < n
  }

  /** The disk after the first k writes. */
  ghost function After(d: seq<Block>, ws: seq<Wr>, k: nat): (r: seq<Block>)
    requires InRange(ws, |d|) && k <= |ws|
    ensures |r| == |d|
  {
    if k == 0 then d else After(d, ws, k - 1)[ws[k - 1].bno := ws[k - 1].data]
  }

  lemma {:induction false} AfterMiss(d: seq<Block>, ws: seq<Wr>, k: nat, b: nat)
    requires InRange(ws, |d|) && k <= |ws| && b < |d|
    requires forall i :: 0 <= i < k ==> ws[i].bno != b
    ensures After(d, ws, k)[b] == d[b]
  {
    if k > 0 {
      AfterMiss(d, ws, k - 1, b);
    }
  }

  lemma {:induction false} AfterHit(d: seq<Block>, ws: seq<Wr>, k: nat, j: nat)
    requires InRange(ws, |d|) && j < k <= |ws|
    requires forall i :: j < i < k ==> ws[i].bno != ws[j].bno
    ensures After(d, ws, k)[ws[j].bno] == ws[j].data
  {
    if j < k - 1 {
      AfterHit(d, ws, k - 1, j);
    }
  }

  /** Writes split in two. */
  lemma {:induction false} AfterConcat(d: seq<Block>, ws: seq<Wr>, vs: seq<Wr>, k: nat)
    requires InRange(ws, |d|) && InRange(vs, |d|) && k <= |ws| + |vs|
    ensures InRange(ws + vs, |d|)
    ensures k <= |ws| ==> After(d, ws + vs, k) == After(d, ws, k)
    ensures k >= |ws| ==> After(d, ws + vs, k) == After(After(d, ws, |ws|), vs, k - |ws|)
  {
    if k > 0 {
      AfterConcat(d, ws, vs, k - 1);
    }
  }

  // ---------- The writes of log.c ----------

  /** Home blocks, not more than the log area holds. */
  ghost predicate HomeList(l: Layout, blocks: seq<nat>) {
    && l.Valid() && |blocks| < l.size
    && forall j :: 0 <= j < |blocks| ==> l.Home(blocks[j])
  }

  /** write_log: the cached blocks to the log area. */
  ghost function LogWrites(l: Layout, blocks: seq<nat>, cache: map<nat, Block>): (ws: seq<Wr>)
    requires forall j :: 0 <= j < |blocks| ==> blocks[j] in cache
    ensures |ws| == |blocks| && forall j :: 0 <= j < |ws| ==> ws[j] == Wr(l.start + 1 + j, cache[blocks[j]])
  {
    seq(|blocks|, j requires 0 <= j < |blocks| => Wr(l.start + 1 + j, cache[blocks[j]]))
  }

  /** install_trans: the log area to the home blocks. */
  ghost function InstallWrites(l: Layout, blocks: seq<nat>, disk: seq<Block>): (ws: seq<Wr>)
    requires HomeList(l, blocks) && |disk| == l.nblocks
    ensures |ws| == |blocks| && forall j :: 0 <= j < |ws| ==> ws[j] == Wr(blocks[j], disk[l.start + 1 + j])
    ensures InRange(ws, |disk|)
  {
    seq(|blocks|, j requires 0 <= j < |blocks| => Wr(blocks[j], disk[l.start + 1 + j]))
  }

  /** write_head. */
  ghost function HeadWrite(l: Layout, blocks: seq<nat>, disk: seq<Block>): (w: Wr)
    requires l.start < |disk| && |blocks| <= LOGSIZE
    requires forall j :: 0 <= j < |blocks| ==> blocks[j] < TWO32
  {
    Wr(l.start, EncodeHead(disk[l.start], blocks))
  }

  /** A disk whose log header is in order. */
  ghost predicate GoodDisk(l: Layout, disk: seq<Block>) {
    && l.Valid() && |disk| == l.nblocks
    && HeadOk(disk[l.start])
    && GoodList(l, DecodeHead(disk[l.start]))
  }

  ghost function Head(l: Layout, disk: seq<Block>): (blocks: seq<nat>)
    requires GoodDisk(l, disk)
    ensures HomeList(l, blocks) && GoodList(l, blocks)
  {
    DecodeHead(disk[l.start])
  }

  /** The disk after install_trans. */
  ghost function Installed(l: Layout, disk: seq<Block>): (r: seq<Block>)
    requires GoodDisk(l, disk)
    ensures |r| == |disk|
  {
    After(disk, InstallWrites(l, Head(l, disk), disk), |Head(l, disk)|)
  }

  /** The writes of recover_from_log. */
  ghost function RecoverWrites(l: Layout, disk: seq<Block>): (ws: seq<Wr>)
    requires GoodDisk(l, disk)
    ensures InRange(ws, |disk|)
  {
    InstallWrites(l, Head(l, disk), disk) + [HeadWrite(l, [], disk)]
  }

  /** The disk after recover_from_log. */
  ghost function Recover(l: Layout, disk: seq<Block>): (r: seq<Block>)
    requires GoodDisk(l, disk)
    ensures |r| == |disk|
  {
    After(disk, RecoverWrites(l, disk), |RecoverWrites(l, disk)|)
  }

  /** install_trans finds each log block as it was when it started. */
  lemma LogBlockStays(l: Layout, disk: seq<Block>, blocks: seq<nat>, k: nat)
    requires HomeList(l, blocks) && |disk| == l.nblocks && k < |blocks|
    ensures After(disk, InstallWrites(l, blocks, disk), k)[l.start + 1 + k] == disk[l.start + 1 + k]
  {
    AfterMiss(disk, InstallWrites(l, blocks, disk), k, l.start + 1 + k);
  }

  /** What a part of install_trans does to each block. */
  lemma InstallPrefixAt(l: Layout, disk: seq<Block>, k: nat, b: nat)
    requires GoodDisk(l, disk) && k <= |Head(l, disk)| && b < l.nblocks
    ensures var d := After(disk, InstallWrites(l, Head(l, disk), disk), k);
            && (b !in Head(l, disk)[..k] ==> d[b] == disk[b])
            && (forall j :: 0 <= j < k && Head(l, disk)[j] == b ==> d[b] == disk[l.start + 1 + j])
  {
    var ws := InstallWrites(l, Head(l, disk), disk);
    if b !in Head(l, disk)[..k] {
      assert forall i :: 0 <= i < k ==> Head(l, disk)[..k][i] == ws[i].bno;
      AfterMiss(disk, ws, k, b);
    } else {
      forall j | 0 <= j < k && Head(l, disk)[j] == b
        ensures After(disk, ws, k)[b] == disk[l.start + 1 + j]
      {
        AfterHit(disk, ws, k, j);
      }
    }
  }

  /** Erasing the header after install_trans completes a recovery. */
  lemma EraseAfterInstall(l: Layout, disk: seq<Block>)
    requires GoodDisk(l, disk)
    ensures Installed(l, disk)[l.start] == disk[l.start]
    ensures Recover(l, disk) == Installed(l, disk)[l.start := EncodeHead(disk[l.start], [])]
  {
    var blocks := Head(l, disk);
    var iw := InstallWrites(l, blocks, disk);
    AfterMiss(disk, iw, |blocks|, l.start);
    AfterConcat(disk, iw, [HeadWrite(l, [], disk)], |blocks|);
  }

  /** What recovery does to each block but the header. */
  lemma RecoverAt(l: Layout, disk: seq<Block>, b: nat)
    requires GoodDisk(l, disk) && b < l.nblocks && b != l.start
    ensures b !in Head(l, disk) ==> Recover(l, disk)[b] == disk[b]
    ensures forall j :: 0 <= j < |Head(l, disk)| && Head(l, disk)[j] == b ==>
            Recover(l, disk)[b] == disk[l.start + 1 + j]
  {
    var blocks := Head(l, disk);
    assert blocks[..|blocks|] == blocks;
    InstallPrefixAt(l, disk, |blocks|, b);
    EraseAfterInstall(l, disk);
  }

  /** Recovery leaves an empty log. */
  lemma RecoverErases(l: Layout, disk: seq<Block>)
    requires GoodDisk(l, disk)
    ensures GoodDisk(l, Recover(l, disk)) && Head(l, Recover(l, disk)) == []
    ensures Recover(l, disk)[l.start] == EncodeHead(disk[l.start], [])
  {
    EraseAfterInstall(l, disk);
    HeadRoundTrip(disk[l.start], []);
  }

  /** Recovering a recovered disk changes nothing, not even a byte of the log. */
  lemma RecoverIdempotent(l: Layout, disk: seq<Block>)
    requires GoodDisk(l, disk)
    ensures GoodDisk(l, Recover(l, disk)) && Recover(l, Recover(l, disk)) == Recover(l, disk)
  {
    RecoverErases(l, disk);
    var d, h := Recover(l, disk), disk[l.start];
    assert PutWord(PutWord(h, 0, 0), 0, 0) == PutWord(h, 0, 0);
    assert EncodeHead(d[l.start], []) == d[l.start];
    EraseAfterInstall(l, d);
    assert Installed(l, d) == d;
    assert d[l.start := d[l.start]] == d;
  }

  // ---------- Crashes ----------

  /** The two disks hold the same files. */
  ghost predicate SameHome(l: Layout, d: seq<Block>, e: seq<Block>) {
    && |d| == |e| == l.nblocks
    && forall b: nat :: l.Home(b) ==> d[b] == e[b]
  }

  /** After a crash that leaves disk d, recovery brings back the files of e. */
  ghost predicate RecoversTo(l: Layout, d: seq<Block>, e: seq<Block>) {
    GoodDisk(l, d) && SameHome(l, Recover(l, d), e)
  }

  lemma EmptyHeadRecovers(l: Layout, d: seq<Block>, e: seq<Block>)
    requires GoodDisk(l, d) && Head(l, d) == [] && SameHome(l, d, e)
    ensures RecoversTo(l, d, e)
  {
    forall b: nat | l.Home(b)
      ensures Recover(l, d)[b] == e[b]
    {
      RecoverAt(l, d, b);
    }
  }

  lemma FullHeadRecovers(l: Layout, d: seq<Block>, e: seq<Block>)
    requires GoodDisk(l, d) && |e| == l.nblocks
    requires forall j :: 0 <= j < |Head(l, d)| ==> d[l.start + 1 + j] == e[Head(l, d)[j]]
    requires forall b: nat :: l.Home(b) && b !in Head(l, d) ==> d[b] == e[b]
    ensures RecoversTo(l, d, e)
  {
    forall b: nat | l.Home(b)
      ensures Recover(l, d)[b] == e[b]
    {
      RecoverAt(l, d, b);
      if b in Head(l, d) {
        var j :| 0 <= j < |Head(l, d)| && Head(l, d)[j] == b;
      }
    }
  }

  /** A crash in the middle of install_trans: recovery finishes the job. */
  lemma InstallPrefixRecovers(l: Layout, disk: seq<Block>, k: nat)
    requires GoodDisk(l, disk) && k <= |Head(l, disk)|
    ensures RecoversTo(l, After(disk, InstallWrites(l, Head(l, disk), disk), k), Recover(l, disk))
  {
    var blocks, e := Head(l, disk), Recover(l, disk);
    InstallPrefixAt(l, disk, k, l.start);
    var d := After(disk, InstallWrites(l, blocks, disk), k);
    assert l.start !in blocks;
    forall j | 0 <= j < |blocks|
      ensures d[l.start + 1 + j] == e[blocks[j]]
    {
      InstallPrefixAt(l, disk, k, l.start + 1 + j);
      assert l.start + 1 + j !in blocks;
      RecoverAt(l, disk, blocks[j]);
    }
    forall b: nat | l.Home(b) && b !in blocks
      ensures d[b] == e[b]
    {
      InstallPrefixAt(l, disk, k, b);
      RecoverAt(l, disk, b);
    }
    FullHeadRecovers(l, d, e);
  }

  /** A crash anywhere in recover_from_log: the next recovery brings back the same files. */
  lemma RecoverPrefixRecovers(l: Layout, disk: seq<Block>, k: nat)
    requires GoodDisk(l, disk) && k <= |RecoverWrites(l, disk)|
    ensures RecoversTo(l, After(disk, RecoverWrites(l, disk), k), Recover(l, disk))
  {
    var iw := InstallWrites(l, Head(l, disk), disk);
    if k <= |iw| {
      AfterConcat(disk, iw, [HeadWrite(l, [], disk)], k);
      InstallPrefixRecovers(l, disk, k);
    } else {
      RecoverErases(l, disk);
      EmptyHeadRecovers(l, Recover(l, disk), Recover(l, disk));
    }
  }

  // ---------- Commit ----------

  /** The blocks pinned in the cache are the logged ones, and the log on disk is empty. */
  ghost predicate CommitReady(l: Layout, disk: seq<Block>, blocks: seq<nat>, cache: map<nat, Block>) {
    && GoodDisk(l, disk) && Head(l, disk) == []
    && GoodList(l, blocks)
    && (forall b :: b in cache <==> b in blocks)
  }

  /** The disk with the cached blocks written home. */
  ghost function Overlay(disk: seq<Block>, cache: map<nat, Block>): (r: seq<Block>)
    ensures |r| == |disk|
    ensures forall b :: 0 <= b < |disk| ==> r[b] == if b in cache then cache[b] else disk[b]
  {
    seq(|disk|, b requires 0 <= b < |disk| => if b in cache then cache[b] else disk[b])
  }

  /** The log is filled and its header written: from here on the transaction is committed. */
  ghost function PrepareWrites(l: Layout, disk: seq<Block>, blocks: seq<nat>, cache: map<nat, Block>): (ws: seq<Wr>)
    requires CommitReady(l, disk, blocks, cache)
    ensures InRange(ws, |disk|)
  {
    LogWrites(l, blocks, cache) + [HeadWrite(l, blocks, disk)]
  }

  ghost function Prepared(l: Layout, disk: seq<Block>, blocks: seq<nat>, cache: map<nat, Block>): (r: seq<Block>)
    requires CommitReady(l, disk, blocks, cache)
    ensures |r| == |disk|
  {
    After(disk, PrepareWrites(l, disk, blocks, cache), |blocks| + 1)
  }

  lemma PreparedAt(l: Layout, disk: seq<Block>, blocks: seq<nat>, cache: map<nat, Block>, b: nat)
    requires CommitReady(l, disk, blocks, cache) && b < l.nblocks
    ensures var d := Prepared(l, disk, blocks, cache);
            && (b == l.start ==> d[b] == EncodeHead(disk[l.start], blocks))
            && (l.Home(b) ==> d[b] == disk[b])
            && (forall j :: 0 <= j < |blocks| && b == l.start + 1 + j ==> d[b] == cache[blocks[j]])
  {
    var ws := PrepareWrites(l, disk, blocks, cache);
    if b == l.start {
      AfterHit(disk, ws, |ws|, |blocks|);
    } else if l.start < b <= l.start + |blocks| {
      AfterHit(disk, ws, |ws|, b - l.start - 1);
    } else {
      AfterMiss(disk, ws, |ws|, b);
    }
  }

  lemma PreparedHead(l: Layout, disk: seq<Block>, blocks: seq<nat>, cache: map<nat, Block>)
    requires CommitReady(l, disk, blocks, cache)
    ensures var d := Prepared(l, disk, blocks, cache);
            GoodDisk(l, d) && Head(l, d) == blocks
  {
    HeadRoundTrip(disk[l.start], blocks);
    PreparedAt(l, disk, blocks, cache, l.start);
  }

  lemma PreparedContents(l: Layout, disk: seq<Block>, blocks: seq<nat>, cache: map<nat, Block>)
    requires CommitReady(l, disk, blocks, cache)
    ensures var d, e := Prepared(l, disk, blocks, cache), Overlay(disk, cache);
            && (forall j :: 0 <= j < |blocks| ==> d[l.start + 1 + j] == e[blocks[j]])
            && (forall b: nat :: l.Home(b) && b !in blocks ==> d[b] == e[b])
  {
    var d, e := Prepared(l, disk, blocks, cache), Overlay(disk, cache);
    forall j | 0 <= j < |blocks|
      ensures d[l.start + 1 + j] == e[blocks[j]]
    {
      PreparedAt(l, disk, blocks, cache, l.start + 1 + j);
    }
    forall b: nat | l.Home(b) && b !in blocks
      ensures d[b] == e[b]
    {
      PreparedAt(l, disk, blocks, cache, b);
    }
  }

  /** Once the header is written, recovery installs the whole transaction. */
  lemma PreparedRecovers(l: Layout, disk: seq<Block>, blocks: seq<nat>, cache: map<nat, Block>)
    requires CommitReady(l, disk, blocks, cache)
    ensures var d := Prepared(l, disk, blocks, cache);
            && GoodDisk(l, d) && Head(l, d) == blocks
            && RecoversTo(l, d, Overlay(disk, cache))
  {
    PreparedHead(l, disk, blocks, cache);
    PreparedContents(l, disk, blocks, cache);
    FullHeadRecovers(l, Prepared(l, disk, blocks, cache), Overlay(disk, cache));
  }

  /** While the log is being filled, nothing has happened yet. */
  lemma LogPrefixRecovers(l: Layout, disk: seq<Block>, blocks: seq<nat>, cache: map<nat, Block>, k: nat)
    requires CommitReady(l, disk, blocks, cache) && k <= |blocks|
    ensures RecoversTo(l, After(disk, PrepareWrites(l, disk, blocks, cache), k), disk)
  {
    var ws := PrepareWrites(l, disk, blocks, cache);
    var d := After(disk, ws, k);
    AfterMiss(disk, ws, k, l.start);
    forall b: nat | l.Home(b)
      ensures d[b] == disk[b]
    {
      AfterMiss(disk, ws, k, b);
    }
    EmptyHeadRecovers(l, d, disk);
  }

  /** All writes of commit(), in order. */
  ghost function CommitWrites(l: Layout, disk: seq<Block>, blocks: seq<nat>, cache: map<nat, Block>): (ws: seq<Wr>)
    requires CommitReady(l, disk, blocks, cache)
    ensures InRange(ws, |disk|)
  {
    PreparedHead(l, disk, blocks, cache);
    PrepareWrites(l, disk, blocks, cache) + RecoverWrites(l, Prepared(l, disk, blocks, cache))
  }

  /**
   Crash atomicity of commit: cut its writes short anywhere, and recovery gives
   the files without the transaction, up to the header write, or with all of it.
   */
  lemma CommitAtomic(l: Layout, disk: seq<Block>, blocks: seq<nat>, cache: map<nat, Block>, k: nat)
    requires CommitReady(l, disk, blocks, cache) && k <= |CommitWrites(l, disk, blocks, cache)|
    ensures RecoversTo(l, After(disk, CommitWrites(l, disk, blocks, cache), k),
                       if k <= |blocks| then disk else Overlay(disk, cache))
  {
    var ps, d := PrepareWrites(l, disk, blocks, cache), Prepared(l, disk, blocks, cache);
    PreparedRecovers(l, disk, blocks, cache);
    var rs := RecoverWrites(l, d);
    AfterConcat(disk, ps, rs, k);
    if k <= |blocks| {
      LogPrefixRecovers(l, disk, blocks, cache, k);
    } else {
      RecoverPrefixRecovers(l, d, k - |ps|);
    }
  }

  /** commit() as a whole: the files are updated and the log is empty. */
  lemma CommitHalves(l: Layout, disk: seq<Block>, blocks: seq<nat>, cache: map<nat, Block>, before: seq<Wr>)
    requires CommitReady(l, disk, blocks, cache)
    ensures var d := Prepared(l, disk, blocks, cache);
            && GoodDisk(l, d) && Head(l, d) == blocks
            && SameHome(l, Recover(l, d), Overlay(disk, cache))
            && before + PrepareWrites(l, disk, blocks, cache) + RecoverWrites(l, d)
               == before + CommitWrites(l, disk, blocks, cache)
  {
    PreparedRecovers(l, disk, blocks, cache);
  }

  /** Writing the header after write_log completes the preparation. */
  lemma PreparedSteps(l: Layout, disk: seq<Block>, blocks: seq<nat>, cache: map<nat, Block>)
    requires CommitReady(l, disk, blocks, cache)
    ensures InRange(LogWrites(l, blocks, cache), |disk|)
    ensures var d := After(disk, LogWrites(l, blocks, cache), |blocks|);
            && d[l.start] == disk[l.start]
            && Prepared(l, disk, blocks, cache) == d[l.start := EncodeHead(disk[l.start], blocks)]
  {
    var lw := LogWrites(l, blocks, cache);
    AfterMiss(disk, lw, |blocks|, l.start);
    AfterConcat(disk, lw, [HeadWrite(l, blocks, disk)], |blocks|);
  }

  lemma NothingToCommit(l: Layout, disk: seq<Block>, cache: map<nat, Block>)
    requires CommitReady(l, disk, [], cache)
    ensures SameHome(l, disk, Overlay(disk, cache))
  {
  }
}

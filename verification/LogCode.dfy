/**
 kernel/log.c itself: struct log and its functions, run by one thread.

 bread and bwrite are the coherent view of the disk that LogMachine establishes:
 a block pinned by log_write is read from the cache, any other from the disk.
 `writes` records every block written, in order: a crash leaves the effect of
 some prefix of it on the disk.
 */
module LogCode {
  import opened Blocks
  import opened LogFormat
  import opened LogReplay

  datatype Outcome = Done | Sleeps | Panics(why: string)

  class Log {
    const l: Layout
    var disk: seq<Block>
    var cache: map<nat, Block>  // blocks pinned by log_write, with their newest contents
    var n: nat                  // lh.n
    var block: seq<nat>         // lh.block, LOGSIZE entries
    var outstanding: int
    var committing: bool
    ghost var writes: seq<Wr>

    ghost predicate Valid()
      reads this
    {
      && l.Valid() && |disk| == l.nblocks
      && |block| == LOGSIZE && n <= LOGSIZE
      && GoodList(l, block[..n])
    }

    /** Between transactions and while operations run: the pinned blocks are the logged ones. */
    ghost predicate Running()
      reads this
    {
      Valid() && CommitReady(l, disk, block[..n], cache)
    }

    ghost function Blocks(): (r: seq<nat>)
      requires |block| == LOGSIZE && n <= LOGSIZE
      reads this
    {
      block[..n]
    }

    method Bread(b: nat) returns (data: Block)
      requires |disk| == l.nblocks && b < l.nblocks
      ensures data == if b in cache then cache[b] else disk[b]
    {
      data := if b in cache then cache[b] else disk[b];
    }

    method Bwrite(b: nat, data: Block)
      requires |disk| == l.nblocks && b < l.nblocks
      modifies this`disk, this`writes
      ensures disk == old(disk)[b := data] && writes == old(writes) + [Wr(b, data)]
    {
      disk := disk[b := data];
      writes := writes + [Wr(b, data)];
    }

    method Bunpin(b: nat)
      modifies this`cache
      ensures forall x :: x in cache <==> x in old(cache) && x != b
    {
      cache := cache - {b};
    }

    /** One pass of begin_op's loop. */
    method BeginOp() returns (r: Outcome)
      requires Valid()
      modifies this`outstanding
      ensures r == Done <==> !committing && |Blocks()| + (old(outstanding) + 1) * MAXOPBLOCKS <= LOGSIZE
      ensures r == Done || r == Sleeps
      ensures outstanding == if r == Done then old(outstanding) + 1 else old(outstanding)
    {
      if committing {
        r := Sleeps;
      } else if n + (outstanding + 1) * MAXOPBLOCKS > LOGSIZE {
        r := Sleeps;
      } else {
        outstanding := outstanding + 1;
        r := Done;
      }
    }

    /** log_write of block b, whose locked buffer now holds `data`. */
    method LogWrite(b: nat, data: Block) returns (r: Outcome)
      requires Running() && l.Home(b)
      modifies this`n, this`cache, this`block
      ensures r != Sleeps
      ensures r == Done <==> old(n) < LOGSIZE && old(n) < l.size - 1 && outstanding >= 1
      ensures r == Done ==> Running() && Blocks() == Absorb(old(Blocks()), b) && cache == old(cache)[b := data]
      ensures r != Done ==> n == old(n) && block == old(block) && cache == old(cache)
    {
      if n >= LOGSIZE || n >= l.size - 1 {
        return Panics("too big a transaction");
      }
      if outstanding < 1 {
        return Panics("log_write outside of trans");
      }
      var i := 0;
      while i < n && block[i] != b
        invariant i <= n
        invariant b !in block[..i]
      {
        i := i + 1;
      }
      block := block[i := b];
      if i == n {
        n := n + 1;
        assert block[..n] == old(block[..n]) + [b];
      } else {
        assert block[..n] == old(block[..n]);
      }
      cache := cache[b := data];
      AbsorbGood(l, old(block[..n]), b);
      r := Done;
    }

    /** Copy modified blocks from cache to log. */
    method WriteLog()
      requires |block| == LOGSIZE && n <= LOGSIZE && HomeList(l, Blocks()) && |disk| == l.nblocks
      requires forall j :: 0 <= j < n ==> Blocks()[j] in cache
      modifies this`disk, this`writes
      ensures var ws := LogWrites(l, Blocks(), cache);
              && InRange(ws, |old(disk)|)
              && disk == After(old(disk), ws, n) && writes == old(writes) + ws
    {
      ghost var bs, ws := Blocks(), LogWrites(l, Blocks(), cache);
      var tail := 0;
      while tail < n
        invariant tail <= n && |disk| == l.nblocks
        invariant disk == After(old(disk), ws, tail) && writes == old(writes) + ws[..tail]
      {
        assert block[tail] == bs[tail] && l.Home(bs[tail]);
        var from := Bread(block[tail]);
        Bwrite(l.start + tail + 1, from);
        tail := tail + 1;
      }
    }

    /** Write the in-memory header to disk. */
    method WriteHead()
      requires Valid() && l.start !in cache
      modifies this`disk, this`writes
      ensures var w := HeadWrite(l, Blocks(), old(disk));
              disk == old(disk)[l.start := w.data] && writes == old(writes) + [w]
    {
      var hb := Bread(l.start);
      hb := PutWord(hb, 0, n);
      ghost var first := hb;
      var i := 0;
      while i < n
        invariant i <= n && hb == PutEntries(first, block[..n], i)
      {
        hb := PutWord(hb, i + 1, block[i]);
        i := i + 1;
      }
      Bwrite(l.start, hb);
    }

    /** Read the header from disk into memory. */
    method ReadHead()
      requires GoodDisk(l, disk) && |block| == LOGSIZE && cache == map[]
      modifies this`n, this`block
      ensures Valid() && Blocks() == Head(l, disk)
    {
      var lh := Bread(l.start);
      n := GetWord(lh, 0);
      var i := 0;
      while i < n
        invariant i <= n && n == GetWord(lh, 0) && |block| == LOGSIZE
        invariant forall j :: 0 <= j < i ==> block[j] == GetWord(lh, j + 1)
      {
        block := block[i := GetWord(lh, i + 1)];
        i := i + 1;
      }
      assert block[..n] == DecodeHead(lh);
    }

    /** Copy committed blocks from log to their home location, and unpin them unless recovering. */
    method InstallTrans(recovering: bool)
      requires |block| == LOGSIZE && n <= LOGSIZE && HomeList(l, Blocks()) && |disk| == l.nblocks
      requires forall b: nat :: b in cache ==> l.Home(b)
      modifies this`disk, this`writes, this`cache
      ensures var ws := InstallWrites(l, Blocks(), old(disk));
              disk == After(old(disk), ws, n) && writes == old(writes) + ws
      ensures forall b :: b in cache ==> b in old(cache)
      ensures !recovering ==> forall j :: 0 <= j < n ==> block[j] !in cache
    {
      ghost var was, bs, ws := disk, Blocks(), InstallWrites(l, Blocks(), disk);
      var tail := 0;
      while tail < n
        invariant tail <= n && |disk| == l.nblocks
        invariant disk == After(was, ws, tail) && writes == old(writes) + ws[..tail]
        invariant forall b :: b in cache ==> b in old(cache)
        invariant !recovering ==> forall j :: 0 <= j < tail ==> block[j] !in cache
      {
        InstallOne(tail, recovering, was);
        tail := tail + 1;
      }
    }

    /** One round of install_trans; `was` is the disk before the first. */
    method InstallOne(tail: nat, recovering: bool, ghost was: seq<Block>)
      requires |block| == LOGSIZE && tail < n <= LOGSIZE && HomeList(l, Blocks()) && |disk| == |was| == l.nblocks
      requires forall b: nat :: b in cache ==> l.Home(b)
      requires disk == After(was, InstallWrites(l, Blocks(), was), tail)
      modifies this`disk, this`writes, this`cache
      ensures |disk| == l.nblocks && disk == After(was, InstallWrites(l, Blocks(), was), tail + 1)
      ensures writes == old(writes) + [InstallWrites(l, Blocks(), was)[tail]]
      ensures forall b :: b in cache ==> b in old(cache)
      ensures !recovering ==> block[tail] !in cache
    {
      LogBlockStays(l, was, Blocks(), tail);
      assert l.start + tail + 1 !in cache;
      assert block[tail] == Blocks()[tail] && l.Home(Blocks()[tail]);
      var lbuf := Bread(l.start + tail + 1);
      Bwrite(block[tail], lbuf);
      if !recovering {
        Bunpin(block[tail]);
      }
    }

    /** The first half of commit: write_log, then the header. */
    method Prepare()
      requires Running()
      modifies this`disk, this`writes
      ensures disk == Prepared(l, old(disk), Blocks(), cache)
      ensures writes == old(writes) + PrepareWrites(l, old(disk), Blocks(), cache)
    {
      PreparedSteps(l, disk, Blocks(), cache);
      WriteLog();
      WriteHead();
    }

    /** The second half: install_trans, then erase the header. */
    method Complete()
      requires Valid() && GoodDisk(l, disk) && Head(l, disk) == Blocks()
      requires forall b :: b in cache ==> b in Blocks()
      modifies this`disk, this`writes, this`cache, this`n
      ensures Running() && n == 0
      ensures disk == Recover(l, old(disk))
      ensures writes == old(writes) + RecoverWrites(l, old(disk))
    {
      ghost var d1 := disk;
      InstallTrans(false);
      assert forall b :: b !in cache;
      n := 0;
      EraseAfterInstall(l, d1);
      WriteHead();
      RecoverErases(l, d1);
    }

    /** Commit the running transaction, by the writes that CommitAtomic is about. */
    method Commit()
      requires Running()
      modifies this`disk, this`writes, this`cache, this`n
      ensures Running() && n == 0
      ensures SameHome(l, disk, Overlay(old(disk), old(cache)))
      ensures writes == if old(n) == 0 then old(writes)
                        else old(writes) + CommitWrites(l, old(disk), old(Blocks()), old(cache))
    {
      if n > 0 {
        CommitHalves(l, disk, Blocks(), cache, writes);
        Prepare();
        Complete();
      } else {
        NothingToCommit(l, disk, cache);
      }
    }

    /** Bring the disk to the last committed state after a crash. */
    method RecoverFromLog()
      requires GoodDisk(l, disk) && |block| == LOGSIZE && cache == map[]
      modifies this`disk, this`writes, this`cache, this`n, this`block
      ensures Running() && n == 0
      ensures disk == Recover(l, old(disk))
      ensures writes == old(writes) + RecoverWrites(l, old(disk))
    {
      ghost var d1 := disk;
      ReadHead();
      InstallTrans(true);
      n := 0;
      EraseAfterInstall(l, d1);
      WriteHead();
      RecoverErases(l, d1);
    }

    /** end_op: the last operation commits. */
    method EndOp() returns (r: Outcome)
      requires Running()
      modifies this`outstanding, this`committing, this`disk, this`writes, this`cache, this`n
      ensures outstanding == old(outstanding) - 1
      ensures r != Sleeps && (r == Done <==> !old(committing))
      ensures r == Done ==> Running() && !committing
      ensures r == Done && outstanding != 0 ==>
                disk == old(disk) && writes == old(writes) && cache == old(cache) && n == old(n)
      ensures r == Done && outstanding == 0 ==> n == 0 && SameHome(l, disk, Overlay(old(disk), old(cache)))
    {
      outstanding := outstanding - 1;
      if committing {
        return Panics("log.committing");
      }
      if outstanding == 0 {
        committing := true;
        Commit();
        committing := false;
      }
      r := Done;
    }
  }
}

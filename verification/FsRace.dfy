/**
 bmap's doubly-indirect path while other processes work on other inodes.

 The path stores what balloc returns without looking at it.  Alone it does no harm: the
 table that could not be had is read from block 0, which is zero, and the next balloc
 fails too.  If a block is freed in between, the next balloc succeeds, and the block goes
 into block 0.
 */
module FsRace {
  import opened Blocks
  import opened FsModel
  import opened FsTrees
  import opened FsGrow
  import opened FsTrunc
  import opened FsCode

  // ---------- File systems with lost blocks ----------

  /** Consistent but for the boot block and for the lost blocks, which are marked and in no tree */
  ghost predicate Held(fs: Fs, owner: map<nat, Place>, lost: set<nat>) {
    && Shape(fs) && Trees(fs, owner) && Marks(fs, owner.Keys + lost)
    && (forall b :: b in lost ==> fs.sb.nmeta <= b < fs.sb.size && b !in owner)
  }

  ghost predicate Mended(fs: Fs) {
    exists owner :: Consistent(fs, owner)
  }

  /** Block b is marked and in no tree: nothing will ever free it. */
  ghost predicate Leaked(fs: Fs, b: nat) {
    && Shape(fs) && fs.sb.nmeta <= b < fs.sb.size && BitOk(fs, b) && Used(fs, b)
    && (forall k: nat :: k < |fs.inodes| ==> !InTree(fs, k, b))
  }

  lemma HeldIs(fs: Fs, owner: map<nat, Place>)
    requires Consistent(fs, owner)
    ensures Held(fs, owner, {})
  {
    assert owner.Keys + {} == owner.Keys;
  }

  lemma HeldMended(fs: Fs, owner: map<nat, Place>)
    requires Held(fs, owner, {}) && fs.blocks[0] == ZeroBlock()
    ensures Consistent(fs, owner)
  {
    assert owner.Keys + {} == owner.Keys;
  }

  lemma HeldLeaks(fs: Fs, owner: map<nat, Place>, lost: set<nat>, b: nat)
    requires Held(fs, owner, lost) && b in lost
    ensures Leaked(fs, b)
  {
  }

  lemma AllocateHeld(fs: Fs, owner: map<nat, Place>, lost: set<nat>, b: nat)
    requires Held(fs, owner, lost) && b < fs.sb.size && BitOk(fs, b) && !Used(fs, b)
    ensures Held(Allocate(fs, b), owner, lost + {b})
    ensures Allocate(fs, b).blocks[0] == fs.blocks[0] && Allocate(fs, b).blocks[b] == ZeroBlock()
  {
    MarkKeeps(fs, owner, owner.Keys + lost, b);
    var fs1 := MarkUsed(fs, b);
    WriteKeepsTrees(fs1, owner, b, ZeroBlock());
    WriteKeepsMarks(fs1, owner.Keys + lost + {b}, b, ZeroBlock());
    BitInMeta(fs, b);
    assert owner.Keys + lost + {b} == owner.Keys + (lost + {b});
  }

  /** Overwriting a lost block, or the boot block, changes no tree and no mark. */
  lemma WriteHeld(fs: Fs, owner: map<nat, Place>, lost: set<nat>, t: nat, data: Block)
    requires Held(fs, owner, lost) && (t in lost || t == 0)
    ensures t < |fs.blocks| && Held(WriteBlock(fs, t, data), owner, lost)
  {
    BitInMeta(fs, 0);
    WriteKeepsTrees(fs, owner, t, data);
    if t == 0 {
      var fs' := WriteBlock(fs, t, data);
      forall c: nat | c < fs.sb.size
        ensures BitOk(fs', c) && Used(fs', c) == Used(fs, c)
      {
      }
    } else {
      WriteKeepsMarks(fs, owner.Keys + lost, t, data);
    }
  }

  // ---------- The steps of bmap on block 0 and on a lost block ----------

  /** With no table the entry goes into block 0, and its block is lost. */
  lemma BootEntry(fs: Fs, owner: map<nat, Place>, i: nat, fs': Fs, addr: nat)
    requires Consistent(fs, owner) && EntryStep(fs, 0, i, fs', addr)
    ensures addr == 0 <==> FullDisk(fs)
    ensures addr == 0 ==> fs' == fs
    ensures addr != 0 ==> Held(fs', owner, {addr}) && fs'.blocks[0] != ZeroBlock()
  {
    ZeroWord(i);
    if addr != 0 {
      HeldIs(fs, owner);
      AllocateHeld(fs, owner, {}, addr);
      assert {} + {addr} == {addr};
      WriteHeld(Allocate(fs, addr), owner, {addr}, 0, PutWord(fs.blocks[0], i, addr));
      GetPutWord(fs.blocks[0], i, addr, i);
    }
  }

  /** A table that is itself lost: its entry's block is lost too. */
  lemma LostEntry(fs: Fs, owner: map<nat, Place>, b: nat, j: nat, fs': Fs, addr: nat)
    requires Held(fs, owner, {b}) && EntryStep(fs, b, j, fs', addr)
    ensures fs'.blocks[0] == fs.blocks[0] && exists lost :: b in lost && Held(fs', owner, lost)
  {
    if fs' == fs {
      assert b in {b} && Held(fs', owner, {b});
    } else {
      AllocateHeld(fs, owner, {b}, addr);
      WriteHeld(Allocate(fs, addr), owner, {b} + {addr}, b, PutWord(fs.blocks[b], j, addr));
      assert b in {b} + {addr} && Held(fs', owner, {b} + {addr});
    }
  }

  // ---------- Other processes ----------

  ghost predicate SameTree(fs: Fs, fs': Fs, k: nat)
    requires Shape(fs) && Shape(fs')
  {
    |fs'.inodes| == |fs.inodes| && forall s :: ValidPlace(fs, k, s) ==> AtPlace(fs', k, s) == AtPlace(fs, k, s)
  }

  /** What others may do while a process holds inode k: they keep its tree, block 0, and order among the rest. */
  ghost predicate Meanwhile(fs: Fs, fs': Fs, k: nat) {
    && Shape(fs) && Shape(fs') && fs'.sb == fs.sb && fs'.blocks[0] == fs.blocks[0]
    && (forall owner, lost :: Held(fs, owner, lost) ==> OthersKeep(fs, fs', k, lost))
  }

  ghost predicate OthersKeep(fs: Fs, fs': Fs, k: nat, lost: set<nat>)
    requires Shape(fs) && Shape(fs')
  {
    SameTree(fs, fs', k) && exists owner :: Held(fs', owner, lost)
  }

  lemma MeanwhileConsistent(fs: Fs, owner: map<nat, Place>, fs': Fs, k: nat) returns (owner': map<nat, Place>)
    requires Consistent(fs, owner) && Meanwhile(fs, fs', k)
    ensures SameTree(fs, fs', k) && Consistent(fs', owner')
  {
    HeldIs(fs, owner);
    assert OthersKeep(fs, fs', k, {});
    owner' :| Held(fs', owner', {});
    HeldMended(fs', owner');
  }

  // ---------- The path with others in between ----------

  /**
   The three steps of the path for entry (i, j) of inode k, from the state it finds to the
   state it leaves: others work between the first and the second and between the second
   and the third.
   */
  datatype Path = Path(start: Fs, dbl: Fs, second: Fs, tab: Fs, third: Fs, end: Fs, d: nat, t: nat, addr: nat)

  ghost predicate Takes(p: Path, k: nat, i: nat, j: nat) {
    && FieldStep(p.start, k, NDIRECT + 1, p.dbl, p.d)
    && EntryStep(p.second, p.d, i, p.tab, p.t)
    && EntryStep(p.third, p.t, j, p.end, p.addr)
  }

  ghost predicate AmongOthers(p: Path, k: nat) {
    Meanwhile(p.dbl, p.second, k) && Meanwhile(p.tab, p.third, k)
  }

  /** A table is missing, balloc finds no block for it, and a later balloc of the same call finds one. */
  ghost predicate TooLate(p: Path, k: nat, i: nat)
    requires Shape(p.start) && k < |p.start.inodes| && i < NINDIRECT
  {
    if AtPlace(p.start, k, Dbl) == 0 && FullDisk(p.start) then !FullDisk(p.second) || !FullDisk(p.third)
    else AtPlace(p.start, k, DblTab(i)) == 0 && FullDisk(p.second) && !FullDisk(p.third)
  }

  /** bmap returns the block that the file then has. */
  ghost predicate Returned(p: Path, k: nat, i: nat, j: nat) {
    Shape(p.end) && ValidPlace(p.end, k, DblEntry(i, j)) && p.addr == AtPlace(p.end, k, DblEntry(i, j))
  }

  /** The first step: the doubly-indirect block is there, without new entries, or there is no block left. */
  lemma FieldFirst(fs: Fs, owner: map<nat, Place>, k: nat, fs': Fs, d: nat, i: nat)
    requires Consistent(fs, owner) && FieldStep(fs, k, NDIRECT + 1, fs', d) && i < NINDIRECT
    ensures Consistent(fs', OwnerAfter(fs, owner, k, Dbl, d)) && |fs'.inodes| == |fs.inodes|
    ensures AtPlace(fs', k, Dbl) == d && AtPlace(fs', k, DblTab(i)) == AtPlace(fs, k, DblTab(i))
    ensures d == 0 <==> AtPlace(fs, k, Dbl) == 0 && FullDisk(fs)
  {
    FieldKeeps(fs, owner, k, NDIRECT + 1, Dbl, fs', d);
    if AtPlace(fs, k, Dbl) == 0 && d != 0 {
      ZeroTable(fs, owner, k, fs', d, i);
    }
  }

  lemma FirstStep(p: Path, owner: map<nat, Place>, k: nat, i: nat, j: nat) returns (owner': map<nat, Place>)
    requires Consistent(p.start, owner) && Takes(p, k, i, j) && Meanwhile(p.dbl, p.second, k)
    ensures Consistent(p.second, owner') && k < |p.second.inodes| && AtPlace(p.second, k, Dbl) == p.d
    ensures p.d == 0 <==> AtPlace(p.start, k, Dbl) == 0 && FullDisk(p.start)
    ensures AtPlace(p.second, k, DblTab(i)) == AtPlace(p.start, k, DblTab(i))
  {
    FieldFirst(p.start, owner, k, p.dbl, p.d, i);
    owner' := MeanwhileConsistent(p.dbl, OwnerAfter(p.start, owner, k, Dbl, p.d), p.second, k);
  }

  /** A new doubly-indirect block has no entries. */
  lemma ZeroTable(fs: Fs, owner: map<nat, Place>, k: nat, fs': Fs, d: nat, i: nat)
    requires Consistent(fs, owner) && FieldStep(fs, k, NDIRECT + 1, fs', d) && AtPlace(fs, k, Dbl) == 0 != d
    requires Shape(fs') && i < NINDIRECT
    ensures AtPlace(fs', k, DblTab(i)) == 0
  {
    AllocateKeeps(fs, owner, d);
    ZeroEntry(fs'.blocks, d, i);
  }

  /** No block for the doubly-indirect block */
  lemma WithoutDbl(p: Path, owner: map<nat, Place>, k: nat, i: nat, j: nat)
    requires Consistent(p.second, owner) && Takes(p, k, i, j) && Meanwhile(p.tab, p.third, k) && p.d == 0
    requires k < |p.second.inodes| && AtPlace(p.second, k, Dbl) == 0
    ensures Mended(p.end) <==> FullDisk(p.second) && FullDisk(p.third)
    ensures if Mended(p.end) then Returned(p, k, i, j) else exists b :: Leaked(p.end, b)
  {
    BootEntry(p.second, owner, i, p.tab, p.t);
    if p.t == 0 {
      WithoutTab(p, owner, k, i, j);
    } else {
      assert OthersKeep(p.tab, p.third, k, {p.t});
      var o :| Held(p.third, o, {p.t});
      LostEntry(p.third, o, p.t, j, p.end, p.addr);
      var lost :| p.t in lost && Held(p.end, o, lost);
      HeldLeaks(p.end, o, lost, p.t);
    }
  }

  /** No block for the table */
  lemma WithoutTab(p: Path, owner: map<nat, Place>, k: nat, i: nat, j: nat)
    requires Consistent(p.tab, owner) && Takes(p, k, i, j) && Meanwhile(p.tab, p.third, k) && p.t == 0
    requires k < |p.tab.inodes| && AtPlace(p.tab, k, DblTab(i)) == 0
    ensures Mended(p.end) <==> FullDisk(p.third)
    ensures if Mended(p.end) then Returned(p, k, i, j) else exists b :: Leaked(p.end, b)
  {
    var o := MeanwhileConsistent(p.tab, owner, p.third, k);
    BootEntry(p.third, o, j, p.end, p.addr);
    if p.addr != 0 {
      HeldLeaks(p.end, o, {p.addr}, p.addr);
    }
  }

  /** The doubly-indirect block is there. */
  lemma WithDbl(p: Path, owner: map<nat, Place>, k: nat, i: nat, j: nat)
    requires Consistent(p.second, owner) && Takes(p, k, i, j) && Meanwhile(p.tab, p.third, k) && j < NINDIRECT
    requires k < |p.second.inodes| && AtPlace(p.second, k, Dbl) == p.d != 0
    ensures Mended(p.end) <==> !(AtPlace(p.second, k, DblTab(i)) == 0 && FullDisk(p.second) && !FullDisk(p.third))
    ensures if Mended(p.end) then Returned(p, k, i, j) else exists b :: Leaked(p.end, b)
  {
    EntryKeeps(p.second, owner, k, DblTab(i), p.d, p.tab, p.t);
    var o := OwnerAfter(p.second, owner, k, DblTab(i), p.t);
    if p.t == 0 {
      WithoutTab(p, o, k, i, j);
    } else {
      WithTab(p, o, k, i, j);
    }
  }

  lemma WithTab(p: Path, owner: map<nat, Place>, k: nat, i: nat, j: nat)
    requires Consistent(p.tab, owner) && Takes(p, k, i, j) && Meanwhile(p.tab, p.third, k) && j < NINDIRECT
    requires k < |p.tab.inodes| && i < NINDIRECT && AtPlace(p.tab, k, DblTab(i)) == p.t != 0
    ensures Mended(p.end) && Returned(p, k, i, j)
  {
    var o := MeanwhileConsistent(p.tab, owner, p.third, k);
    EntryKeeps(p.third, o, k, DblEntry(i, j), p.t, p.end, p.addr);
  }

  /**
   bmap's doubly-indirect path among others leaves a file system that some assignment of
   owners fits, and returns the file's block, unless a block came too late for a table;
   then it leaves a block that is marked and in no file.
   */
  lemma MapAmongOthers(p: Path, owner: map<nat, Place>, k: nat, i: nat, j: nat)
    requires Consistent(p.start, owner) && Takes(p, k, i, j) && AmongOthers(p, k)
    ensures k < |p.start.inodes| && i < NINDIRECT
    ensures Mended(p.end) <==> !TooLate(p, k, i)
    ensures if TooLate(p, k, i) then exists b :: Leaked(p.end, b) else Returned(p, k, i, j)
  {
    var o := FirstStep(p, owner, k, i, j);
    if p.d == 0 {
      WithoutDbl(p, o, k, i, j);
    } else {
      WithDbl(p, o, k, i, j);
    }
  }

  // ---------- Others that truncate files ----------

  /** Other processes truncate inodes ks, one after the other. */
  ghost predicate Truncations(fs: Fs, ks: seq<nat>, fs': Fs)
    decreases |ks|
  {
    if ks == [] then fs' == fs else exists mid :: Truncated(fs, ks[0], mid) && Truncations(mid, ks[1..], fs')
  }

  ghost predicate HasBlocks(fs: Fs, k: nat)
    requires Shape(fs)
  {
    exists s :: ValidPlace(fs, k, s) && AtPlace(fs, k, s) != 0
  }

  /** One of the files has something to free. */
  ghost predicate Frees(fs: Fs, ks: seq<nat>)
    requires Shape(fs)
  {
    exists k :: k in ks && HasBlocks(fs, k)
  }

  lemma TruncatedHeld(fs: Fs, owner: map<nat, Place>, lost: set<nat>, x: nat, fs': Fs)
    requires Held(fs, owner, lost) && Truncated(fs, x, fs')
    ensures Held(fs', Others(owner, x), lost)
  {
    TruncatedTrees(fs, owner, x, fs');
    forall b: nat | b < fs.sb.size
      ensures BitOk(fs', b) && (Used(fs', b) <==> b < fs.sb.nmeta || b in Others(owner, x).Keys + lost)
    {
      TruncatedUsed(fs, owner, lost, x, fs', b);
    }
  }

  lemma TruncatedTrees(fs: Fs, owner: map<nat, Place>, x: nat, fs': Fs)
    requires Shape(fs) && Trees(fs, owner) && Truncated(fs, x, fs')
    ensures Trees(fs', Others(owner, x))
  {
    forall k: nat, s | ValidPlace(fs, k, s)
      ensures AtPlace(fs', k, s) == if k == x then 0 else AtPlace(fs, k, s)
    {
      TruncatedAt(fs, owner, x, fs', k, s);
    }
  }

  lemma TruncatedSame(fs: Fs, owner: map<nat, Place>, x: nat, fs': Fs, k: nat)
    requires Shape(fs) && Trees(fs, owner) && Truncated(fs, x, fs') && k != x
    ensures SameTree(fs, fs', k)
  {
    forall s | ValidPlace(fs, k, s)
      ensures AtPlace(fs', k, s) == AtPlace(fs, k, s)
    {
      TruncatedAt(fs, owner, x, fs', k, s);
    }
  }

  lemma SameTreeTrans(f0: Fs, f1: Fs, f2: Fs, k: nat)
    requires Shape(f0) && Shape(f1) && Shape(f2) && SameTree(f0, f1, k) && SameTree(f1, f2, k)
    ensures SameTree(f0, f2, k)
  {
    forall s | ValidPlace(f0, k, s)
      ensures AtPlace(f2, k, s) == AtPlace(f0, k, s)
    {
      assert ValidPlace(f1, k, s);
    }
  }

  lemma TruncatedAt(fs: Fs, owner: map<nat, Place>, x: nat, fs': Fs, k: nat, s: Slot)
    requires Shape(fs) && Trees(fs, owner) && Truncated(fs, x, fs') && ValidPlace(fs, k, s)
    ensures AtPlace(fs', k, s) == if k == x then 0 else AtPlace(fs, k, s)
  {
    DataSameAt(fs, owner, fs'.blocks, k, s);
    ClearedAt(Fs(fs.sb, fs'.blocks, fs.inodes), x, k, s);
  }

  lemma TruncatedUsed(fs: Fs, owner: map<nat, Place>, lost: set<nat>, x: nat, fs': Fs, b: nat)
    requires Held(fs, owner, lost) && Truncated(fs, x, fs') && b < fs.sb.size
    ensures BitOk(fs', b) && (Used(fs', b) <==> b < fs.sb.nmeta || b in Others(owner, x).Keys + lost)
  {
    assert UsedAfter(fs, x, b, Used(fs', b));
    if b in owner && owner[b].k == x {
      assert ValidPlace(fs, x, owner[b].s) && AtPlace(fs, x, owner[b].s) == b;
    }
  }

  /** Truncations keep what they have to keep. */
  lemma {:induction false} TruncationsHeld(fs: Fs, owner: map<nat, Place>, lost: set<nat>, ks: seq<nat>, fs': Fs,
                                           k: nat)
    requires Held(fs, owner, lost) && Truncations(fs, ks, fs') && k !in ks
    ensures Shape(fs') && OthersKeep(fs, fs', k, lost)
    decreases |ks|
  {
    if ks != [] {
      var mid :| Truncated(fs, ks[0], mid) && Truncations(mid, ks[1..], fs');
      TruncatedHeld(fs, owner, lost, ks[0], mid);
      TruncatedSame(fs, owner, ks[0], mid, k);
      TruncationsHeld(mid, Others(owner, ks[0]), lost, ks[1..], fs', k);
      SameTreeTrans(fs, mid, fs', k);
    }
  }

  lemma {:induction false} TruncationsShape(fs: Fs, ks: seq<nat>, fs': Fs)
    requires Shape(fs) && Truncations(fs, ks, fs')
    ensures Shape(fs') && fs'.sb == fs.sb && fs'.blocks[0] == fs.blocks[0]
    decreases |ks|
  {
    if ks != [] {
      var mid :| Truncated(fs, ks[0], mid) && Truncations(mid, ks[1..], fs');
      TruncationsShape(mid, ks[1..], fs');
    }
  }

  lemma TruncationsMeanwhile(fs: Fs, ks: seq<nat>, fs': Fs, k: nat)
    requires Shape(fs) && Truncations(fs, ks, fs') && k !in ks
    ensures Meanwhile(fs, fs', k)
  {
    TruncationsShape(fs, ks, fs');
    forall owner, lost | Held(fs, owner, lost)
      ensures OthersKeep(fs, fs', k, lost)
    {
      TruncationsHeld(fs, owner, lost, ks, fs', k);
    }
  }

  /** A full disk is no longer full exactly when the truncated file had blocks. */
  lemma TruncatedFull(fs: Fs, owner: map<nat, Place>, lost: set<nat>, x: nat, fs': Fs)
    requires Held(fs, owner, lost) && Truncated(fs, x, fs')
    ensures FullDisk(fs') <==> FullDisk(fs) && !HasBlocks(fs, x)
  {
    if HasBlocks(fs, x) {
      var s :| ValidPlace(fs, x, s) && AtPlace(fs, x, s) != 0;
      var b := AtPlace(fs, x, s);
      assert InTree(fs, x, b) && UsedAfter(fs, x, b, Used(fs', b));
    } else {
      forall b: nat | b < fs.sb.size
        ensures BitOk(fs, b) && BitOk(fs', b) && Used(fs', b) == Used(fs, b)
      {
        assert UsedAfter(fs, x, b, Used(fs', b));
      }
    }
  }

  lemma {:induction false} TruncationsFull(fs: Fs, owner: map<nat, Place>, lost: set<nat>, ks: seq<nat>, fs': Fs)
    requires Held(fs, owner, lost) && Truncations(fs, ks, fs')
    ensures FullDisk(fs') <==> FullDisk(fs) && !Frees(fs, ks)
    decreases |ks|
  {
    if ks != [] {
      var mid :| Truncated(fs, ks[0], mid) && Truncations(mid, ks[1..], fs');
      TruncatedHeld(fs, owner, lost, ks[0], mid);
      TruncatedFull(fs, owner, lost, ks[0], mid);
      TruncationsFull(mid, Others(owner, ks[0]), lost, ks[1..], fs');
      if !HasBlocks(fs, ks[0]) {
        SameFrees(fs, owner, ks, mid);
      }
    }
  }

  /** Truncating an empty file changes nothing about the others. */
  lemma SameFrees(fs: Fs, owner: map<nat, Place>, ks: seq<nat>, mid: Fs)
    requires Shape(fs) && Trees(fs, owner) && ks != [] && Truncated(fs, ks[0], mid) && !HasBlocks(fs, ks[0])
    ensures Frees(fs, ks) <==> Frees(mid, ks[1..])
  {
    forall k: nat
      ensures HasBlocks(fs, k) <==> HasBlocks(mid, k)
    {
      EmptyGone(fs, owner, ks[0], mid, k);
    }
    assert forall k :: k in ks <==> k == ks[0] || k in ks[1..];
  }

  lemma EmptyGone(fs: Fs, owner: map<nat, Place>, x: nat, fs': Fs, k: nat)
    requires Shape(fs) && Trees(fs, owner) && Truncated(fs, x, fs') && !HasBlocks(fs, x)
    ensures HasBlocks(fs, k) <==> HasBlocks(fs', k)
  {
    forall s | ValidPlace(fs, k, s)
      ensures AtPlace(fs', k, s) == AtPlace(fs, k, s)
    {
      TruncatedAt(fs, owner, x, fs', k, s);
    }
  }

  lemma {:induction false} TruncationsBlocks(fs: Fs, owner: map<nat, Place>, ks: seq<nat>, fs': Fs, k: nat)
    requires Held(fs, owner, {}) && Truncations(fs, ks, fs') && !Frees(fs, ks)
    ensures Shape(fs') && (HasBlocks(fs', k) <==> HasBlocks(fs, k))
    decreases |ks|
  {
    if ks != [] {
      var mid :| Truncated(fs, ks[0], mid) && Truncations(mid, ks[1..], fs');
      assert ks[0] in ks;
      TruncatedHeld(fs, owner, {}, ks[0], mid);
      SameFrees(fs, owner, ks, mid);
      EmptyGone(fs, owner, ks[0], mid, k);
      TruncationsBlocks(mid, Others(owner, ks[0]), ks[1..], fs', k);
    }
  }

  lemma TruncationsFrees(fs: Fs, owner: map<nat, Place>, ks: seq<nat>, fs': Fs, ls: seq<nat>)
    requires Held(fs, owner, {}) && Truncations(fs, ks, fs') && !Frees(fs, ks)
    ensures Shape(fs') && (Frees(fs', ls) <==> Frees(fs, ls))
  {
    TruncationsShape(fs, ks, fs');
    forall k: nat
      ensures HasBlocks(fs', k) <==> HasBlocks(fs, k)
    {
      TruncationsBlocks(fs, owner, ks, fs', k);
    }
  }

  ghost predicate OnlyFree(fs: Fs, b: nat) {
    && b < fs.sb.size && BitOk(fs, b) && !Used(fs, b)
    && (forall c: nat :: c < fs.sb.size && c != b ==> BitOk(fs, c) && Used(fs, c))
  }

  /** There is one free block. */
  ghost predicate LastFree(fs: Fs) {
    exists b :: OnlyFree(fs, b)
  }

  lemma FieldFull(fs: Fs, owner: map<nat, Place>, k: nat, fs': Fs, d: nat)
    requires Consistent(fs, owner) && FieldStep(fs, k, NDIRECT + 1, fs', d)
    ensures FullDisk(fs') <==> if AtPlace(fs, k, Dbl) == 0 then FullDisk(fs) || LastFree(fs) else FullDisk(fs)
  {
    if AtPlace(fs, k, Dbl) == 0 && d != 0 {
      AllocateUsed(fs, owner, fs', d);
      assert FullDisk(fs') ==> OnlyFree(fs, d);
    }
  }

  lemma AllocateUsed(fs: Fs, owner: map<nat, Place>, fs': Fs, b: nat)
    requires Consistent(fs, owner) && b < fs.sb.size && BitOk(fs, b) && !Used(fs, b)
    requires fs'.sb == fs.sb && fs'.blocks == Allocate(fs, b).blocks
    ensures forall c: nat :: c < fs.sb.size ==>
              BitOk(fs, c) && BitOk(fs', c) && (Used(fs', c) <==> c == b || Used(fs, c))
  {
    AllocateKeeps(fs, owner, b);
    forall c: nat | c < fs.sb.size
      ensures BitOk(fs, c) && BitOk(fs', c) && (Used(fs', c) <==> c == b || Used(fs, c))
    {
      assert BitOk(Allocate(fs, b), c);
    }
  }

  lemma FieldFrees(fs: Fs, owner: map<nat, Place>, k: nat, fs': Fs, d: nat, ks: seq<nat>)
    requires Consistent(fs, owner) && FieldStep(fs, k, NDIRECT + 1, fs', d) && k !in ks && Shape(fs')
    ensures Frees(fs', ks) <==> Frees(fs, ks)
  {
    FieldKeeps(fs, owner, k, NDIRECT + 1, Dbl, fs', d);
    forall x: nat | x != k
      ensures HasBlocks(fs', x) <==> HasBlocks(fs, x)
    {
      GrowsOther(fs, owner, fs', OwnerAfter(fs, owner, k, Dbl, d), k, x);
    }
  }

  lemma GrowsOther(fs: Fs, owner: map<nat, Place>, fs': Fs, owner': map<nat, Place>, k: nat, x: nat)
    requires Grows(fs, owner, fs', owner', k) && x != k
    ensures HasBlocks(fs', x) <==> HasBlocks(fs, x)
  {
    forall s | ValidPlace(fs, x, s)
      ensures AtPlace(fs', x, s) == AtPlace(fs, x, s)
    {
    }
  }

  lemma EntryFull(fs: Fs, t: nat, i: nat, fs': Fs, addr: nat)
    requires Shape(fs) && EntryStep(fs, t, i, fs', addr)
    ensures Shape(fs') && (FullDisk(fs) ==> fs' == fs)
  {
  }

  /**
   Can truncations ks before the second step and ls before the third do harm?  A table is
   missing, there is no block for it, and the truncations free one before a later balloc.
   */
  ghost predicate Unsafe(fs: Fs, k: nat, i: nat, ks: seq<nat>, ls: seq<nat>)
    requires Shape(fs) && k < |fs.inodes| && i < NINDIRECT
  {
    if AtPlace(fs, k, Dbl) == 0 && FullDisk(fs) then Frees(fs, ks) || Frees(fs, ls)
    else
      && AtPlace(fs, k, DblTab(i)) == 0 && !Frees(fs, ks) && Frees(fs, ls)
      && (if AtPlace(fs, k, Dbl) == 0 then LastFree(fs) else FullDisk(fs))
  }

  ghost predicate AmongTruncations(p: Path, k: nat, ks: seq<nat>, ls: seq<nat>) {
    Truncations(p.dbl, ks, p.second) && Truncations(p.tab, ls, p.third) && k !in ks && k !in ls
  }

  lemma TruncationsAreOthers(p: Path, owner: map<nat, Place>, k: nat, i: nat, j: nat, ks: seq<nat>, ls: seq<nat>)
    requires Consistent(p.start, owner) && Takes(p, k, i, j) && AmongTruncations(p, k, ks, ls)
    ensures AmongOthers(p, k)
  {
    FieldFirst(p.start, owner, k, p.dbl, p.d, i);
    TruncationsMeanwhile(p.dbl, ks, p.second, k);
    TruncationsShape(p.dbl, ks, p.second);
    EntryFull(p.second, p.d, i, p.tab, p.t);
    TruncationsMeanwhile(p.tab, ls, p.third, k);
  }

  /** Is the disk full at the second balloc, and, if so, at the third? */
  lemma FullLater(p: Path, owner: map<nat, Place>, k: nat, i: nat, j: nat, ks: seq<nat>, ls: seq<nat>)
    requires Consistent(p.start, owner) && Takes(p, k, i, j) && AmongTruncations(p, k, ks, ls)
    ensures FullDisk(p.second) <==> FullDisk(p.dbl) && !Frees(p.start, ks)
    ensures FullDisk(p.second) ==> (FullDisk(p.third) <==> !Frees(p.start, ls))
  {
    FieldFirst(p.start, owner, k, p.dbl, p.d, i);
    var o := OwnerAfter(p.start, owner, k, Dbl, p.d);
    HeldIs(p.dbl, o);
    FieldFrees(p.start, owner, k, p.dbl, p.d, ks);
    FieldFrees(p.start, owner, k, p.dbl, p.d, ls);
    TruncationsFull(p.dbl, o, {}, ks, p.second);
    if FullDisk(p.second) {
      TruncationsFrees(p.dbl, o, ks, p.second, ls);
      EntryFull(p.second, p.d, i, p.tab, p.t);
      var o' := TruncationsConsistent(p.dbl, o, ks, p.second, k);
      TruncationsFull(p.second, o', {}, ls, p.third);
    }
  }

  lemma TruncationsConsistent(fs: Fs, owner: map<nat, Place>, ks: seq<nat>, fs': Fs, k: nat)
      returns (owner': map<nat, Place>)
    requires Consistent(fs, owner) && Truncations(fs, ks, fs') && k !in ks
    ensures Held(fs', owner', {})
  {
    TruncationsMeanwhile(fs, ks, fs', k);
    owner' := MeanwhileConsistent(fs, owner, fs', k);
    HeldIs(fs', owner');
  }

  /** The same, said about the state that the path finds and the files truncated meanwhile */
  lemma MapAmongTruncations(p: Path, owner: map<nat, Place>, k: nat, i: nat, j: nat, ks: seq<nat>, ls: seq<nat>)
    requires Consistent(p.start, owner) && Takes(p, k, i, j) && AmongTruncations(p, k, ks, ls)
    ensures k < |p.start.inodes| && i < NINDIRECT
    ensures Mended(p.end) <==> !Unsafe(p.start, k, i, ks, ls)
    ensures if Unsafe(p.start, k, i, ks, ls) then exists b :: Leaked(p.end, b) else Returned(p, k, i, j)
  {
    TruncationsAreOthers(p, owner, k, i, j, ks, ls);
    MapAmongOthers(p, owner, k, i, j);
    FieldFull(p.start, owner, k, p.dbl, p.d);
    FullLater(p, owner, k, i, j, ks, ls);
    assert LastFree(p.start) ==> !FullDisk(p.start);
  }

  // ---------- A run that goes wrong ----------

  function NoAddrs(): (r: seq<nat>)
    ensures |r| == NDIRECT + 2 && forall i :: 0 <= i < |r| ==> r[i] == 0
  {
    seq(NDIRECT + 2, _ => 0)
  }

  /** A disk of three blocks, the last one taken: boot block, free map, and the one block of file 1 */
  function FullExample(): (fs: Fs) {
    Fs(Super(3, 2, 1), [ZeroBlock(), SetBit(SetBit(SetBit(ZeroBlock(), 0), 1), 2), ZeroBlock()],
       [Inode(NoAddrs(), 0), Inode(NoAddrs()[0 := 2], BSIZE)])
  }

  lemma ExampleBits(c: nat)
    requires c < 3
    ensures GetBit(SetBit(SetBit(SetBit(ZeroBlock(), 0), 1), 2), c)
  {
    GetSetBit(ZeroBlock(), 0, c);
    GetSetBit(SetBit(ZeroBlock(), 0), 1, c);
    GetSetBit(SetBit(SetBit(ZeroBlock(), 0), 1), 2, c);
  }

  lemma ExampleAt(k: nat, s: Slot)
    requires ValidPlace(FullExample(), k, s)
    ensures |FullExample().inodes[k].addrs| == NDIRECT + 2
    ensures AtPlace(FullExample(), k, s) == if k == 1 && s == Direct(0) then 2 else 0
  {
  }

  lemma ExampleConsistent()
    ensures Consistent(FullExample(), map[2 := Place(1, Direct(0))]) && FullDisk(FullExample())
  {
    var fs, owner := FullExample(), map[2 := Place(1, Direct(0))];
    forall k: nat, s | ValidPlace(fs, k, s)
      ensures |fs.inodes[k].addrs| == NDIRECT + 2
      ensures AtPlace(fs, k, s) == if k == 1 && s == Direct(0) then 2 else 0
    {
      ExampleAt(k, s);
    }
    assert Trees(fs, owner);
    forall b: nat | b < 3
      ensures BitOk(fs, b) && Used(fs, b)
    {
      ExampleBits(b);
    }
  }

  lemma ExampleFirst(fs': Fs, d: nat)
    requires FieldStep(FullExample(), 0, NDIRECT + 1, fs', d)
    ensures d == 0 && fs' == FullExample()
  {
    ExampleConsistent();
  }

  /** Once file 1 is truncated, block 2 is the first free one. */
  lemma ExampleSecond(second: Fs, owner: map<nat, Place>, tab: Fs, t: nat)
    requires Truncated(FullExample(), 1, second) && Consistent(second, owner) && EntryStep(second, 0, 0, tab, t)
    ensures t == 2 < |tab.blocks| && Held(tab, owner, {2}) && GetWord(tab.blocks[0], 0) == 2
  {
    ExampleConsistent();
    ExampleFreed(second);
    BootEntry(second, owner, 0, tab, t);
    assert t == 2 by {
      assert Used(second, 0) && Used(second, 1);
    }
    GetPutWord(second.blocks[0], 0, 2, 0);
  }

  lemma ExampleFreed(second: Fs)
    requires Truncated(FullExample(), 1, second)
    ensures BitOk(second, 2) && !Used(second, 2)
  {
    ExampleAt(1, Direct(0));
    assert InTree(FullExample(), 1, 2) && UsedAfter(FullExample(), 1, 2, Used(second, 2));
  }

  lemma ExampleThird(tab: Fs, owner: map<nat, Place>, end: Fs, addr: nat)
    requires Held(tab, owner, {2}) && GetWord(tab.blocks[0], 0) == 2 && EntryStep(tab, 2, 0, end, addr)
    ensures |end.blocks| > 0 && GetWord(end.blocks[0], 0) == 2 && !Mended(end) && Leaked(end, 2)
  {
    LostEntry(tab, owner, 2, 0, end, addr);
    var lost :| 2 in lost && Held(end, owner, lost);
    HeldLeaks(end, owner, lost, 2);
    ZeroWord(0);
  }

  /** bmap of inode 0 finds no block, file 1 is truncated, and bmap goes on: block 0 is written and block 2 lost. */
  method BootBlockWritten() returns (f: FileSystem)
    ensures |f.blocks| > 0 && GetWord(f.blocks[0], 0) == 2
    ensures !Mended(f.State()) && Leaked(f.State(), 2)
  {
    ExampleConsistent();
    var fs := FullExample();
    f := new FileSystem(fs.sb, fs.blocks, fs.inodes, map[2 := Place(1, Direct(0))]);
    BootBlockUsed(fs, f.owner);
    var d := f.FieldOrNew(0, NDIRECT + 1);
    ExampleFirst(f.State(), d);
    f.Itrunc(1);
    ghost var second := f.State();
    BootBlockUsed(second, f.owner);
    var t := f.EntryOrNew(d, 0);
    ghost var tab := f.State();
    ExampleSecond(second, f.owner, tab, t);
    assert Used(tab, 0);
    var addr := f.EntryOrNew(t, 0);
    ExampleThird(tab, f.owner, f.State(), addr);
  }
}

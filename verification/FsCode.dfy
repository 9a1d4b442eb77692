/**
 kernel/fs.c: balloc, bfree, bmap, itrunc, readi and writei.

 The blocks are seen through the buffer cache and the log, which LogMachine
 shows to be one coherent disk, and one thread works on them at a time.
 */
module FsCode {
  import opened Blocks
  import opened FsModel
  import opened FsTrees
  import opened FsGrow
  import opened FsTrunc

  lemma PutSameWord(b: Block, i: nat)
    requires i < WORDS && GetWord(b, i) == 0
    ensures PutWord(b, i, 0) == b
  {
  }

  /** The bits of blocks b .. b + BITS - 1 are in one block of the free map. */
  lemma SameMapBlock(b: nat, bi: nat)
    requires b % BITS == 0 && bi < BITS
    ensures (b + bi) / BITS == b / BITS && (b + bi) % BITS == bi
  {
  }

  class FileSystem {
    const sb: Super
    var blocks: seq<Block>
    var inodes: seq<Inode>
    ghost var owner: map<nat, Place>

    ghost function State(): (fs: Fs)
      reads this
    {
      Fs(sb, blocks, inodes)
    }

    ghost predicate Valid()
      reads this
    {
      Consistent(State(), owner)
    }

    /** Mount a disk. */
    constructor (sb: Super, blocks: seq<Block>, inodes: seq<Inode>, ghost owner: map<nat, Place>)
      requires Consistent(Fs(sb, blocks, inodes), owner)
      ensures Valid() && State() == Fs(sb, blocks, inodes)
    {
      this.sb := sb;
      this.blocks := blocks;
      this.inodes := inodes;
      this.owner := owner;
    }

    /** Nothing but metadata blocks has changed, and not the boot block. */
    ghost predicate DataSame(before: seq<Block>, after: seq<Block>) {
      && |before| == |after| == sb.size
      && (forall c :: sb.nmeta <= c < sb.size ==> after[c] == before[c])
      && (sb.size > 0 ==> after[0] == before[0])
    }

    ghost predicate Full()
      reads this
    {
      FullDisk(State())
    }

    /** Allocate a zeroed disk block, the first free one; 0 if out of disk space. */
    method Balloc() returns (r: nat)
      requires Shape(State()) && BitOk(State(), 0) && Used(State(), 0)
      modifies this`blocks
      ensures r == 0 ==> State() == old(State()) && Full()
      ensures r != 0 ==> FirstFree(old(State()), r) && State() == Allocate(old(State()), r)
    {
      ghost var fs := State();
      var b := 0;
      while b < sb.size
        invariant b % BITS == 0 && State() == fs
        invariant forall c: nat :: c < b && c < sb.size ==> BitOk(fs, c) && Used(fs, c)
      {
        BitInMeta(fs, b);
        var m := sb.bmapstart + b / BITS;
        var bp := blocks[m];
        var bi := 0;
        while bi < BITS && b + bi < sb.size
          invariant bi <= BITS && State() == fs
          invariant forall c: nat :: c < b + bi && c < sb.size ==> BitOk(fs, c) && Used(fs, c)
        {
          SameMapBlock(b, bi);
          if !GetBit(bp, bi) {
            r := b + bi;
            blocks := blocks[m := SetBit(bp, bi)];
            blocks := blocks[r := ZeroBlock()];
            return;
          }
          bi := bi + 1;
        }
        b := b + BITS;
      }
      r := 0;
    }

    /** One of bmap's `if ip->addrs[i] == 0` steps */
    method FieldOrNew(k: nat, i: nat) returns (addr: nat)
      requires Shape(State()) && BitOk(State(), 0) && Used(State(), 0) && k < |inodes| && i < NDIRECT + 2
      modifies this`blocks, this`inodes
      ensures FieldStep(old(State()), k, i, State(), addr)
    {
      addr := inodes[k].addrs[i];
      if addr == 0 {
        addr := Balloc();
        assert inodes[k].addrs[i := 0] == inodes[k].addrs;
        inodes := inodes[k := inodes[k].(addrs := inodes[k].addrs[i := addr])];
      }
    }

    /** One of bmap's `if a[i] == 0` steps, for the table in block t */
    method EntryOrNew(t: nat, i: nat) returns (addr: nat)
      requires Shape(State()) && BitOk(State(), 0) && Used(State(), 0) && t < |blocks| && i < NINDIRECT
      modifies this`blocks
      ensures EntryStep(old(State()), t, i, State(), addr)
    {
      var bp := blocks[t];
      addr := GetWord(bp, i);
      if addr == 0 {
        addr := Balloc();
        if addr == 0 {
          PutSameWord(bp, i);
        }
        blocks := blocks[t := PutWord(bp, i, addr)];
      }
    }

    /** FieldOrNew for a slot of inode k */
    method FillField(k: nat, i: nat, ghost s: Slot) returns (addr: nat)
      requires Valid() && k < |inodes| && i < NDIRECT + 2
      requires s == if i < NDIRECT then Direct(i) else if i == NDIRECT then Ind else Dbl
      modifies this
      ensures Valid() && Grows(old(State()), old(owner), State(), owner, k)
      ensures addr == AtPlace(State(), k, s)
      ensures addr == 0 || AtPlace(old(State()), k, s) != 0 ==> State() == old(State()) && owner == old(owner)
      ensures addr == 0 ==> Full()
    {
      ghost var fs := State();
      BootBlockUsed(fs, owner);
      addr := FieldOrNew(k, i);
      ghost var fs' := State();
      FieldKeeps(fs, owner, k, i, s, fs', addr);
      owner := OwnerAfter(fs, owner, k, s, addr);
      assert State() == fs';
    }

    /**
     EntryOrNew for a slot of inode k.  The doubly-indirect path comes here with t == 0,
     the boot block, when there was no block for the table itself.
     */
    method FillEntry(t: nat, i: nat, ghost k: nat, ghost s: Slot) returns (addr: nat)
      requires Valid() && ValidPlace(State(), k, s) && (s.IndEntry? || s.DblTab? || s.DblEntry?)
      requires t == TableOf(State(), k, s) && i == IndexOf(s)
      requires t == 0 ==> Full()
      modifies this
      ensures Valid() && Grows(old(State()), old(owner), State(), owner, k)
      ensures addr == AtPlace(State(), k, s)
      ensures addr == 0 || AtPlace(old(State()), k, s) != 0 ==> State() == old(State()) && owner == old(owner)
      ensures addr == 0 ==> Full()
    {
      ghost var fs := State();
      BootBlockUsed(fs, owner);
      TableInRange(fs, owner, k, s);
      addr := EntryOrNew(t, i);
      ghost var fs' := State();
      EntryKeeps(fs, owner, k, s, t, fs', addr);
      owner := OwnerAfter(fs, owner, k, s, addr);
      assert State() == fs';
    }

    /**
     The disk block of the bn-th block of inode k, allocating it and its tables if
     there is none yet; 0 if out of disk space.
     */
    method Bmap(k: nat, bn: nat) returns (addr: nat)
      requires Valid() && k < |inodes| && bn < MAXFILE
      modifies this
      ensures Valid() && Grows(old(State()), old(owner), State(), owner, k)
      ensures addr == AtPlace(State(), k, DataSlot(bn))
      ensures AtPlace(old(State()), k, DataSlot(bn)) != 0 ==> State() == old(State()) && owner == old(owner)
      ensures addr == 0 ==> Full()
    {
      ghost var s := DataSlot(bn);
      if bn < NDIRECT {
        addr := FillField(k, bn, s);
      } else if bn - NDIRECT < NINDIRECT {
        assert s == IndEntry(bn - NDIRECT);
        addr := MapSingle(k, bn - NDIRECT, s);
      } else {
        var n := bn - NDIRECT - NINDIRECT;
        var i, j := n / NINDIRECT, n % NINDIRECT;
        assert s == DblEntry(i, j);
        addr := MapDouble(k, i, j, s);
      }
    }

    /** bmap's singly-indirect path. */
    method MapSingle(k: nat, i: nat, ghost s: Slot) returns (addr: nat)
      requires Valid() && k < |inodes| && i < NINDIRECT && s == IndEntry(i)
      modifies this
      ensures Valid() && Grows(old(State()), old(owner), State(), owner, k)
      ensures addr == AtPlace(State(), k, s)
      ensures AtPlace(old(State()), k, s) != 0 ==> State() == old(State()) && owner == old(owner)
      ensures addr == 0 ==> Full()
    {
      ghost var f0, o0 := State(), owner;
      addr := FillField(k, NDIRECT, Ind);
      if addr != 0 {
        ghost var f1, o1 := State(), owner;
        addr := FillEntry(addr, i, k, s);
        GrowsTrans(f0, o0, f1, o1, State(), owner, k);
      }
    }

    /** bmap's doubly-indirect path, which does not check the first two allocations. */
    method MapDouble(k: nat, i: nat, j: nat, ghost s: Slot) returns (addr: nat)
      requires Valid() && k < |inodes| && i < NINDIRECT && j < NINDIRECT && s == DblEntry(i, j)
      modifies this
      ensures Valid() && Grows(old(State()), old(owner), State(), owner, k)
      ensures addr == AtPlace(State(), k, s)
      ensures AtPlace(old(State()), k, s) != 0 ==> State() == old(State()) && owner == old(owner)
      ensures addr == 0 ==> Full()
    {
      ghost var f0, o0 := State(), owner;
      addr := FillField(k, NDIRECT + 1, Dbl);
      ghost var f1, o1 := State(), owner;
      addr := MapBelow(addr, k, i, j, s);
      GrowsTrans(f0, o0, f1, o1, State(), owner, k);
    }

    /** The table and the entry below the doubly-indirect block d */
    method MapBelow(d: nat, k: nat, i: nat, j: nat, ghost s: Slot) returns (addr: nat)
      requires Valid() && k < |inodes| && i < NINDIRECT && j < NINDIRECT && s == DblEntry(i, j)
      requires d == AtPlace(State(), k, Dbl) && (d == 0 ==> Full())
      modifies this
      ensures Valid() && Grows(old(State()), old(owner), State(), owner, k)
      ensures addr == AtPlace(State(), k, s)
      ensures AtPlace(old(State()), k, s) != 0 ==> State() == old(State()) && owner == old(owner)
      ensures addr == 0 ==> Full()
    {
      ghost var f0, o0 := State(), owner;
      addr := FillEntry(d, i, k, DblTab(i));
      ghost var f1, o1 := State(), owner;
      addr := FillEntry(addr, j, k, s);
      GrowsTrans(f0, o0, f1, o1, State(), owner, k);
    }

    /** Free a disk block; false is the panic "freeing free block". */
    method Bfree(b: nat) returns (ok: bool)
      requires Shape(State()) && b < sb.size
      modifies this`blocks
      ensures BitOk(old(State()), b) && ok == Used(old(State()), b)
      ensures blocks == if ok then MarkFree(old(State()), b).blocks else old(blocks)
    {
      BitInMeta(State(), b);
      var m := sb.bmapstart + b / BITS;
      ok := GetBit(blocks[m], b % BITS);
      if ok {
        blocks := blocks[m := ClearBit(blocks[m], b % BITS)];
      }
    }

    /** itrunc's `if(a) bfree(dev, a)` for the slot whose turn it is; `tree` is the inode table as it was. */
    method FreeIf(b: nat, ghost tree: seq<Inode>, ghost k: nat, ghost s: Slot)
      requires ValidPlace(Fs(sb, blocks, tree), k, s) && Freeing(Fs(sb, blocks, tree), owner, k, Rank(s))
      requires b == AtPlace(Fs(sb, blocks, tree), k, s) && Shape(State())
      modifies this`blocks
      ensures Freeing(Fs(sb, blocks, tree), owner, k, Rank(s) + 1)
      ensures Shape(State()) && DataSame(old(blocks), blocks)
    {
      ghost var fs := Fs(sb, blocks, tree);
      if b != 0 {
        FreeStep(fs, owner, k, s);
        BitInMeta(fs, b);
        var ok := Bfree(b);
        assert Fs(sb, blocks, tree) == MarkFree(fs, b);
      } else {
        SkipStep(fs, owner, k, s);
      }
    }

    /** Change a data block: log_write after copying into its buffer. */
    method PutData(b: nat, data: Block)
      requires Valid() && b in owner && !IsTable(owner[b].s)
      modifies this`blocks
      ensures Valid() && State() == WriteBlock(old(State()), b, data)
    {
      WriteKeepsTrees(State(), owner, b, data);
      WriteKeepsMarks(State(), owner.Keys, b, data);
      blocks := blocks[b := data];
    }

    method SetSize(k: nat, size: nat)
      requires k < |inodes|
      modifies this`inodes
      ensures inodes == old(inodes)[k := old(inodes)[k].(size := size)]
    {
      inodes := inodes[k := inodes[k].(size := size)];
    }

    /** Set an entry of inode k. */
    method SetAddr(k: nat, i: nat, b: nat)
      requires Shape(State()) && k < |inodes| && i < NDIRECT + 2
      modifies this`inodes
      ensures Shape(State())
      ensures inodes == old(inodes)[k := old(inodes)[k].(addrs := old(inodes)[k].addrs[i := b])]
    {
      inodes := inodes[k := inodes[k].(addrs := inodes[k].addrs[i := b])];
    }

    /** Free the blocks listed in table t, the block of slot `tab`, and then t itself. */
    method FreeTable(t: nat, ghost tree: seq<Inode>, ghost k: nat, ghost tab: Slot)
      requires (tab.Ind? || tab.DblTab?) && ValidPlace(Fs(sb, blocks, tree), k, tab) && Shape(State())
      requires Freeing(Fs(sb, blocks, tree), owner, k, Rank(EntrySlot(tab, 0)))
      requires t == AtPlace(Fs(sb, blocks, tree), k, tab) && t != 0
      modifies this`blocks
      ensures Freeing(Fs(sb, blocks, tree), owner, k, Rank(tab) + 1)
      ensures Shape(State()) && DataSame(old(blocks), blocks)
    {
      TableEntries(Fs(sb, blocks, tree), owner, k, tab);
      var a := blocks[t];
      var j := 0;
      while j < NINDIRECT
        invariant j <= NINDIRECT && Shape(State()) && DataSame(old(blocks), blocks)
        invariant Freeing(Fs(sb, blocks, tree), owner, k, Rank(EntrySlot(tab, 0)) + j)
      {
        DataSameAt(Fs(sb, old(blocks), tree), owner, blocks, k, EntrySlot(tab, j));
        FreeIf(GetWord(a, j), tree, k, EntrySlot(tab, j));
        j := j + 1;
      }
      DataSameAt(Fs(sb, old(blocks), tree), owner, blocks, k, tab);
      FreeIf(t, tree, k, tab);
    }

    /** Discard the contents of inode k. */
    method Itrunc(k: nat)
      requires Valid() && k < |inodes|
      modifies this
      ensures Valid() && owner == Others(old(owner), k)
      ensures inodes == Cleared(old(State()), k).inodes
      ensures DataSame(old(blocks), blocks)
      ensures Truncated(old(State()), k, State())
    {
      ghost var tree := inodes;
      FreeingStart(State(), owner, k);
      FreeDirect(k, tree);
      FreeSingle(k, tree);
      FreeDouble(k, tree);
      inodes := inodes[k := inodes[k].(size := 0)];
      FreedAll(Fs(sb, blocks, tree), owner, k);
      owner := Others(owner, k);
      assert inodes[k].addrs == seq(NDIRECT + 2, _ => 0);
      assert State() == Cleared(Fs(sb, blocks, tree), k);
      TruncatedIs(old(State()), old(owner), k, State());
    }

    /** itrunc's singly-indirect part. */
    method FreeSingle(k: nat, ghost tree: seq<Inode>)
      requires k < |inodes| == |tree| && Shape(State()) && Freeing(Fs(sb, blocks, tree), owner, k, NDIRECT)
      requires inodes[k].addrs[NDIRECT] == tree[k].addrs[NDIRECT]
      modifies this`blocks, this`inodes
      ensures Freeing(Fs(sb, blocks, tree), owner, k, 268)
      ensures Shape(State()) && DataSame(old(blocks), blocks)
      ensures inodes == old(inodes)[k := old(inodes)[k].(addrs := old(inodes)[k].addrs[NDIRECT := 0])]
    {
      if inodes[k].addrs[NDIRECT] != 0 {
        FreeTable(inodes[k].addrs[NDIRECT], tree, k, Ind);
      } else {
        SkipRanks(Fs(sb, blocks, tree), owner, k, 11, 268);
      }
      SetAddr(k, NDIRECT, 0);
    }

    /** itrunc's doubly-indirect part. */
    method FreeDouble(k: nat, ghost tree: seq<Inode>)
      requires k < |inodes| == |tree| && Shape(State()) && Freeing(Fs(sb, blocks, tree), owner, k, 268)
      requires inodes[k].addrs[NDIRECT + 1] == tree[k].addrs[NDIRECT + 1]
      modifies this`blocks, this`inodes
      ensures Freeing(Fs(sb, blocks, tree), owner, k, LASTRANK)
      ensures Shape(State()) && DataSame(old(blocks), blocks)
      ensures inodes == old(inodes)[k := old(inodes)[k].(addrs := old(inodes)[k].addrs[NDIRECT + 1 := 0])]
    {
      if inodes[k].addrs[NDIRECT + 1] != 0 {
        FreeTables(k, tree);
      } else {
        SkipRanks(Fs(sb, blocks, tree), owner, k, 268, LASTRANK);
      }
      SetAddr(k, NDIRECT + 1, 0);
    }

    /** itrunc's first loop. */
    method FreeDirect(k: nat, ghost tree: seq<Inode>)
      requires k < |inodes| && inodes == tree && Shape(State()) && Freeing(Fs(sb, blocks, tree), owner, k, 0)
      modifies this`blocks, this`inodes
      ensures Freeing(Fs(sb, blocks, tree), owner, k, NDIRECT)
      ensures Shape(State()) && DataSame(old(blocks), blocks)
      ensures |inodes| == |tree| && inodes == tree[k := inodes[k]] && inodes[k].size == tree[k].size
      ensures forall j :: 0 <= j < NDIRECT + 2 ==> inodes[k].addrs[j] == if j < NDIRECT then 0 else tree[k].addrs[j]
    {
      var i := 0;
      while i < NDIRECT
        invariant i <= NDIRECT && Shape(State()) && DataSame(old(blocks), blocks)
        invariant Freeing(Fs(sb, blocks, tree), owner, k, i)
        invariant |inodes| == |tree| && inodes == tree[k := inodes[k]] && inodes[k].size == tree[k].size
        invariant forall j :: 0 <= j < NDIRECT + 2 ==> inodes[k].addrs[j] == if j < i then 0 else tree[k].addrs[j]
      {
        FreeIf(inodes[k].addrs[i], tree, k, Direct(i));
        SetAddr(k, i, 0);
        i := i + 1;
      }
    }

    /** All tables of the doubly-indirect block, then that block. */
    method FreeTables(k: nat, ghost tree: seq<Inode>)
      requires k < |inodes| == |tree| && Shape(State()) && Freeing(Fs(sb, blocks, tree), owner, k, 268)
      requires inodes[k].addrs[NDIRECT + 1] == tree[k].addrs[NDIRECT + 1] != 0
      modifies this`blocks
      ensures Freeing(Fs(sb, blocks, tree), owner, k, LASTRANK)
      ensures Shape(State()) && DataSame(old(blocks), blocks)
    {
      var t := inodes[k].addrs[NDIRECT + 1];
      ghost var f0 := Fs(sb, blocks, tree);
      assert AtPlace(f0, k, Dbl) == t;
      var a := blocks[t];
      var i := 0;
      while i < NINDIRECT
        invariant i <= NINDIRECT && Shape(State()) && DataSame(old(blocks), blocks)
        invariant Freeing(Fs(sb, blocks, tree), owner, k, 268 + 257 * i)
      {
        DataSameAt(f0, owner, blocks, k, DblTab(i));
        ghost var b0 := blocks;
        if GetWord(a, i) != 0 {
          FreeTable(GetWord(a, i), tree, k, DblTab(i));
        } else {
          SkipRanks(Fs(sb, blocks, tree), owner, k, 268 + 257 * i, 268 + 257 * i + 257);
        }
        i := i + 1;
      }
      DataSameAt(f0, owner, blocks, k, Dbl);
      FreeIf(t, tree, k, Dbl);
    }
  }

  /** The owners once bmap has found or filled slot s of inode k */
  ghost function OwnerAfter(fs: Fs, owner: map<nat, Place>, k: nat, s: Slot, addr: nat): (r: map<nat, Place>)
    requires Shape(fs) && ValidPlace(fs, k, s)
  {
    if AtPlace(fs, k, s) == 0 && addr != 0 then owner[addr := Place(k, s)] else owner
  }

  /** What bmap's step for slot s of inode k is for: fs' has the block, and nothing else has changed. */
  ghost predicate Filled(fs: Fs, owner: map<nat, Place>, k: nat, s: Slot, fs': Fs, addr: nat) {
    && Shape(fs) && ValidPlace(fs, k, s)
    && var owner' := OwnerAfter(fs, owner, k, s, addr);
       && Consistent(fs', owner') && Grows(fs, owner, fs', owner', k)
       && addr == AtPlace(fs', k, s) && (addr == 0 || AtPlace(fs, k, s) != 0 ==> fs' == fs)
  }

  lemma FieldKeeps(fs: Fs, owner: map<nat, Place>, k: nat, i: nat, s: Slot, fs': Fs, addr: nat)
    requires Consistent(fs, owner) && FieldStep(fs, k, i, fs', addr)
    requires s == if i < NDIRECT then Direct(i) else if i == NDIRECT then Ind else Dbl
    ensures Filled(fs, owner, k, s, fs', addr) && (addr == 0 ==> FullDisk(fs))
  {
    if AtPlace(fs, k, s) == 0 && addr != 0 {
      LinkKeeps(fs, owner, k, s, addr);
      FieldLink(fs, k, i, s, fs', addr);
    } else {
      GrowsRefl(fs, owner, k);
    }
  }

  lemma FieldLink(fs: Fs, k: nat, i: nat, s: Slot, fs': Fs, addr: nat)
    requires FieldStep(fs, k, i, fs', addr) && |fs.inodes[k].addrs| == NDIRECT + 2 && addr < TWO32
    requires fs.inodes[k].addrs[i] == 0 != addr
    requires s == if i < NDIRECT then Direct(i) else if i == NDIRECT then Ind else Dbl
    ensures fs' == Link(fs, k, s, addr)
  {
  }

  /** Block 0 is marked, so balloc's 0 is no block. */
  lemma BootBlockUsed(fs: Fs, owner: map<nat, Place>)
    requires Consistent(fs, owner)
    ensures fs.sb.size > 0 && BitOk(fs, 0) && Used(fs, 0)
  {
  }

  lemma EntryKeeps(fs: Fs, owner: map<nat, Place>, k: nat, s: Slot, t: nat, fs': Fs, addr: nat)
    requires Consistent(fs, owner) && ValidPlace(fs, k, s) && (s.IndEntry? || s.DblTab? || s.DblEntry?)
    requires t == TableOf(fs, k, s) && EntryStep(fs, t, IndexOf(s), fs', addr) && (t == 0 ==> FullDisk(fs))
    ensures Filled(fs, owner, k, s, fs', addr) && (addr == 0 ==> FullDisk(fs))
  {
    TableInRange(fs, owner, k, s);
    if AtPlace(fs, k, s) == 0 && addr != 0 {
      ZeroWord(IndexOf(s));
      assert t != 0;
      LinkEntryKeeps(fs, owner, k, s, addr, fs');
    } else {
      ZeroWord(IndexOf(s));
      GrowsRefl(fs, owner, k);
    }
  }

  /** LinkKeeps for a table entry, with the store spelled out. */
  lemma LinkEntryKeeps(fs: Fs, owner: map<nat, Place>, k: nat, s: Slot, b: nat, fs': Fs)
    requires Consistent(fs, owner) && ValidPlace(fs, k, s) && (s.IndEntry? || s.DblTab? || s.DblEntry?)
    requires 0 < TableOf(fs, k, s) < |fs.blocks| && AtPlace(fs, k, s) == 0
    requires b < fs.sb.size && BitOk(fs, b) && !Used(fs, b)
    requires var t := TableOf(fs, k, s);
             fs' == Fs(fs.sb, Allocate(fs, b).blocks[t := PutWord(fs.blocks[t], IndexOf(s), b)], fs.inodes)
    ensures Consistent(fs', owner[b := Place(k, s)])
    ensures Grows(fs, owner, fs', owner[b := Place(k, s)], k)
    ensures AtPlace(fs', k, s) == b
  {
    LinkKeeps(fs, owner, k, s, b);
    TableStays(fs, owner, k, s, b);
    assert fs' == Link(fs, k, s, b);
  }

  /** balloc moves no table and changes none. */
  lemma TableStays(fs: Fs, owner: map<nat, Place>, k: nat, s: Slot, b: nat)
    requires Consistent(fs, owner) && ValidPlace(fs, k, s) && (s.IndEntry? || s.DblTab? || s.DblEntry?)
    requires TableOf(fs, k, s) != 0 && HasTable(fs, k, s) && AtPlace(fs, k, s) == 0
    requires b < fs.sb.size && BitOk(fs, b) && !Used(fs, b)
    ensures var t := TableOf(fs, k, s);
            && t < |fs.blocks|
            && TableOf(Allocate(fs, b), k, s) == t
            && Allocate(fs, b).blocks[t] == fs.blocks[t]
  {
    TableInRange(fs, owner, k, s);
    AllocateKeeps(fs, owner, b);
    LinkReady(fs, owner, k, s, b);
    match s
    case IndEntry(i) => assert AtPlace(Allocate(fs, b), k, Ind) == AtPlace(fs, k, Ind);
    case DblTab(i) => assert AtPlace(Allocate(fs, b), k, Dbl) == AtPlace(fs, k, Dbl);
    case DblEntry(i, j) => assert AtPlace(Allocate(fs, b), k, DblTab(i)) == AtPlace(fs, k, DblTab(i));
  }

  lemma TableInRange(fs: Fs, owner: map<nat, Place>, k: nat, s: Slot)
    requires Consistent(fs, owner) && ValidPlace(fs, k, s) && (s.IndEntry? || s.DblTab? || s.DblEntry?)
    ensures var t := TableOf(fs, k, s);
            && t < |fs.blocks|
            && (t != 0 ==> fs.sb.nmeta <= t && t in owner && IsTable(owner[t].s))
            && AtPlace(fs, k, s) == (if t == 0 then 0 else GetWord(fs.blocks[t], IndexOf(s)))
  {
  }

  /** Trees are made of data blocks only. */
  lemma DataSameAt(fs: Fs, owner: map<nat, Place>, blocks: seq<Block>, k: nat, s: Slot)
    requires Shape(fs) && Trees(fs, owner) && ValidPlace(fs, k, s) && |blocks| == fs.sb.size
    requires forall c :: fs.sb.nmeta <= c < fs.sb.size ==> blocks[c] == fs.blocks[c]
    ensures AtPlace(Fs(fs.sb, blocks, fs.inodes), k, s) == AtPlace(fs, k, s)
  {
    match s
    case IndEntry(i) =>
      assert AtPlace(fs, k, Ind) == fs.inodes[k].addrs[NDIRECT];
    case DblTab(i) =>
      assert AtPlace(fs, k, Dbl) == fs.inodes[k].addrs[NDIRECT + 1];
    case DblEntry(i, j) =>
      assert AtPlace(fs, k, Dbl) == fs.inodes[k].addrs[NDIRECT + 1];
      assert AtPlace(fs, k, DblTab(i)) == Entry(fs.blocks, fs.inodes[k].addrs[NDIRECT + 1], i);
    case _ =>
  }
}

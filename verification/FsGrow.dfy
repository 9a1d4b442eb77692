/**
 What growing a file keeps: the other files, the blocks already there, and
 their contents.
 */
module FsGrow {
  import opened Blocks
  import opened FsModel
  import opened FsTrees

  /** Same disk, same inodes but for the block entries of inode k. */
  ghost predicate SameInodes(fs: Fs, fs': Fs, k: nat) {
    && Shape(fs) && Shape(fs') && fs'.sb == fs.sb && |fs'.inodes| == |fs.inodes|
    && (forall k' :: 0 <= k' < |fs.inodes| ==> fs'.inodes[k'].size == fs.inodes[k'].size)
    && (forall k' :: 0 <= k' < |fs.inodes| && k' != k ==> fs'.inodes[k'] == fs.inodes[k'])
  }

  /** Filled slots stay as they are; only inode k may fill more. */
  ghost predicate SlotsGrow(fs: Fs, fs': Fs, k: nat)
    requires SameInodes(fs, fs', k)
  {
    forall k': nat, s :: ValidPlace(fs, k', s) && (k' != k || AtPlace(fs, k', s) != 0) ==>
      AtPlace(fs', k', s) == AtPlace(fs, k', s)
  }

  /** Data blocks keep their contents and new ones are zero. */
  ghost predicate DataKept(fs: Fs, owner: map<nat, Place>, fs': Fs, owner': map<nat, Place>, k: nat) {
    && (forall b :: b in owner ==> b in owner' && owner'[b] == owner[b])
    && (forall b :: b in owner' && b !in owner ==> owner'[b].k == k)
    && (forall b :: b in owner' && b < |fs.blocks| && b < |fs'.blocks| && !IsTable(owner'[b].s) ==>
          fs'.blocks[b] == if b in owner then fs.blocks[b] else ZeroBlock())
  }

  /** Only inode k got new blocks, all free before. */
  ghost predicate Grows(fs: Fs, owner: map<nat, Place>, fs': Fs, owner': map<nat, Place>, k: nat) {
    SameInodes(fs, fs', k) && SlotsGrow(fs, fs', k) && DataKept(fs, owner, fs', owner', k)
  }

  lemma GrowsRefl(fs: Fs, owner: map<nat, Place>, k: nat)
    requires Shape(fs)
    ensures Grows(fs, owner, fs, owner, k)
  {
  }

  lemma GrowsTrans(f0: Fs, o0: map<nat, Place>, f1: Fs, o1: map<nat, Place>, f2: Fs, o2: map<nat, Place>, k: nat)
    requires Grows(f0, o0, f1, o1, k) && Grows(f1, o1, f2, o2, k)
    ensures Grows(f0, o0, f2, o2, k)
  {
    forall k': nat, s | ValidPlace(f0, k', s) && (k' != k || AtPlace(f0, k', s) != 0)
      ensures AtPlace(f2, k', s) == AtPlace(f0, k', s)
    {
      assert AtPlace(f1, k', s) == AtPlace(f0, k', s);
    }
  }

  /** The state after balloc has handed out b and it was stored in slot s of inode k. */
  function Link(fs: Fs, k: nat, s: Slot, b: nat): (r: Fs)
    requires BitOk(fs, b) && b < |fs.blocks| && b < TWO32
    requires ValidPlace(fs, k, s) && |fs.inodes[k].addrs| == NDIRECT + 2 && HasTable(Allocate(fs, b), k, s)
  {
    Store(Allocate(fs, b), k, s, b)
  }

  /** Storing an entry leaves the boot block, all data blocks and all sizes. */
  lemma StoreKeepsData(fs: Fs, owner: map<nat, Place>, k: nat, s: Slot, b: nat)
    requires Linkable(fs, owner, k, s, b)
    ensures var fs' := Store(fs, k, s, b);
            && Shape(fs') && fs'.blocks[0] == fs.blocks[0] && fs'.sb == fs.sb
            && (forall c :: c in owner && !IsTable(owner[c].s) ==> fs'.blocks[c] == fs.blocks[c])
            && (forall c :: fs.sb.nmeta <= c < fs.sb.size && c !in owner ==> fs'.blocks[c] == fs.blocks[c])
            && |fs'.inodes| == |fs.inodes|
            && (forall k' :: 0 <= k' < |fs.inodes| ==> fs'.inodes[k'].size == fs.inodes[k'].size)
            && (forall k' :: 0 <= k' < |fs.inodes| && k' != k ==> fs'.inodes[k'] == fs.inodes[k'])
  {
    if s.IndEntry? || s.DblTab? || s.DblEntry? {
      var t := TableOf(fs, k, s);
      assert t in owner && IsTable(owner[t].s);
    }
  }

  /** Storing an entry leaves the metadata blocks. */
  lemma StoreKeepsMeta(fs: Fs, owner: map<nat, Place>, k: nat, s: Slot, b: nat, c: nat)
    requires Linkable(fs, owner, k, s, b) && c < fs.sb.nmeta
    ensures |Store(fs, k, s, b).blocks| == |fs.blocks| && Store(fs, k, s, b).blocks[c] == fs.blocks[c]
  {
    if s.IndEntry? || s.DblTab? || s.DblEntry? {
      var t := TableOf(fs, k, s);
      assert t in owner;
    }
  }

  lemma StoreKeepsMarks(fs: Fs, owner: map<nat, Place>, used: set<nat>, k: nat, s: Slot, b: nat)
    requires Linkable(fs, owner, k, s, b) && Marks(fs, used)
    ensures Shape(Store(fs, k, s, b)) && Marks(Store(fs, k, s, b), used)
  {
    StoreKeepsData(fs, owner, k, s, b);
    var fs' := Store(fs, k, s, b);
    forall c: nat | c < fs.sb.size
      ensures BitOk(fs', c) && Used(fs', c) == Used(fs, c)
    {
      BitInMeta(fs, c);
      StoreKeepsMeta(fs, owner, k, s, b, fs.sb.bmapstart + c / BITS);
    }
  }

  lemma LinkReady(fs: Fs, owner: map<nat, Place>, k: nat, s: Slot, b: nat)
    requires Consistent(fs, owner) && ValidPlace(fs, k, s) && HasTable(fs, k, s) && AtPlace(fs, k, s) == 0
    requires b < fs.sb.size && BitOk(fs, b) && !Used(fs, b)
    ensures Linkable(Allocate(fs, b), owner, k, s, b)
    ensures forall k': nat, s' :: ValidPlace(fs, k', s') ==> AtPlace(Allocate(fs, b), k', s') == AtPlace(fs, k', s')
  {
    AllocateKeeps(fs, owner, b);
    BitInMeta(fs, b);
    var m := fs.sb.bmapstart + b / BITS;
    var fs1 := MarkUsed(fs, b);
    WriteKeepsTrees(fs, owner, m, SetBit(fs.blocks[m], b % BITS));
    forall k': nat, s' | ValidPlace(fs, k', s')
      ensures AtPlace(Allocate(fs, b), k', s') == AtPlace(fs, k', s')
    {
      WriteKeepsAt(fs, owner, m, SetBit(fs.blocks[m], b % BITS), k', s');
      WriteKeepsAt(fs1, owner, b, ZeroBlock(), k', s');
    }
  }

  lemma LinkSlotsGrow(fs: Fs, owner: map<nat, Place>, k: nat, s: Slot, b: nat)
    requires Shape(fs) && ValidPlace(fs, k, s) && BitOk(fs, b) && b < fs.sb.size && AtPlace(fs, k, s) == 0
    requires Linkable(Allocate(fs, b), owner, k, s, b)
    requires forall k': nat, s' :: ValidPlace(fs, k', s') ==> AtPlace(Allocate(fs, b), k', s') == AtPlace(fs, k', s')
    requires SameInodes(fs, Link(fs, k, s, b), k)
    ensures SlotsGrow(fs, Link(fs, k, s, b), k) && AtPlace(Link(fs, k, s, b), k, s) == b
  {
    var f1 := Allocate(fs, b);
    StoreAt(f1, owner, k, s, b, k, s);
    forall k': nat, s' | ValidPlace(fs, k', s') && (k' != k || AtPlace(fs, k', s') != 0)
      ensures AtPlace(Link(fs, k, s, b), k', s') == AtPlace(fs, k', s')
    {
      StoreAt(f1, owner, k, s, b, k', s');
    }
  }

  /** The two steps together: f1 is fs after balloc, f2 is f1 after the store. */
  lemma TwoSteps(fs: Fs, owner: map<nat, Place>, f1: Fs, f2: Fs, k: nat, s: Slot, b: nat)
    requires Shape(fs) && Shape(f1) && Shape(f2) && f1.sb == fs.sb && f2.sb == fs.sb && fs.sb.nmeta <= b < fs.sb.size
    requires b !in owner && forall c :: c in owner ==> fs.sb.nmeta <= c < fs.sb.size
    requires f1.inodes == fs.inodes && f1.blocks[b] == ZeroBlock()
    requires forall c :: fs.sb.nmeta <= c < fs.sb.size && c != b ==> f1.blocks[c] == fs.blocks[c]
    requires forall c :: c in owner && !IsTable(owner[c].s) ==> f2.blocks[c] == f1.blocks[c]
    requires f2.blocks[b] == f1.blocks[b] && |f2.inodes| == |f1.inodes|
    requires forall k' :: 0 <= k' < |f1.inodes| ==> f2.inodes[k'].size == f1.inodes[k'].size
    requires forall k' :: 0 <= k' < |f1.inodes| && k' != k ==> f2.inodes[k'] == f1.inodes[k']
    ensures SameInodes(fs, f2, k)
    ensures DataKept(fs, owner, f2, owner[b := Place(k, s)], k)
  {
  }

  lemma LinkDataKept(fs: Fs, owner: map<nat, Place>, k: nat, s: Slot, b: nat)
    requires Consistent(fs, owner) && ValidPlace(fs, k, s) && BitOk(fs, b) && b < fs.sb.size && !Used(fs, b)
    requires Linkable(Allocate(fs, b), owner, k, s, b)
    ensures SameInodes(fs, Link(fs, k, s, b), k)
    ensures DataKept(fs, owner, Link(fs, k, s, b), owner[b := Place(k, s)], k)
    ensures Marks(Link(fs, k, s, b), owner.Keys + {b}) && Link(fs, k, s, b).blocks[0] == ZeroBlock()
  {
    var f1, f2 := Allocate(fs, b), Link(fs, k, s, b);
    AllocateKeeps(fs, owner, b);
    StoreKeepsData(f1, owner, k, s, b);
    StoreKeepsMarks(f1, owner, owner.Keys + {b}, k, s, b);
    TwoSteps(fs, owner, f1, f2, k, s, b);
  }

  lemma LinkConsistent(fs: Fs, owner: map<nat, Place>, k: nat, s: Slot, b: nat)
    requires Shape(fs) && BitOk(fs, b) && b < fs.sb.size
    requires Linkable(Allocate(fs, b), owner, k, s, b)
    requires Shape(Link(fs, k, s, b)) && Marks(Link(fs, k, s, b), owner.Keys + {b})
    requires Link(fs, k, s, b).blocks[0] == ZeroBlock()
    ensures Consistent(Link(fs, k, s, b), owner[b := Place(k, s)])
  {
    StoreTrees(Allocate(fs, b), owner, k, s, b);
    assert owner[b := Place(k, s)].Keys == owner.Keys + {b};
  }

  /** balloc and a store keep the file system consistent and every file's contents. */
  lemma LinkKeeps(fs: Fs, owner: map<nat, Place>, k: nat, s: Slot, b: nat)
    requires Consistent(fs, owner) && ValidPlace(fs, k, s) && HasTable(fs, k, s) && AtPlace(fs, k, s) == 0
    requires b < fs.sb.size && BitOk(fs, b) && !Used(fs, b)
    ensures HasTable(Allocate(fs, b), k, s)
    ensures Consistent(Link(fs, k, s, b), owner[b := Place(k, s)])
    ensures Grows(fs, owner, Link(fs, k, s, b), owner[b := Place(k, s)], k)
    ensures AtPlace(Link(fs, k, s, b), k, s) == b
  {
    LinkReady(fs, owner, k, s, b);
    LinkDataKept(fs, owner, k, s, b);
    LinkConsistent(fs, owner, k, s, b);
    LinkSlotsGrow(fs, owner, k, s, b);
  }

  /** Files keep their bytes when some file grows. */
  lemma GrowsBytes(fs: Fs, owner: map<nat, Place>, fs': Fs, owner': map<nat, Place>, k: nat, k': nat, p: nat)
    requires Shape(fs) && Trees(fs, owner) && Grows(fs, owner, fs', owner', k)
    requires k' < |fs.inodes| && p < MAXFILE * BSIZE && AtPlace(fs, k', DataSlot(p / BSIZE)) != 0
    ensures ByteAt(fs', k', p) == ByteAt(fs, k', p)
  {
    var s := DataSlot(p / BSIZE);
    assert AtPlace(fs', k', s) == AtPlace(fs, k', s);
  }

  /** A store alone, of a block that is zero already, grows the file in the same way. */
  lemma StoreGrows(fs: Fs, owner: map<nat, Place>, k: nat, s: Slot, b: nat)
    requires Linkable(fs, owner, k, s, b)
    ensures Grows(fs, owner, Store(fs, k, s, b), owner[b := Place(k, s)], k)
    ensures AtPlace(Store(fs, k, s, b), k, s) == b
  {
    StoreKeepsData(fs, owner, k, s, b);
    TwoSteps(fs, owner, fs, Store(fs, k, s, b), k, s, b);
    StoreAt(fs, owner, k, s, b, k, s);
    forall k': nat, s' | ValidPlace(fs, k', s') && (k' != k || AtPlace(fs, k', s') != 0)
      ensures AtPlace(Store(fs, k, s, b), k', s') == AtPlace(fs, k', s')
    {
      StoreAt(fs, owner, k, s, b, k', s');
    }
  }
}

/**
 How the block trees and the free map change, one block at a time.
 */
module FsTrees {
  import opened Blocks
  import opened FsModel

  function WriteBlock(fs: Fs, b: nat, data: Block): (r: Fs)
    requires b < |fs.blocks|
  {
    fs.(blocks := fs.blocks[b := data])
  }

  /** Block b holds no entries of any tree. */
  ghost predicate NotTable(owner: map<nat, Place>, b: nat) {
    b in owner ==> !IsTable(owner[b].s)
  }

  /** The tree tables other than b reach the same blocks after b is overwritten. */
  lemma WriteKeepsAt(fs: Fs, owner: map<nat, Place>, b: nat, data: Block, k: nat, s: Slot)
    requires Shape(fs) && Trees(fs, owner) && b < |fs.blocks| && NotTable(owner, b) && ValidPlace(fs, k, s)
    ensures AtPlace(WriteBlock(fs, b, data), k, s) == AtPlace(fs, k, s)
  {
    match s
    case IndEntry(i) =>
      assert AtPlace(fs, k, Ind) == fs.inodes[k].addrs[NDIRECT];
    case DblTab(i) =>
      assert AtPlace(fs, k, Dbl) == fs.inodes[k].addrs[NDIRECT + 1];
    case DblEntry(i, j) =>
      assert AtPlace(fs, k, Dbl) == fs.inodes[k].addrs[NDIRECT + 1];
      assert AtPlace(fs, k, DblTab(i)) == Entry(fs.blocks, fs.inodes[k].addrs[NDIRECT + 1], i);
    case _ =>
  }

  lemma WriteKeepsTrees(fs: Fs, owner: map<nat, Place>, b: nat, data: Block)
    requires Shape(fs) && Trees(fs, owner) && b < |fs.blocks| && NotTable(owner, b)
    ensures Shape(WriteBlock(fs, b, data)) && Trees(WriteBlock(fs, b, data), owner)
  {
    var fs' := WriteBlock(fs, b, data);
    forall k: nat, s | ValidPlace(fs, k, s)
      ensures AtPlace(fs', k, s) == AtPlace(fs, k, s)
    {
      WriteKeepsAt(fs, owner, b, data, k, s);
    }
  }

  /** Overwriting a block outside the free map leaves the marks. */
  lemma WriteKeepsMarks(fs: Fs, used: set<nat>, b: nat, data: Block)
    requires Shape(fs) && Marks(fs, used) && fs.sb.nmeta <= b < fs.sb.size
    ensures Shape(WriteBlock(fs, b, data)) && Marks(WriteBlock(fs, b, data), used)
  {
    var fs' := WriteBlock(fs, b, data);
    forall c: nat | c < fs.sb.size
      ensures BitOk(fs', c) && Used(fs', c) == Used(fs, c)
    {
      BitInMeta(fs, c);
    }
  }

  // ---------- The free map ----------

  function MarkUsed(fs: Fs, b: nat): (r: Fs)
    requires BitOk(fs, b)
  {
    var m := fs.sb.bmapstart + b / BITS;
    WriteBlock(fs, m, SetBit(fs.blocks[m], b % BITS))
  }

  function MarkFree(fs: Fs, b: nat): (r: Fs)
    requires BitOk(fs, b)
  {
    var m := fs.sb.bmapstart + b / BITS;
    WriteBlock(fs, m, ClearBit(fs.blocks[m], b % BITS))
  }

  lemma MarkBits(fs: Fs, b: nat, c: nat)
    requires BitOk(fs, b) && BitOk(fs, c)
    ensures BitOk(MarkUsed(fs, b), c) && (Used(MarkUsed(fs, b), c) <==> b == c || Used(fs, c))
    ensures BitOk(MarkFree(fs, b), c) && (Used(MarkFree(fs, b), c) <==> b != c && Used(fs, c))
  {
    if b / BITS == c / BITS {
      GetSetBit(fs.blocks[fs.sb.bmapstart + b / BITS], b % BITS, c % BITS);
    }
  }

  /** Marking a block changes the free map by that block and nothing else. */
  lemma MarkKeeps(fs: Fs, owner: map<nat, Place>, used: set<nat>, b: nat)
    requires Shape(fs) && Trees(fs, owner) && Marks(fs, used) && fs.sb.nmeta <= b < fs.sb.size
    ensures BitOk(fs, b)
    ensures Shape(MarkUsed(fs, b)) && Trees(MarkUsed(fs, b), owner) && Marks(MarkUsed(fs, b), used + {b})
    ensures Shape(MarkFree(fs, b)) && Trees(MarkFree(fs, b), owner) && Marks(MarkFree(fs, b), used - {b})
  {
    BitInMeta(fs, b);
    var m := fs.sb.bmapstart + b / BITS;
    WriteKeepsTrees(fs, owner, m, SetBit(fs.blocks[m], b % BITS));
    WriteKeepsTrees(fs, owner, m, ClearBit(fs.blocks[m], b % BITS));
    forall c: nat | c < fs.sb.size
      ensures BitOk(MarkUsed(fs, b), c) && (Used(MarkUsed(fs, b), c) <==> c < fs.sb.nmeta || c in used + {b})
      ensures BitOk(MarkFree(fs, b), c) && (Used(MarkFree(fs, b), c) <==> c < fs.sb.nmeta || c in used - {b})
    {
      MarkBits(fs, b, c);
    }
  }

  /** balloc's effect: the block is marked and zeroed. */
  function Allocate(fs: Fs, b: nat): (r: Fs)
    requires BitOk(fs, b) && b < |fs.blocks|
  {
    WriteBlock(MarkUsed(fs, b), b, ZeroBlock())
  }

  lemma AllocateKeeps(fs: Fs, owner: map<nat, Place>, b: nat)
    requires Consistent(fs, owner) && b < fs.sb.size && BitOk(fs, b) && !Used(fs, b)
    ensures fs.sb.nmeta <= b && b !in owner
    ensures Shape(Allocate(fs, b)) && Trees(Allocate(fs, b), owner) && Marks(Allocate(fs, b), owner.Keys + {b})
    ensures Allocate(fs, b).blocks[0] == ZeroBlock() && Allocate(fs, b).blocks[b] == ZeroBlock()
    ensures forall c :: fs.sb.nmeta <= c < fs.sb.size && c != b ==> Allocate(fs, b).blocks[c] == fs.blocks[c]
    ensures Allocate(fs, b).inodes == fs.inodes
  {
    MarkKeeps(fs, owner, owner.Keys, b);
    var fs1 := MarkUsed(fs, b);
    WriteKeepsTrees(fs1, owner, b, ZeroBlock());
    WriteKeepsMarks(fs1, owner.Keys + {b}, b, ZeroBlock());
    BitInMeta(fs, b);
  }

  /** balloc finds no block. */
  ghost predicate FullDisk(fs: Fs) {
    forall b: nat :: b < fs.sb.size ==> BitOk(fs, b) && Used(fs, b)
  }

  /** The block that balloc hands out */
  ghost predicate FirstFree(fs: Fs, b: nat) {
    && b < fs.sb.size && BitOk(fs, b) && !Used(fs, b)
    && (forall c: nat :: c < b ==> BitOk(fs, c) && Used(fs, c))
  }

  /** bmap's `if ip->addrs[i] == 0`: the entry that is there, or a new block or 0 stored in it */
  ghost predicate FieldStep(fs: Fs, k: nat, i: nat, fs': Fs, addr: nat) {
    && k < |fs.inodes| && i < |fs.inodes[k].addrs|
    && if fs.inodes[k].addrs[i] != 0 then addr == fs.inodes[k].addrs[i] && fs' == fs
       else if addr == 0 then FullDisk(fs) && fs' == fs
       else
         && FirstFree(fs, addr) && addr < |fs.blocks|
         && fs' == Fs(fs.sb, Allocate(fs, addr).blocks,
                      fs.inodes[k := fs.inodes[k].(addrs := fs.inodes[k].addrs[i := addr])])
  }

  /** bmap's `if a[i] == 0`, with block t in the buffer */
  ghost predicate EntryStep(fs: Fs, t: nat, i: nat, fs': Fs, addr: nat) {
    && t < |fs.blocks| && i < NINDIRECT
    && if GetWord(fs.blocks[t], i) != 0 then addr == GetWord(fs.blocks[t], i) && fs' == fs
       else if addr == 0 then FullDisk(fs) && fs' == fs
       else
         && FirstFree(fs, addr) && addr < |fs.blocks| && addr < TWO32
         && fs' == Fs(fs.sb, Allocate(fs, addr).blocks[t := PutWord(fs.blocks[t], i, addr)], fs.inodes)
  }

  // ---------- Linking a new block into a tree ----------

  /** The table block that holds the entry of slot s. */
  function TableOf(fs: Fs, k: nat, s: Slot): (t: nat)
    requires ValidPlace(fs, k, s) && |fs.inodes[k].addrs| == NDIRECT + 2
    requires s.IndEntry? || s.DblTab? || s.DblEntry?
  {
    match s
    case IndEntry(i) => AtPlace(fs, k, Ind)
    case DblTab(i) => AtPlace(fs, k, Dbl)
    case DblEntry(i, j) => AtPlace(fs, k, DblTab(i))
  }

  /** The index of slot s in its table. */
  function IndexOf(s: Slot): (i: nat)
    requires s.IndEntry? || s.DblTab? || s.DblEntry?
  {
    match s
    case IndEntry(i) => i
    case DblTab(i) => i
    case DblEntry(i, j) => j
  }

  /** Can slot s be filled in: is its table there? */
  predicate HasTable(fs: Fs, k: nat, s: Slot)
    requires ValidPlace(fs, k, s) && |fs.inodes[k].addrs| == NDIRECT + 2
  {
    (s.IndEntry? || s.DblTab? || s.DblEntry?) ==> 0 < TableOf(fs, k, s) < |fs.blocks|
  }

  /** Store block number b in slot s of inode k. */
  function Store(fs: Fs, k: nat, s: Slot, b: nat): (r: Fs)
    requires ValidPlace(fs, k, s) && |fs.inodes[k].addrs| == NDIRECT + 2 && HasTable(fs, k, s) && b < TWO32
  {
    var addrs := fs.inodes[k].addrs;
    match s
    case Direct(i) => fs.(inodes := fs.inodes[k := fs.inodes[k].(addrs := addrs[i := b])])
    case Ind => fs.(inodes := fs.inodes[k := fs.inodes[k].(addrs := addrs[NDIRECT := b])])
    case Dbl => fs.(inodes := fs.inodes[k := fs.inodes[k].(addrs := addrs[NDIRECT + 1 := b])])
    case _ =>
      var t := TableOf(fs, k, s);
      WriteBlock(fs, t, PutWord(fs.blocks[t], IndexOf(s), b))
  }

  /** Block b may be linked into the empty slot s of inode k. */
  ghost predicate Linkable(fs: Fs, owner: map<nat, Place>, k: nat, s: Slot, b: nat) {
    && Shape(fs) && Trees(fs, owner)
    && ValidPlace(fs, k, s) && HasTable(fs, k, s) && AtPlace(fs, k, s) == 0
    && fs.sb.nmeta <= b < fs.sb.size && b !in owner && fs.blocks[b] == ZeroBlock()
  }

  /** Table entries before and after storing into table t. */
  lemma EntryAfterPut(blocks: seq<Block>, t: nat, i: nat, w: Word, u: nat, j: nat)
    requires 0 < t < |blocks| && i < NINDIRECT && j < NINDIRECT
    ensures Entry(blocks[t := PutWord(blocks[t], i, w)], u, j) == if u == t && i == j then w else Entry(blocks, u, j)
  {
    GetPutWord(blocks[t], i, w, j);
  }

  lemma ZeroEntry(blocks: seq<Block>, b: nat, j: nat)
    requires j < NINDIRECT && (b < |blocks| ==> blocks[b] == ZeroBlock())
    ensures Entry(blocks, b, j) == 0
  {
    ZeroWord(j);
  }

  /** Linking into an inode field fills that slot and no other. */
  lemma StoreFieldAt(fs: Fs, owner: map<nat, Place>, k: nat, s: Slot, b: nat, k': nat, s': Slot)
    requires Linkable(fs, owner, k, s, b) && (s.Direct? || s.Ind? || s.Dbl?) && ValidPlace(fs, k', s')
    ensures Shape(Store(fs, k, s, b))
    ensures AtPlace(Store(fs, k, s, b), k', s') == if k' == k && s' == s then b else AtPlace(fs, k', s')
  {
    match s'
    case IndEntry(i) => ZeroEntry(fs.blocks, b, i);
    case DblTab(i) => ZeroEntry(fs.blocks, b, i);
    case DblEntry(i, j) => ZeroEntry(fs.blocks, b, i);
    case _ =>
  }

  /** Linking into a table fills that slot and no other. */
  lemma StoreEntryAt(fs: Fs, owner: map<nat, Place>, k: nat, s: Slot, b: nat, k': nat, s': Slot)
    requires Linkable(fs, owner, k, s, b) && (s.IndEntry? || s.DblTab? || s.DblEntry?) && ValidPlace(fs, k', s')
    ensures Shape(Store(fs, k, s, b))
    ensures AtPlace(Store(fs, k, s, b), k', s') == if k' == k && s' == s then b else AtPlace(fs, k', s')
  {
    var t, i := TableOf(fs, k, s), IndexOf(s);
    var addrs' := fs.inodes[k'].addrs;
    assert t in owner && t != b;
    match s'
    case IndEntry(i') =>
      EntryAfterPut(fs.blocks, t, i, b, addrs'[NDIRECT], i');
      assert AtPlace(fs, k', Ind) == addrs'[NDIRECT];
    case DblTab(i') =>
      EntryAfterPut(fs.blocks, t, i, b, addrs'[NDIRECT + 1], i');
      assert AtPlace(fs, k', Dbl) == addrs'[NDIRECT + 1];
    case DblEntry(i', j') =>
      StoreDblEntryAt(fs, owner, k, s, b, k', i', j');
    case _ =>
  }

  lemma StoreDblEntryAt(fs: Fs, owner: map<nat, Place>, k: nat, s: Slot, b: nat, k': nat, i': nat, j': nat)
    requires Linkable(fs, owner, k, s, b) && (s.IndEntry? || s.DblTab? || s.DblEntry?)
    requires ValidPlace(fs, k', DblEntry(i', j'))
    ensures Shape(Store(fs, k, s, b))
    ensures AtPlace(Store(fs, k, s, b), k', DblEntry(i', j')) ==
            if k' == k && s == DblEntry(i', j') then b else AtPlace(fs, k', DblEntry(i', j'))
  {
    var t, i := TableOf(fs, k, s), IndexOf(s);
    var d := fs.inodes[k'].addrs[NDIRECT + 1];
    var u := Entry(fs.blocks, d, i');
    assert t in owner && t != b;
    assert AtPlace(fs, k', Dbl) == d && AtPlace(fs, k', DblTab(i')) == u;
    EntryAfterPut(fs.blocks, t, i, b, d, i');
    EntryAfterPut(fs.blocks, t, i, b, u, j');
    EntryAfterPut(fs.blocks, t, i, b, b, j');
    ZeroEntry(fs.blocks, b, j');
  }

  lemma StoreAt(fs: Fs, owner: map<nat, Place>, k: nat, s: Slot, b: nat, k': nat, s': Slot)
    requires Linkable(fs, owner, k, s, b) && ValidPlace(fs, k', s')
    ensures Shape(Store(fs, k, s, b))
    ensures AtPlace(Store(fs, k, s, b), k', s') == if k' == k && s' == s then b else AtPlace(fs, k', s')
  {
    if s.Direct? || s.Ind? || s.Dbl? {
      StoreFieldAt(fs, owner, k, s, b, k', s');
    } else {
      StoreEntryAt(fs, owner, k, s, b, k', s');
    }
  }

  /** A linked block becomes the property of its slot. */
  lemma StoreTrees(fs: Fs, owner: map<nat, Place>, k: nat, s: Slot, b: nat)
    requires Linkable(fs, owner, k, s, b)
    ensures Shape(Store(fs, k, s, b)) && Trees(Store(fs, k, s, b), owner[b := Place(k, s)])
  {
    StoreAt(fs, owner, k, s, b, k, s);
    forall k': nat, s' | ValidPlace(fs, k', s')
      ensures AtPlace(Store(fs, k, s, b), k', s') == if k' == k && s' == s then b else AtPlace(fs, k', s')
    {
      StoreAt(fs, owner, k, s, b, k', s');
    }
  }
}

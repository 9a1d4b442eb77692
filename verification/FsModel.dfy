/**
 The on-disk file system: inodes, their block trees and the free map.

 An inode reaches its blocks through slots: NDIRECT direct entries, one
 singly-indirect block of NINDIRECT entries, and one doubly-indirect block of
 NINDIRECT tables of NINDIRECT entries each.  Entry 0 means "no block".
 */
module FsModel {
  import opened Common
  import opened Blocks

  const NDIRECT: nat := 11
  const NINDIRECT: nat := 256
  const MAXFILE: nat := 65803  // NDIRECT + NINDIRECT + NINDIRECT * NINDIRECT

  /** What the file system needs of the superblock: blocks below nmeta hold metadata. */
  datatype Super = Super(size: nat, nmeta: nat, bmapstart: nat) {
    ghost predicate Valid() {
      && 1 <= bmapstart
      && nmeta <= size < TWO32
      && size <= (nmeta - bmapstart) * BITS
    }
  }

  datatype Inode = Inode(addrs: seq<nat>, size: nat)

  datatype Fs = Fs(sb: Super, blocks: seq<Block>, inodes: seq<Inode>)

  datatype Slot =
    | Direct(i: nat)
    | Ind                      // the singly-indirect block
    | IndEntry(i: nat)
    | Dbl                      // the doubly-indirect block
    | DblTab(i: nat)           // a table listed in the doubly-indirect block
    | DblEntry(i: nat, j: nat)

  datatype Place = Place(k: nat, s: Slot)

  predicate ValidSlot(s: Slot) {
    match s
    case Direct(i) => i < NDIRECT
    case Ind => true
    case IndEntry(i) => i < NINDIRECT
    case Dbl => true
    case DblTab(i) => i < NINDIRECT
    case DblEntry(i, j) => i < NINDIRECT && j < NINDIRECT
  }

  /** Slots whose block holds further entries. */
  predicate IsTable(s: Slot) {
    s.Ind? || s.Dbl? || s.DblTab?
  }

  predicate ValidPlace(fs: Fs, k: nat, s: Slot) {
    k < |fs.inodes| && ValidSlot(s)
  }

  /** Entry i of table block t. */
  function Entry(blocks: seq<Block>, t: nat, i: nat): (b: nat)
    requires i < NINDIRECT
  {
    if 0 < t < |blocks| then GetWord(blocks[t], i) else 0
  }

  /** The block in slot s of an inode, or 0. */
  function At(blocks: seq<Block>, addrs: seq<nat>, s: Slot): (b: nat)
    requires |addrs| == NDIRECT + 2 && ValidSlot(s)
  {
    match s
    case Direct(i) => addrs[i]
    case Ind => addrs[NDIRECT]
    case IndEntry(i) => Entry(blocks, addrs[NDIRECT], i)
    case Dbl => addrs[NDIRECT + 1]
    case DblTab(i) => Entry(blocks, addrs[NDIRECT + 1], i)
    case DblEntry(i, j) => Entry(blocks, Entry(blocks, addrs[NDIRECT + 1], i), j)
  }

  ghost predicate Shape(fs: Fs) {
    && fs.sb.Valid()
    && |fs.blocks| == fs.sb.size
    && (forall k :: 0 <= k < |fs.inodes| ==> |fs.inodes[k].addrs| == NDIRECT + 2)
  }

  function AtPlace(fs: Fs, k: nat, s: Slot): (b: nat)
    requires ValidPlace(fs, k, s) && |fs.inodes[k].addrs| == NDIRECT + 2
  {
    At(fs.blocks, fs.inodes[k].addrs, s)
  }

  // ---------- Free map ----------

  predicate BitOk(fs: Fs, b: nat) {
    fs.sb.bmapstart + b / BITS < |fs.blocks|
  }

  /** Is block b marked in use? */
  predicate Used(fs: Fs, b: nat)
    requires BitOk(fs, b)
  {
    GetBit(fs.blocks[fs.sb.bmapstart + b / BITS], b % BITS)
  }

  lemma BitInMeta(fs: Fs, b: nat)
    requires Shape(fs) && b < fs.sb.size
    ensures fs.sb.bmapstart + b / BITS < fs.sb.nmeta <= |fs.blocks|
  {
  }

  // ---------- Who owns what ----------

  /**
   `owner` is the inverse of the block trees: every block in a tree is in exactly
   one slot of one inode, and it is a data block of the disk.
   */
  ghost predicate Trees(fs: Fs, owner: map<nat, Place>)
    requires Shape(fs)
  {
    && (forall b :: b in owner ==>
          && fs.sb.nmeta <= b < fs.sb.size
          && ValidPlace(fs, owner[b].k, owner[b].s)
          && AtPlace(fs, owner[b].k, owner[b].s) == b)
    && (forall k: nat, s :: ValidPlace(fs, k, s) && AtPlace(fs, k, s) != 0 ==>
          AtPlace(fs, k, s) in owner && owner[AtPlace(fs, k, s)] == Place(k, s))
  }

  /** The free map marks the metadata blocks and the given ones. */
  ghost predicate Marks(fs: Fs, used: set<nat>)
    requires Shape(fs)
  {
    forall b: nat :: b < fs.sb.size ==> BitOk(fs, b) && (Used(fs, b) <==> b < fs.sb.nmeta || b in used)
  }

  ghost predicate Consistent(fs: Fs, owner: map<nat, Place>) {
    && Shape(fs)
    && fs.blocks[0] == ZeroBlock()  // the boot block of the image
    && Trees(fs, owner)
    && Marks(fs, owner.Keys)
  }

  // ---------- Files ----------

  /** The slot of the bn-th block of a file. */
  function DataSlot(bn: nat): (s: Slot)
    requires bn < MAXFILE
    ensures ValidSlot(s) && !IsTable(s)
  {
    if bn < NDIRECT then Direct(bn)
    else if bn < NDIRECT + NINDIRECT then IndEntry(bn - NDIRECT)
    else DblEntry((bn - NDIRECT - NINDIRECT) / NINDIRECT, (bn - NDIRECT - NINDIRECT) % NINDIRECT)
  }

  /** Which block of a file a slot stands for: direct ones first, then the tables in order. */
  function BlockNumber(s: Slot): (bn: nat)
    requires ValidSlot(s) && !IsTable(s)
    ensures bn < MAXFILE
  {
    match s
    case Direct(i) => i
    case IndEntry(i) => NDIRECT + i
    case DblEntry(i, j) => NDIRECT + NINDIRECT + i * NINDIRECT + j
  }

  /** Block numbers and slots for data are one to one, in this order. */
  lemma DataSlotNumbers(bn: nat, s: Slot)
    requires bn < MAXFILE && ValidSlot(s) && !IsTable(s)
    ensures BlockNumber(DataSlot(bn)) == bn && DataSlot(BlockNumber(s)) == s
  {
    if s.DblEntry? {
      var n := s.i * NINDIRECT + s.j;
      assert n / NINDIRECT == s.i && n % NINDIRECT == s.j;
    }
  }

  lemma DataSlotInjective(bn: nat, cn: nat)
    requires bn < MAXFILE && cn < MAXFILE && DataSlot(bn) == DataSlot(cn)
    ensures bn == cn
  {
  }

  /** The first n blocks of inode k are all there. */
  ghost predicate Mapped(fs: Fs, k: nat, n: nat)
    requires Shape(fs) && k < |fs.inodes| && n <= MAXFILE
  {
    forall bn: nat :: bn < n ==> AtPlace(fs, k, DataSlot(bn)) != 0
  }

  /** Number of blocks that n bytes need. */
  function BlocksFor(n: nat): (r: nat)
    ensures (r - 1) * BSIZE < n <= r * BSIZE
  {
    (n + BSIZE - 1) / BSIZE
  }

  /** No file has a hole below its size. */
  ghost predicate NoHoles(fs: Fs)
    requires Shape(fs)
  {
    && (forall k :: 0 <= k < |fs.inodes| ==> fs.inodes[k].size <= MAXFILE * BSIZE)
    && (forall k :: 0 <= k < |fs.inodes| ==> FileOk(fs, k))
  }

  ghost predicate FileOk(fs: Fs, k: nat)
    requires Shape(fs) && k < |fs.inodes|
  {
    fs.inodes[k].size <= MAXFILE * BSIZE && Mapped(fs, k, BlocksFor(fs.inodes[k].size))
  }

  /** Byte p of file k. */
  function ByteAt(fs: Fs, k: nat, p: nat): (x: Byte)
    requires k < |fs.inodes| && |fs.inodes[k].addrs| == NDIRECT + 2 && p < MAXFILE * BSIZE
  {
    var b := AtPlace(fs, k, DataSlot(p / BSIZE));
    if b < |fs.blocks| then fs.blocks[b][p % BSIZE] else 0
  }

  /** The first n bytes of file k. */
  ghost function Bytes(fs: Fs, k: nat, n: nat): (r: seq<Byte>)
    requires k < |fs.inodes| && |fs.inodes[k].addrs| == NDIRECT + 2 && n <= MAXFILE * BSIZE
    ensures |r| == n && forall p :: 0 <= p < n ==> r[p] == ByteAt(fs, k, p)
  {
    seq(n, p requires 0 <= p < n => ByteAt(fs, k, p))
  }

  /** What a file holds. */
  ghost function Contents(fs: Fs, k: nat): (r: seq<Byte>)
    requires Shape(fs) && NoHoles(fs) && k < |fs.inodes|
  {
    Bytes(fs, k, fs.inodes[k].size)
  }
}

/**
 Build/Fs.zig: building the initial file system image.  Blocks are handed out by
 a counter, and the free map is written once, at the end.
 */
module FsImage {
  import opened Common
  import opened Blocks
  import opened FsModel
  import opened FsTrees
  import opened FsGrow
  import opened FsIo

  /** What holds while the image is being built. */
  ghost predicate Building(fs: Fs, owner: map<nat, Place>, freeblock: nat) {
    && Shape(fs) && fs.sb.size > BITS
    && fs.sb.nmeta <= freeblock < BITS
    && Trees(fs, owner)
    && (forall b :: b in owner <==> fs.sb.nmeta <= b < freeblock)
    && (forall b :: freeblock <= b < BITS ==> fs.blocks[b] == ZeroBlock())
    && fs.blocks[0] == ZeroBlock()
    && (forall m :: fs.sb.bmapstart <= m < fs.sb.nmeta ==> fs.blocks[m] == ZeroBlock())
  }

  /** The next block goes into an empty slot. */
  lemma BuildStore(fs: Fs, owner: map<nat, Place>, freeblock: nat, k: nat, s: Slot)
    requires Building(fs, owner, freeblock) && freeblock + 1 < BITS
    requires ValidPlace(fs, k, s) && HasTable(fs, k, s) && AtPlace(fs, k, s) == 0
    ensures Building(Store(fs, k, s, freeblock), owner[freeblock := Place(k, s)], freeblock + 1)
    ensures Grows(fs, owner, Store(fs, k, s, freeblock), owner[freeblock := Place(k, s)], k)
    ensures AtPlace(Store(fs, k, s, freeblock), k, s) == freeblock
  {
    StoreTrees(fs, owner, k, s, freeblock);
    StoreGrows(fs, owner, k, s, freeblock);
    StoreKeepsData(fs, owner, k, s, freeblock);
    forall m: nat | fs.sb.bmapstart <= m < fs.sb.nmeta
      ensures Store(fs, k, s, freeblock).blocks[m] == ZeroBlock()
    {
      StoreKeepsMeta(fs, owner, k, s, freeblock, m);
    }
  }

  /** A new inode has no blocks. */
  lemma BuildInode(fs: Fs, owner: map<nat, Place>, freeblock: nat)
    requires Building(fs, owner, freeblock)
    ensures Building(fs.(inodes := fs.inodes + [Inode(seq(NDIRECT + 2, _ => 0), 0)]), owner, freeblock)
  {
    var fs' := fs.(inodes := fs.inodes + [Inode(seq(NDIRECT + 2, _ => 0), 0)]);
    assert Shape(fs');
    forall k: nat, s | ValidPlace(fs', k, s)
      ensures AtPlace(fs', k, s) == if k < |fs.inodes| then AtPlace(fs, k, s) else 0
    {
    }
  }

  lemma BuildData(fs: Fs, owner: map<nat, Place>, freeblock: nat, b: nat, data: Block)
    requires Building(fs, owner, freeblock) && b in owner && !IsTable(owner[b].s)
    ensures Building(WriteBlock(fs, b, data), owner, freeblock)
  {
    WriteKeepsTrees(fs, owner, b, data);
  }

  // ---------- How many blocks a file takes ----------

  /** Is slot s on the way to slot t, or t itself? */
  predicate OnPath(s: Slot, t: Slot) {
    s == t || (t.IndEntry? && s.Ind?) || (t.DblEntry? && (s.Dbl? || s == DblTab(t.i)))
  }

  function Absent(fs: Fs, k: nat, s: Slot): (n: nat)
    requires Shape(fs) && ValidPlace(fs, k, s)
  {
    if AtPlace(fs, k, s) == 0 then 1 else 0
  }

  /** How many blocks are missing on the way to slot s, its own included */
  function Missing(fs: Fs, k: nat, s: Slot): (n: nat)
    requires Shape(fs) && ValidPlace(fs, k, s)
  {
    match s
    case IndEntry(i) => Absent(fs, k, Ind) + Absent(fs, k, s)
    case DblEntry(i, j) => Absent(fs, k, Dbl) + Absent(fs, k, DblTab(i)) + Absent(fs, k, s)
    case _ => Absent(fs, k, s)
  }

  /** A slot of inode k has a block afterwards exactly if it had one or is on the way to t. */
  ghost predicate FilledTo(fs: Fs, fs': Fs, k: nat, t: Slot) {
    && Shape(fs) && Shape(fs') && k < |fs.inodes| && k < |fs'.inodes|
    && forall s :: ValidSlot(s) ==> (AtPlace(fs', k, s) != 0 <==> AtPlace(fs, k, s) != 0 || OnPath(s, t))
  }

  /** The same without t itself */
  ghost predicate FilledBefore(fs: Fs, fs': Fs, k: nat, t: Slot) {
    && Shape(fs) && Shape(fs') && k < |fs.inodes| && k < |fs'.inodes|
    && forall s :: ValidSlot(s) ==> (AtPlace(fs', k, s) != 0 <==> AtPlace(fs, k, s) != 0 || (OnPath(s, t) && s != t))
  }

  /** The same for slot t alone */
  ghost predicate FilledIn(fs: Fs, fs': Fs, k: nat, t: Slot) {
    && Shape(fs) && Shape(fs') && k < |fs.inodes| && k < |fs'.inodes|
    && forall s :: ValidSlot(s) ==> (AtPlace(fs', k, s) != 0 <==> AtPlace(fs, k, s) != 0 || s == t)
  }

  lemma StoreFills(fs: Fs, owner: map<nat, Place>, k: nat, s: Slot, b: nat)
    requires Linkable(fs, owner, k, s, b)
    ensures FilledIn(fs, Store(fs, k, s, b), k, s)
  {
    forall s' | ValidSlot(s')
      ensures AtPlace(Store(fs, k, s, b), k, s') == if s' == s then b else AtPlace(fs, k, s')
    {
      StoreAt(fs, owner, k, s, b, k, s');
    }
  }

  lemma SlotOther(f0: Fs, f1: Fs, k: nat, t: Slot, s: Slot)
    requires FilledIn(f0, f1, k, t) && ValidSlot(s) && s != t
    ensures Absent(f1, k, s) == Absent(f0, k, s)
  {
  }

  lemma FillTwo(f0: Fs, f1: Fs, f2: Fs, k: nat, t: Slot)
    requires t.DblEntry? && ValidSlot(t) && FilledIn(f0, f1, k, Dbl) && FilledIn(f1, f2, k, DblTab(t.i))
    ensures FilledBefore(f0, f2, k, t)
  {
  }

  lemma FillLast(f0: Fs, f1: Fs, f2: Fs, k: nat, t: Slot)
    requires ValidSlot(t) && FilledBefore(f0, f1, k, t) && FilledIn(f1, f2, k, t)
    ensures Absent(f1, k, t) == Absent(f0, k, t) && FilledTo(f0, f2, k, t)
  {
    assert AtPlace(f1, k, t) != 0 <==> AtPlace(f0, k, t) != 0;
  }

  /** Does a file of m blocks have a block in slot s? */
  predicate Within(s: Slot, m: nat) {
    match s
    case Direct(i) => i < m
    case Ind => 11 < m
    case IndEntry(i) => 11 + i < m
    case Dbl => 267 < m
    case DblTab(i) => 267 + 256 * i < m
    case DblEntry(i, j) => 267 + 256 * i + j < m
  }

  /** Inode k has the slots of a file of m blocks. */
  ghost predicate Trim(fs: Fs, k: nat, m: nat)
    requires Shape(fs) && k < |fs.inodes|
  {
    forall s :: ValidSlot(s) ==> (AtPlace(fs, k, s) != 0 <==> Within(s, m))
  }

  /** Blocks and tables of a file of m blocks */
  function Cost(m: nat): (n: nat) {
    m + (if 11 < m then 1 else 0) + (if 267 < m then 1 + (m - 267 + 255) / 256 else 0)
  }

  lemma CostMonotone(m: nat, n: nat)
    requires m <= n
    ensures Cost(m) <= Cost(n)
  {
  }

  /** What a file of m blocks lacks on the way to block bn, its next one or an earlier one */
  lemma TrimMissing(fs: Fs, k: nat, m: nat, bn: nat)
    requires Shape(fs) && k < |fs.inodes| && Trim(fs, k, m) && bn <= m && bn < MAXFILE
    ensures Missing(fs, k, DataSlot(bn)) == Cost(Max(m, bn + 1)) - Cost(m)
  {
    var s := DataSlot(bn);
    assert AtPlace(fs, k, s) != 0 <==> Within(s, m);
    assert AtPlace(fs, k, Ind) != 0 <==> Within(Ind, m);
    assert AtPlace(fs, k, Dbl) != 0 <==> Within(Dbl, m);
    if s.DblEntry? {
      assert AtPlace(fs, k, DblTab(s.i)) != 0 <==> Within(DblTab(s.i), m);
      assert bn == 267 + 256 * s.i + s.j;
    }
  }

  lemma TrimFilled(fs: Fs, fs': Fs, k: nat, m: nat, bn: nat)
    requires bn <= m && bn < MAXFILE && FilledTo(fs, fs', k, DataSlot(bn)) && Trim(fs, k, m)
    ensures Trim(fs', k, Max(m, bn + 1))
  {
    forall s | ValidSlot(s)
      ensures AtPlace(fs', k, s) != 0 <==> Within(s, Max(m, bn + 1))
    {
      WithinNext(s, m, bn);
    }
  }

  lemma WithinNext(s: Slot, m: nat, bn: nat)
    requires ValidSlot(s) && bn <= m && bn < MAXFILE
    ensures Within(s, Max(m, bn + 1)) <==> Within(s, m) || OnPath(s, DataSlot(bn))
  {
  }

  /** Every inode has the slots that its size calls for; behind a quantifier to keep the slots folded. */
  ghost predicate Trimmed(fs: Fs) {
    forall x :: x == fs ==> TrimmedIn(x)
  }

  ghost predicate TrimmedIn(fs: Fs) {
    Shape(fs) && forall k :: 0 <= k < |fs.inodes| ==> Trim(fs, k, BlocksFor(fs.inodes[k].size))
  }

  /** The same while inode k grows: it has the slots of a file of m blocks. */
  ghost predicate Laid(fs: Fs, k: nat, m: nat) {
    && Shape(fs) && k < |fs.inodes| && Trim(fs, k, m)
    && forall x :: 0 <= x < |fs.inodes| && x != k ==> Trim(fs, x, BlocksFor(fs.inodes[x].size))
  }

  /** Trim depends on the block entries only. */
  lemma TrimSame(fs: Fs, fs': Fs, k: nat, m: nat)
    requires Shape(fs) && Shape(fs') && k < |fs.inodes| && k < |fs'.inodes| && Trim(fs, k, m)
    requires forall s :: ValidSlot(s) ==> AtPlace(fs', k, s) == AtPlace(fs, k, s)
    ensures Trim(fs', k, m)
  {
  }

  lemma LaidGrows(f1: Fs, o1: map<nat, Place>, f2: Fs, o2: map<nat, Place>, k: nat, m: nat, bn: nat)
    requires Laid(f1, k, m) && Grows(f1, o1, f2, o2, k)
    requires bn <= m && bn < MAXFILE && FilledTo(f1, f2, k, DataSlot(bn))
    ensures Laid(f2, k, Max(m, bn + 1))
  {
    TrimFilled(f1, f2, k, m, bn);
    forall x | 0 <= x < |f2.inodes| && x != k
      ensures Trim(f2, x, BlocksFor(f2.inodes[x].size))
    {
      GrowsTrim(f1, o1, f2, o2, k, x);
    }
  }

  lemma GrowsTrim(f1: Fs, o1: map<nat, Place>, f2: Fs, o2: map<nat, Place>, k: nat, x: nat)
    requires Grows(f1, o1, f2, o2, k) && x != k && x < |f1.inodes| && Trim(f1, x, BlocksFor(f1.inodes[x].size))
    ensures Trim(f2, x, BlocksFor(f2.inodes[x].size))
  {
    forall s | ValidSlot(s)
      ensures AtPlace(f2, x, s) == AtPlace(f1, x, s)
    {
      assert ValidPlace(f1, x, s);
    }
    TrimSame(f1, f2, x, BlocksFor(f1.inodes[x].size));
  }

  lemma LaidWrite(fs: Fs, owner: map<nat, Place>, b: nat, data: Block, k: nat, m: nat)
    requires Laid(fs, k, m) && Trees(fs, owner) && b < |fs.blocks| && NotTable(owner, b)
    ensures Laid(WriteBlock(fs, b, data), k, m)
  {
    forall x | 0 <= x < |fs.inodes|
      ensures Trim(WriteBlock(fs, b, data), x, if x == k then m else BlocksFor(fs.inodes[x].size))
    {
      forall s | ValidSlot(s)
        ensures AtPlace(WriteBlock(fs, b, data), x, s) == AtPlace(fs, x, s)
      {
        WriteKeepsAt(fs, owner, b, data, x, s);
      }
      TrimSame(fs, WriteBlock(fs, b, data), x, if x == k then m else BlocksFor(fs.inodes[x].size));
    }
  }

  lemma LaidSize(fs: Fs, k: nat, size: nat)
    requires Laid(fs, k, BlocksFor(size))
    ensures Trimmed(SetSize(fs, k, size))
  {
    var fs' := SetSize(fs, k, size);
    assert Shape(fs');
    forall x | 0 <= x < |fs'.inodes|
      ensures Trim(fs', x, BlocksFor(fs'.inodes[x].size))
    {
      forall s | ValidSlot(s)
        ensures AtPlace(fs', x, s) == AtPlace(fs, x, s)
      {
        SetSizeAt(fs, k, size, x, s);
      }
      TrimSame(fs, fs', x, BlocksFor(fs'.inodes[x].size));
    }
    assert TrimmedIn(fs');
  }

  lemma TrimmedInode(fs: Fs)
    requires Trimmed(fs)
    ensures Trimmed(fs.(inodes := fs.inodes + [Inode(seq(NDIRECT + 2, _ => 0), 0)]))
  {
    assert TrimmedIn(fs);
    var fs' := fs.(inodes := fs.inodes + [Inode(seq(NDIRECT + 2, _ => 0), 0)]);
    assert Shape(fs');
    forall k | 0 <= k < |fs'.inodes|
      ensures Trim(fs', k, BlocksFor(fs'.inodes[k].size))
    {
      if k < |fs.inodes| {
        TrimSame(fs, fs', k, BlocksFor(fs.inodes[k].size));
      }
    }
    assert TrimmedIn(fs');
  }

  /** The blocks of a file after one more chunk */
  lemma ChunkBlocks(off: nat, n: nat, now: nat)
    requires n < now && now - n <= BSIZE - (off + n) % BSIZE
    ensures (off + n) / BSIZE <= BlocksFor(off + n)
    ensures Max(BlocksFor(off + n), (off + n) / BSIZE + 1) == BlocksFor(off + now)
  {
  }

  // ---------- The free map ----------

  /** The bits below n of a block that starts out zero. */
  function FirstBits(n: nat): (b: Block)
    requires n <= BITS
  {
    if n == 0 then ZeroBlock() else SetBit(FirstBits(n - 1), n - 1)
  }

  lemma {:induction false} ZeroBit(k: nat)
    ensures !Bit(0, k)
  {
    if k > 0 {
      ZeroBit(k - 1);
    }
  }

  lemma {:induction false} FirstBitsAt(n: nat, i: nat)
    requires n <= BITS && i < BITS
    ensures GetBit(FirstBits(n), i) <==> i < n
  {
    if n == 0 {
      ZeroBit(i % 8);
    } else {
      FirstBitsAt(n - 1, i);
      GetSetBit(FirstBits(n - 1), n - 1, i);
    }
  }

  /** The finished image is a consistent file system. */
  lemma BitmapFinishes(fs: Fs, owner: map<nat, Place>, freeblock: nat)
    requires Building(fs, owner, freeblock)
    ensures fs.sb.bmapstart < |fs.blocks|
    ensures Consistent(WriteBlock(fs, fs.sb.bmapstart, FirstBits(freeblock)), owner)
  {
    BitInMeta(fs, 0);
    var fs' := WriteBlock(fs, fs.sb.bmapstart, FirstBits(freeblock));
    WriteKeepsTrees(fs, owner, fs.sb.bmapstart, FirstBits(freeblock));
    forall b: nat | b < fs.sb.size
      ensures BitOk(fs', b) && (Used(fs', b) <==> b < freeblock)
    {
      BitInMeta(fs, b);
      if b < BITS {
        FirstBitsAt(freeblock, b);
      } else {
        ZeroBit(b % BITS % 8);
      }
    }
  }

  function ZeroBlocks(n: nat): (r: seq<Block>)
    ensures |r| == n && forall b :: 0 <= b < n ==> r[b] == ZeroBlock()
  {
    if n == 0 then [] else ZeroBlocks(n - 1) + [ZeroBlock()]
  }

  class Image {
    const sb: Super
    var blocks: seq<Block>
    var inodes: seq<Inode>
    var freeblock: nat
    ghost var owner: map<nat, Place>

    ghost function State(): (fs: Fs)
      reads this
    {
      Fs(sb, blocks, inodes)
    }

    ghost predicate Valid()
      reads this
    {
      Building(State(), owner, freeblock)
    }

    /** A sparse file, made by writing its last byte; inode 0 is never used. */
    constructor (sb: Super)
      requires sb.Valid() && sb.size > BITS && sb.nmeta < BITS
      ensures Valid() && this.sb == sb && inodes == [Inode(seq(NDIRECT + 2, _ => 0), 0)] && freeblock == sb.nmeta
      ensures Trimmed(State())
    {
      this.sb := sb;
      blocks := ZeroBlocks(sb.size)[sb.size - 1 := ZeroBlock()[BSIZE - 1 := 36]];
      inodes := [Inode(seq(NDIRECT + 2, _ => 0), 0)];
      freeblock := sb.nmeta;
      owner := map[];
      new;
      assert forall k: nat, s :: ValidPlace(State(), k, s) ==> AtPlace(State(), k, s) == 0;
      assert TrimmedIn(State());
    }

    method AllocInode() returns (k: nat)
      requires Valid()
      modifies this`inodes
      ensures Valid() && k == |old(inodes)| && inodes == old(inodes) + [Inode(seq(NDIRECT + 2, _ => 0), 0)]
      ensures Trimmed(old(State())) ==> Trimmed(State())
    {
      if Trimmed(State()) {
        TrimmedInode(State());
      }
      BuildInode(State(), owner, freeblock);
      k := |inodes|;
      inodes := inodes + [Inode(seq(NDIRECT + 2, _ => 0), 0)];
    }

    /**
     The block of slot s, taking the next free block if there is none; 0 if that
     would make the final assertion freeblock < BITS fail.
     */
    method Fill(k: nat, s: Slot) returns (addr: nat)
      requires Valid() && ValidPlace(State(), k, s) && HasTable(State(), k, s)
      modifies this
      ensures Valid() && Grows(old(State()), old(owner), State(), owner, k)
      ensures addr == AtPlace(State(), k, s)
      ensures addr == 0 <==> old(freeblock) + Absent(old(State()), k, s) >= BITS
      ensures addr != 0 ==>
                freeblock == old(freeblock) + Absent(old(State()), k, s) && FilledIn(old(State()), State(), k, s)
    {
      addr := AtPlace(Fs(sb, blocks, inodes), k, s);
      GrowsRefl(State(), owner, k);
      if addr == 0 && freeblock + 1 < BITS {
        BuildStore(State(), owner, freeblock, k, s);
        StoreFills(State(), owner, k, s, freeblock);
        addr := freeblock;
        var fs' := Store(Fs(sb, blocks, inodes), k, s, freeblock);
        blocks := fs'.blocks;
        inodes := fs'.inodes;
        owner := owner[freeblock := Place(k, s)];
        freeblock := freeblock + 1;
      }
    }

    /** The disk block of the bn-th block of inode k, allocating it and its tables if need be. */
    method Bitmap(k: nat, bn: nat) returns (addr: nat)
      requires Valid() && k < |inodes| && bn < MAXFILE
      modifies this
      ensures Valid() && Grows(old(State()), old(owner), State(), owner, k)
      ensures addr != 0 ==> addr == AtPlace(State(), k, DataSlot(bn)) && addr in owner && !IsTable(owner[addr].s)
      ensures addr == 0 <==> old(freeblock) + Missing(old(State()), k, DataSlot(bn)) >= BITS
      ensures addr != 0 ==>
                && freeblock == old(freeblock) + Missing(old(State()), k, DataSlot(bn))
                && FilledTo(old(State()), State(), k, DataSlot(bn))
    {
      ghost var f0, o0 := State(), owner;
      var s := DataSlot(bn);
      if bn < NDIRECT {
        addr := Fill(k, s);
        return;
      }
      addr := FillTables(k, s);
      if addr == 0 {
        return;
      }
      ghost var f2, o2 := State(), owner;
      addr := Fill(k, s);
      GrowsTrans(f0, o0, f2, o2, State(), owner, k);
      if addr != 0 {
        FillLast(f0, f2, State(), k, s);
      }
    }

    /** FillTables for a block under the doubly-indirect one */
    method FillDouble(k: nat, s: Slot) returns (addr: nat)
      requires Valid() && ValidPlace(State(), k, s) && s.DblEntry?
      modifies this
      ensures Valid() && Grows(old(State()), old(owner), State(), owner, k)
      ensures addr != 0 ==> addr == AtPlace(State(), k, DblTab(s.i))
      ensures addr == 0 <==>
              old(freeblock) + Absent(old(State()), k, Dbl) + Absent(old(State()), k, DblTab(s.i)) >= BITS
      ensures addr != 0 ==>
                && freeblock == old(freeblock) + Absent(old(State()), k, Dbl) + Absent(old(State()), k, DblTab(s.i))
                && FilledBefore(old(State()), State(), k, s)
    {
      ghost var f0, o0 := State(), owner;
      addr := Fill(k, Dbl);
      if addr != 0 {
        ghost var f1, o1 := State(), owner;
        SlotOther(f0, f1, k, Dbl, DblTab(s.i));
        addr := Fill(k, DblTab(s.i));
        if addr != 0 {
          FillTwo(f0, f1, State(), k, s);
        }
        GrowsTrans(f0, o0, f1, o1, State(), owner, k);
      }
    }

    /** The tables on the way to slot s; returns the last one, or 0. */
    method FillTables(k: nat, s: Slot) returns (addr: nat)
      requires Valid() && ValidPlace(State(), k, s) && (s.IndEntry? || s.DblEntry?)
      modifies this
      ensures Valid() && Grows(old(State()), old(owner), State(), owner, k)
      ensures addr != 0 ==> HasTable(State(), k, s)
      ensures addr == 0 <==> old(freeblock) + Missing(old(State()), k, s) - Absent(old(State()), k, s) >= BITS
      ensures addr != 0 ==>
                && freeblock == old(freeblock) + Missing(old(State()), k, s) - Absent(old(State()), k, s)
                && FilledBefore(old(State()), State(), k, s)
    {
      if s.IndEntry? {
        addr := Fill(k, Ind);
      } else {
        addr := FillDouble(k, s);
      }
    }

    /** Append buf to inode k; ok exactly if there are sectors for its new blocks and tables. */
    method Append(k: nat, buf: seq<Byte>) returns (ok: bool)
      requires Valid() && NoHoles(State()) && 0 < k < |inodes| && inodes[k].size + |buf| <= MAXBYTES
      requires Trimmed(State())
      modifies this
      ensures Valid()
      ensures ok <==> old(freeblock) + NewBlocks(old(inodes)[k].size, |buf|) < BITS
      ensures ok ==>
                && freeblock == old(freeblock) + NewBlocks(old(inodes)[k].size, |buf|)
                && NoHoles(State()) && Trimmed(State()) && |inodes| == |old(inodes)|
                && Contents(State(), k) == old(Contents(State(), k)) + buf
                && (forall k' :: 0 <= k' < |inodes| && k' != k ==> Contents(State(), k') == old(Contents(State(), k')))
    {
      ghost var f0 := State();
      var off := inodes[k].size;
      WrittenStart(f0, k, off, buf);
      assert TrimmedIn(f0);
      assert GrowingIn(this, f0, k, off, buf, 0, freeblock);
      ok := AppendLoop(f0, k, off, buf, freeblock);
      if ok {
        Enlarged(this, f0, k, off, buf, old(freeblock));
        StoreSize(k, off + |buf|);
      }
    }

    /** inodeAppend's loop. */
    method AppendLoop(ghost f0: Fs, k: nat, off: nat, buf: seq<Byte>, ghost fb: nat) returns (ok: bool)
      requires Growing(this, f0, k, off, buf, 0, fb)
      modifies this
      ensures Valid()
      ensures if ok then Growing(this, f0, k, off, buf, |buf|, fb) else fb + NewBlocks(off, |buf|) >= BITS
    {
      ok := true;
      var n := 0;
      while n < |buf|
        invariant n <= |buf| && Growing(this, f0, k, off, buf, n, fb)
      {
        var now := ChunkEnd(off, |buf|, n);
        ok := AppendChunk(f0, k, off, buf, n, now, fb);
        if !ok {
          return;
        }
        n := now;
      }
      assert GrowingIn(this, f0, k, off, buf, n, fb);
    }

    method AppendChunk(ghost f0: Fs, k: nat, off: nat, buf: seq<Byte>, n: nat, now: nat, ghost fb: nat)
      returns (ok: bool)
      requires Growing(this, f0, k, off, buf, n, fb)
      requires n < now <= |buf| && now - n <= BSIZE - (off + n) % BSIZE
      modifies this
      ensures Valid()
      ensures if ok then Growing(this, f0, k, off, buf, now, fb) else fb + NewBlocks(off, |buf|) >= BITS
    {
      assert GrowingIn(this, f0, k, off, buf, n, fb);
      NewBlocksSum(off, n, now, |buf|);
      var block := MapForAppend(f0, k, off, buf, n, now);
      ok := block != 0;
      if ok {
        CopySector(f0, k, off, buf, n, now, block);
        assert GrowingIn(this, f0, k, off, buf, now, fb);
      }
    }

    method MapForAppend(ghost f0: Fs, k: nat, off: nat, buf: seq<Byte>, n: nat, ghost now: nat) returns (block: nat)
      requires Appending(this, f0, k, off, buf, n) && n < now <= |buf| && now - n <= BSIZE - (off + n) % BSIZE
      requires Laid(State(), k, BlocksFor(off + n))
      modifies this
      ensures Appending(this, f0, k, off, buf, n)
      ensures block == 0 <==> old(freeblock) + NewBlocks(off + n, now - n) >= BITS
      ensures block != 0 ==>
                && freeblock == old(freeblock) + NewBlocks(off + n, now - n)
                && Laid(State(), k, BlocksFor(off + now))
      ensures block != 0 ==>
                && block == AtPlace(State(), k, DataSlot((off + n) / BSIZE))
                && block in owner && !IsTable(owner[block].s)
    {
      ghost var f1, o1 := State(), owner;
      ChunkBlocks(off, n, now);
      TrimMissing(f1, k, BlocksFor(off + n), (off + n) / BSIZE);
      block := Bitmap(k, (off + n) / BSIZE);
      WrittenGrows(f0, f1, o1, State(), owner, k, off, buf, n);
      if block != 0 {
        LaidGrows(f1, o1, State(), owner, k, BlocksFor(off + n), (off + n) / BSIZE);
      }
    }

    method CopySector(ghost f0: Fs, k: nat, off: nat, buf: seq<Byte>, n: nat, now: nat, block: nat)
      requires Appending(this, f0, k, off, buf, n) && n < now <= |buf| && now - n <= BSIZE - (off + n) % BSIZE
      requires block == AtPlace(State(), k, DataSlot((off + n) / BSIZE)) && block in owner && !IsTable(owner[block].s)
      requires Laid(State(), k, BlocksFor(off + now))
      modifies this`blocks
      ensures Appending(this, f0, k, off, buf, now) && Laid(State(), k, BlocksFor(off + now))
    {
      ghost var fs, o := State(), owner;
      LaidWrite(fs, o, block, PutChunk(blocks[block], (off + n) % BSIZE, buf[n..now]), k, BlocksFor(off + now));
      WriteSector(block, PutChunk(blocks[block], (off + n) % BSIZE, buf[n..now]));
      WrittenChunk(f0, fs, o, k, off, buf, n, now, block, State());
    }

    method StoreSize(k: nat, size: nat)
      requires Valid() && k < |inodes|
      modifies this`inodes
      ensures Valid() && State() == SetSize(old(State()), k, size)
    {
      BuildSize(State(), owner, freeblock, k, size);
      inodes := inodes[k := inodes[k].(size := size)];
    }

    method WriteSector(b: nat, data: Block)
      requires Valid() && b in owner && !IsTable(owner[b].s)
      modifies this`blocks
      ensures Valid() && State() == WriteBlock(old(State()), b, data)
    {
      BuildData(State(), owner, freeblock, b, data);
      blocks := blocks[b := data];
    }

    /** Write the free map: the image is now a consistent file system. */
    method WriteBitmap()
      requires Valid()
      modifies this`blocks
      ensures Consistent(State(), owner)
      ensures State() == WriteBlock(old(State()), sb.bmapstart, FirstBits(freeblock))
    {
      BitmapFinishes(State(), owner, freeblock);
      var buf := ZeroBlock();
      var i := 0;
      while i < freeblock
        invariant i <= freeblock && buf == FirstBits(i)
      {
        buf := SetBit(buf, i);
        i := i + 1;
      }
      blocks := blocks[sb.bmapstart := buf];
    }
  }

  /** Writing at the end of a file is appending. */
  lemma AppendIsConcat(f0: Fs, fs: Fs, k: nat, buf: seq<Byte>)
    requires Shape(f0) && NoHoles(f0) && Shape(fs) && |fs.inodes| == |f0.inodes| && k < |fs.inodes|
    requires f0.inodes[k].size + |buf| <= MAXBYTES && Written(f0, fs, k, f0.inodes[k].size, buf, |buf|)
    ensures var fs' := SetSize(fs, k, f0.inodes[k].size + |buf|);
            && Shape(fs') && NoHoles(fs')
            && Contents(fs', k) == Contents(f0, k) + buf
            && forall k' :: 0 <= k' < |f0.inodes| && k' != k ==> Contents(fs', k') == Contents(f0, k')
  {
    WrittenIsSplice(f0, fs, k, f0.inodes[k].size, buf, |buf|);
    SpliceAtEnd(Contents(f0, k), buf);
  }

  lemma SpliceAtEnd(c: seq<Byte>, buf: seq<Byte>)
    ensures Splice(c, |c|, buf[..|buf|]) == c + buf
  {
    assert c[..|c|] == c && buf[..|buf|] == buf;
  }

  lemma BuildSize(fs: Fs, owner: map<nat, Place>, freeblock: nat, k: nat, size: nat)
    requires Building(fs, owner, freeblock) && k < |fs.inodes|
    ensures Building(SetSize(fs, k, size), owner, freeblock)
  {
    var fs' := SetSize(fs, k, size);
    assert Shape(fs');
    forall k': nat, s | ValidPlace(fs, k', s)
      ensures AtPlace(fs', k', s) == AtPlace(fs, k', s)
    {
      SetSizeAt(fs, k, size, k', s);
    }
  }

  /** What inodeAppend's loop keeps. */
  ghost predicate Appending(d: Image, f0: Fs, k: nat, off: nat, buf: seq<Byte>, n: nat)
    reads d
  {
    && d.Valid() && Shape(f0) && |d.inodes| == |f0.inodes| && k < |d.inodes|
    && off == f0.inodes[k].size && off + |buf| <= MAXBYTES && n <= |buf|
    && Written(f0, d.State(), k, off, buf, n)
  }

  /** Blocks and tables that a file of `off` bytes needs for n more bytes */
  function NewBlocks(off: nat, n: nat): (r: int) {
    Cost(BlocksFor(off + n)) - Cost(BlocksFor(off))
  }

  lemma NewBlocksSum(off: nat, n: nat, now: nat, all: nat)
    requires n <= now <= all
    ensures NewBlocks(off, now) == NewBlocks(off, n) + NewBlocks(off + n, now - n) <= NewBlocks(off, all)
  {
    CostMonotone(BlocksFor(off + now), BlocksFor(off + all));
  }

  /** inodeAppend's last step, the new size */
  lemma Enlarged(d: Image, f0: Fs, k: nat, off: nat, buf: seq<Byte>, fb: nat)
    requires Shape(f0) && NoHoles(f0) && k < |f0.inodes| && Growing(d, f0, k, off, buf, |buf|, fb)
    ensures d.Valid() && d.freeblock == fb + NewBlocks(off, |buf|) && |d.inodes| == |f0.inodes|
    ensures var fs' := SetSize(d.State(), k, off + |buf|);
            && Shape(fs') && NoHoles(fs') && Trimmed(fs')
            && Contents(fs', k) == Contents(f0, k) + buf
            && forall k' :: 0 <= k' < |f0.inodes| && k' != k ==> Contents(fs', k') == Contents(f0, k')
  {
    assert GrowingIn(d, f0, k, off, buf, |buf|, fb);
    EnlargedFs(f0, d.State(), k, off, buf);
  }

  lemma EnlargedFs(f0: Fs, fs: Fs, k: nat, off: nat, buf: seq<Byte>)
    requires Shape(f0) && NoHoles(f0) && Shape(fs) && |fs.inodes| == |f0.inodes| && k < |fs.inodes|
    requires off == f0.inodes[k].size && off + |buf| <= MAXBYTES && Written(f0, fs, k, off, buf, |buf|)
    requires Laid(fs, k, BlocksFor(off + |buf|))
    ensures var fs' := SetSize(fs, k, off + |buf|);
            && Shape(fs') && NoHoles(fs') && Trimmed(fs')
            && Contents(fs', k) == Contents(f0, k) + buf
            && forall k' :: 0 <= k' < |f0.inodes| && k' != k ==> Contents(fs', k') == Contents(f0, k')
  {
    AppendIsConcat(f0, fs, k, buf);
    LaidSize(fs, k, off + |buf|);
  }

  /** Appending, with the sectors taken since freeblock was fb; behind a quantifier to keep the trees folded */
  ghost predicate Growing(d: Image, f0: Fs, k: nat, off: nat, buf: seq<Byte>, n: nat, fb: nat)
    reads d
  {
    forall b :: b == buf ==> GrowingIn(d, f0, k, off, b, n, fb)
  }

  ghost predicate GrowingIn(d: Image, f0: Fs, k: nat, off: nat, buf: seq<Byte>, n: nat, fb: nat)
    reads d
  {
    && Appending(d, f0, k, off, buf, n) && Laid(d.State(), k, BlocksFor(off + n))
    && d.freeblock == fb + NewBlocks(off, n)
  }
}

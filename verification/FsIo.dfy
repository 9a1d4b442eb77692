/**
 kernel/fs.c: readi and writei, as slicing and splicing one byte sequence.
 */
module FsIo {
  import opened Common
  import opened Blocks
  import opened FsModel
  import opened FsTrees
  import opened FsGrow
  import opened FsCode

  const MAXBYTES: nat := MAXFILE * BSIZE

  function Min(a: nat, b: nat): nat {
    if a < b then a else b
  }

  function Max(a: nat, b: nat): nat {
    if a < b then b else a
  }

  /** c with its part from `off` on overwritten by s, and extended if s reaches further. */
  ghost function Splice(c: seq<Byte>, off: nat, s: seq<Byte>): (r: seq<Byte>)
    requires off <= |c|
  {
    c[..off] + s + (if off + |s| < |c| then c[off + |s|..] else [])
  }

  /** Writing a file's block changes that file's bytes in that block and no others. */
  lemma WriteByteAt(fs: Fs, owner: map<nat, Place>, k: nat, bn: nat, data: Block, k': nat, p: nat)
    requires Shape(fs) && Trees(fs, owner) && k < |fs.inodes| && bn < MAXFILE && AtPlace(fs, k, DataSlot(bn)) != 0
    requires k' < |fs.inodes| && p < MAXBYTES
    ensures AtPlace(fs, k, DataSlot(bn)) < |fs.blocks|
    ensures ByteAt(WriteBlock(fs, AtPlace(fs, k, DataSlot(bn)), data), k', p) ==
            if k' == k && p / BSIZE == bn then data[p % BSIZE] else ByteAt(fs, k', p)
  {
    var b, s := AtPlace(fs, k, DataSlot(bn)), DataSlot(p / BSIZE);
    WriteKeepsAt(fs, owner, b, data, k', s);
    if AtPlace(fs, k', s) == b {
      assert owner[b] == Place(k, DataSlot(bn)) == Place(k', s);
      DataSlotInjective(bn, p / BSIZE);
    }
  }

  /**
   fs is f0 with src[..tot] written to inode k at `off`, in a file that has no hole
   below max(size, off + tot); all other files are as in f0.
   */
  ghost predicate Written(f0: Fs, fs: Fs, k: nat, off: nat, src: seq<Byte>, tot: nat)
    requires Shape(f0) && Shape(fs) && |fs.inodes| == |f0.inodes| && k < |fs.inodes|
    requires off <= f0.inodes[k].size <= MAXBYTES && tot <= |src| && off + tot <= MAXBYTES
  {
    && (forall k' :: 0 <= k' < |f0.inodes| ==> fs.inodes[k'].size == f0.inodes[k'].size)
    && (forall k', p: nat :: 0 <= k' < |f0.inodes| && k' != k && p < f0.inodes[k'].size && p < MAXBYTES ==>
          AtPlace(fs, k', DataSlot(p / BSIZE)) != 0 && ByteAt(fs, k', p) == ByteAt(f0, k', p))
    && (forall p: nat :: p < Max(f0.inodes[k].size, off + tot) ==>
          AtPlace(fs, k, DataSlot(p / BSIZE)) != 0 &&
          ByteAt(fs, k, p) == if off <= p < off + tot then src[p - off] else ByteAt(f0, k, p))
  }

  /** A position below the size lies in a mapped block. */
  lemma MappedByte(fs: Fs, k: nat, p: nat)
    requires Shape(fs) && NoHoles(fs) && k < |fs.inodes| && p < fs.inodes[k].size
    ensures p / BSIZE < MAXFILE && AtPlace(fs, k, DataSlot(p / BSIZE)) != 0
  {
    assert FileOk(fs, k) && p / BSIZE < BlocksFor(fs.inodes[k].size);
  }

  lemma WrittenStart(fs: Fs, k: nat, off: nat, src: seq<Byte>)
    requires Shape(fs) && NoHoles(fs) && k < |fs.inodes| && off <= fs.inodes[k].size
    ensures Written(fs, fs, k, off, src, 0)
  {
    forall k', p: nat | 0 <= k' < |fs.inodes| && p < fs.inodes[k'].size && p < MAXBYTES
      ensures AtPlace(fs, k', DataSlot(p / BSIZE)) != 0
    {
      MappedByte(fs, k', p);
    }
  }

  lemma GrowsKeepsByte(f1: Fs, o1: map<nat, Place>, f2: Fs, o2: map<nat, Place>, k: nat, k': nat, p: nat)
    requires Shape(f1) && Trees(f1, o1) && Grows(f1, o1, f2, o2, k)
    requires k' < |f1.inodes| && p < MAXBYTES && AtPlace(f1, k', DataSlot(p / BSIZE)) != 0
    ensures AtPlace(f2, k', DataSlot(p / BSIZE)) != 0 && ByteAt(f2, k', p) == ByteAt(f1, k', p)
  {
    GrowsBytes(f1, o1, f2, o2, k, k', p);
    assert AtPlace(f2, k', DataSlot(p / BSIZE)) == AtPlace(f1, k', DataSlot(p / BSIZE));
  }

  /** What has been written stays written when every mapped byte stays. */
  lemma WrittenStays(f0: Fs, f1: Fs, f2: Fs, k: nat, off: nat, src: seq<Byte>, tot: nat)
    requires Shape(f0) && Shape(f1) && Shape(f2) && |f2.inodes| == |f1.inodes| == |f0.inodes| && k < |f1.inodes|
    requires off <= f0.inodes[k].size <= MAXBYTES && tot <= |src| && off + tot <= MAXBYTES
    requires Written(f0, f1, k, off, src, tot)
    requires forall k' :: 0 <= k' < |f1.inodes| ==> f2.inodes[k'].size == f1.inodes[k'].size
    requires forall k', p: nat :: 0 <= k' < |f1.inodes| && p < MAXBYTES && AtPlace(f1, k', DataSlot(p / BSIZE)) != 0 ==>
               AtPlace(f2, k', DataSlot(p / BSIZE)) != 0 && ByteAt(f2, k', p) == ByteAt(f1, k', p)
    ensures Written(f0, f2, k, off, src, tot)
  {
  }

  /** bmap keeps what has been written so far. */
  lemma WrittenGrows(f0: Fs, f1: Fs, o1: map<nat, Place>, f2: Fs, o2: map<nat, Place>, k: nat, off: nat,
                     src: seq<Byte>, tot: nat)
    requires Shape(f0) && Shape(f1) && |f1.inodes| == |f0.inodes| && k < |f1.inodes|
    requires off <= f0.inodes[k].size <= MAXBYTES && tot <= |src| && off + tot <= MAXBYTES
    requires Written(f0, f1, k, off, src, tot) && Trees(f1, o1) && Grows(f1, o1, f2, o2, k)
    ensures Written(f0, f2, k, off, src, tot)
  {
    forall k', p: nat | 0 <= k' < |f1.inodes| && p < MAXBYTES && AtPlace(f1, k', DataSlot(p / BSIZE)) != 0
      ensures AtPlace(f2, k', DataSlot(p / BSIZE)) != 0 && ByteAt(f2, k', p) == ByteAt(f1, k', p)
    {
      GrowsKeepsByte(f1, o1, f2, o2, k, k', p);
    }
    WrittenStays(f0, f1, f2, k, off, src, tot);
  }

  /** The data block after the next chunk has been copied in. */
  function PutChunk(data: Block, at: nat, chunk: seq<Byte>): (r: Block)
    requires at + |chunk| <= BSIZE
  {
    data[..at] + chunk + data[at + |chunk|..]
  }

  /** Copying the next chunk into its block extends what has been written. */
  lemma WrittenChunk(f0: Fs, fs: Fs, owner: map<nat, Place>, k: nat, off: nat, src: seq<Byte>, tot: nat, now: nat,
                     b: nat, fs': Fs)
    requires Shape(f0) && Shape(fs) && Trees(fs, owner) && |fs.inodes| == |f0.inodes| && k < |fs.inodes|
    requires off <= f0.inodes[k].size <= MAXBYTES && tot < now <= |src| && off + |src| <= MAXBYTES
    requires now - tot <= BSIZE - (off + tot) % BSIZE && Written(f0, fs, k, off, src, tot)
    requires (off + tot) / BSIZE < MAXFILE && b == AtPlace(fs, k, DataSlot((off + tot) / BSIZE)) && 0 < b < |fs.blocks|
    requires fs' == WriteBlock(fs, b, PutChunk(fs.blocks[b], (off + tot) % BSIZE, src[tot..now]))
    ensures Shape(fs') && Written(f0, fs', k, off, src, now)
  {
    var bn := (off + tot) / BSIZE;
    var data := PutChunk(fs.blocks[b], (off + tot) % BSIZE, src[tot..now]);
    forall k', p: nat | 0 <= k' < |fs.inodes| && p < MAXBYTES
      ensures AtPlace(fs', k', DataSlot(p / BSIZE)) == AtPlace(fs, k', DataSlot(p / BSIZE))
      ensures ByteAt(fs', k', p) == if k' == k && p / BSIZE == bn then data[p % BSIZE] else ByteAt(fs, k', p)
    {
      WriteKeepsAt(fs, owner, b, data, k', DataSlot(p / BSIZE));
      WriteByteAt(fs, owner, k, bn, data, k', p);
    }
    forall p: nat | p < Max(f0.inodes[k].size, off + now)
      ensures AtPlace(fs', k, DataSlot(p / BSIZE)) != 0
      ensures ByteAt(fs', k, p) == if off <= p < off + now then src[p - off] else ByteAt(f0, k, p)
    {
      ChunkByte(f0, fs, k, off, src, tot, now, data, p);
    }
  }

  /** One byte of WrittenChunk. */
  lemma ChunkByte(f0: Fs, fs: Fs, k: nat, off: nat, src: seq<Byte>, tot: nat, now: nat, data: Block, p: nat)
    requires Shape(f0) && Shape(fs) && |fs.inodes| == |f0.inodes| && k < |fs.inodes|
    requires off <= f0.inodes[k].size <= MAXBYTES && tot < now <= |src| && off + |src| <= MAXBYTES
    requires now - tot <= BSIZE - (off + tot) % BSIZE && p < Max(f0.inodes[k].size, off + now)
    requires Written(f0, fs, k, off, src, tot)
    requires (off + tot) / BSIZE < MAXFILE && 0 < AtPlace(fs, k, DataSlot((off + tot) / BSIZE)) < |fs.blocks|
    requires data == PutChunk(fs.blocks[AtPlace(fs, k, DataSlot((off + tot) / BSIZE))], (off + tot) % BSIZE,
             src[tot..now])
    ensures AtPlace(fs, k, DataSlot(p / BSIZE)) != 0
    ensures (if p / BSIZE == (off + tot) / BSIZE then data[p % BSIZE] else ByteAt(fs, k, p)) ==
            if off <= p < off + now then src[p - off] else ByteAt(f0, k, p)
  {
    var q, m := off + tot, now - tot;
    if p / BSIZE == q / BSIZE {
      assert q <= p < q + m <==> q % BSIZE <= p % BSIZE < q % BSIZE + m;
    } else {
      assert !(q <= p < q + m);
    }
  }

  /** inode k with its size set. */
  function SetSize(fs: Fs, k: nat, size: nat): (r: Fs)
    requires k < |fs.inodes|
  {
    fs.(inodes := fs.inodes[k := fs.inodes[k].(size := size)])
  }

  lemma SetSizeAt(fs: Fs, k: nat, size: nat, k': nat, s: Slot)
    requires Shape(fs) && k < |fs.inodes| && ValidPlace(fs, k', s)
    ensures Shape(SetSize(fs, k, size)) && AtPlace(SetSize(fs, k, size), k', s) == AtPlace(fs, k', s)
  {
  }

  lemma SetSizeConsistent(fs: Fs, owner: map<nat, Place>, k: nat, size: nat)
    requires Consistent(fs, owner) && k < |fs.inodes|
    ensures Consistent(SetSize(fs, k, size), owner)
  {
    var fs' := SetSize(fs, k, size);
    assert Shape(fs');
    forall k': nat, s | ValidPlace(fs, k', s)
      ensures AtPlace(fs', k', s) == AtPlace(fs, k', s)
    {
      SetSizeAt(fs, k, size, k', s);
    }
    assert Trees(fs', owner);
    assert forall b: nat :: b < fs.sb.size ==> BitOk(fs, b) && Used(fs', b) == Used(fs, b);
  }

  /** When the size is set, the file is the old one with the written part spliced in. */
  lemma WrittenIsSplice(f0: Fs, fs: Fs, k: nat, off: nat, src: seq<Byte>, tot: nat)
    requires Shape(f0) && NoHoles(f0) && Shape(fs) && |fs.inodes| == |f0.inodes| && k < |fs.inodes|
    requires off <= f0.inodes[k].size && tot <= |src| && off + tot <= MAXBYTES
    requires Written(f0, fs, k, off, src, tot)
    ensures var fs' := SetSize(fs, k, Max(f0.inodes[k].size, off + tot));
            && Shape(fs') && NoHoles(fs')
            && Contents(fs', k) == Splice(Contents(f0, k), off, src[..tot])
            && forall k' :: 0 <= k' < |f0.inodes| && k' != k ==> Contents(fs', k') == Contents(f0, k')
  {
    var fs' := SetSize(fs, k, Max(f0.inodes[k].size, off + tot));
    WrittenNoHoles(f0, fs, k, off, src, tot);
    forall k' | 0 <= k' < |f0.inodes| && k' != k
      ensures Contents(fs', k') == Contents(f0, k')
    {
      assert forall p :: 0 <= p < f0.inodes[k'].size ==> ByteAt(fs', k', p) == ByteAt(fs, k', p);
    }
    var c, d := Contents(f0, k), Contents(fs', k);
    assert forall p :: 0 <= p < |d| ==> d[p] == ByteAt(fs, k, p);
  }

  lemma WrittenNoHoles(f0: Fs, fs: Fs, k: nat, off: nat, src: seq<Byte>, tot: nat)
    requires Shape(f0) && NoHoles(f0) && Shape(fs) && |fs.inodes| == |f0.inodes| && k < |fs.inodes|
    requires off <= f0.inodes[k].size && tot <= |src| && off + tot <= MAXBYTES
    requires Written(f0, fs, k, off, src, tot)
    ensures var fs' := SetSize(fs, k, Max(f0.inodes[k].size, off + tot));
            Shape(fs') && NoHoles(fs')
  {
    var fs' := SetSize(fs, k, Max(f0.inodes[k].size, off + tot));
    assert Shape(fs');
    forall k', bn: nat | 0 <= k' < |fs'.inodes| && bn < BlocksFor(fs'.inodes[k'].size)
      ensures AtPlace(fs', k', DataSlot(bn)) != 0
    {
      var p := bn * BSIZE;
      assert p < fs'.inodes[k'].size && p / BSIZE == bn;
      SetSizeAt(fs, k, fs'.inodes[k].size, k', DataSlot(bn));
      assert ByteAt(fs, k', p) == ByteAt(fs, k', p);
    }
  }

  /** A chunk that stays within one block is a slice of the file. */
  lemma ReadChunk(fs: Fs, owner: map<nat, Place>, k: nat, p: nat, m: nat)
    requires Consistent(fs, owner) && NoHoles(fs) && k < |fs.inodes| && p + m <= fs.inodes[k].size
    requires 0 < m <= BSIZE - p % BSIZE
    ensures p / BSIZE < MAXFILE && 0 < AtPlace(fs, k, DataSlot(p / BSIZE)) < |fs.blocks|
    ensures fs.blocks[AtPlace(fs, k, DataSlot(p / BSIZE))][p % BSIZE..p % BSIZE + m] == Contents(fs, k)[p..p + m]
  {
    MappedByte(fs, k, p);
    var u, v := fs.blocks[AtPlace(fs, k, DataSlot(p / BSIZE))][p % BSIZE..p % BSIZE + m], Contents(fs, k)[p..p + m];
    forall i | 0 <= i < m
      ensures u[i] == v[i]
    {
      ChunkIndex(p, i);
    }
  }

  lemma ChunkIndex(p: nat, i: nat)
    requires i < BSIZE - p % BSIZE
    ensures (p + i) / BSIZE == p / BSIZE && (p + i) % BSIZE == p % BSIZE + i
  {
  }

  // ---------- Copies of one chunk after the other ----------

  /** Where the chunk that begins tot bytes after off ends, counted from off: at a block's end or at n */
  function ChunkEnd(off: nat, n: nat, tot: nat): (now: nat)
    requires tot < n
    ensures tot < now <= n && now - tot <= BSIZE - (off + tot) % BSIZE
  {
    tot + Min(n - tot, BSIZE - (off + tot) % BSIZE)
  }

  /** How much of n bytes from off on can be copied, chunk by chunk, when only the first `room` bytes can */
  function WholeChunks(off: nat, n: nat, room: nat): (r: nat)
    ensures r <= n && r <= room
  {
    if n <= room then n
    else if (off + room) / BSIZE * BSIZE <= off then 0
    else (off + room) / BSIZE * BSIZE - off
  }

  /** Chunks begin at off and at block boundaries. */
  predicate Boundary(off: nat, n: nat, tot: nat) {
    tot == 0 || tot == n || (off + tot) % BSIZE == 0
  }

  lemma ChunkFits(off: nat, n: nat, tot: nat, room: nat)
    requires tot < n && Boundary(off, n, tot)
    ensures Boundary(off, n, ChunkEnd(off, n, tot))
    ensures ChunkEnd(off, n, tot) <= room ==> ChunkEnd(off, n, tot) <= WholeChunks(off, n, room)
    ensures tot <= room < ChunkEnd(off, n, tot) ==> tot == WholeChunks(off, n, room)
  {
    var q, e := (off + tot) / BSIZE, ChunkEnd(off, n, tot);
    if e < n {
      assert off + e == (q + 1) * BSIZE;
    }
    assert (off + room) / BSIZE * BSIZE <= off + room < (off + room) / BSIZE * BSIZE + BSIZE;
  }

  /** One round of readi: bmap finds the block there, so nothing is allocated. */
  method ReadBlock(f: FileSystem, k: nat, p: nat, m: nat) returns (chunk: seq<Byte>)
    requires f.Valid() && NoHoles(f.State()) && k < |f.inodes| && p + m <= f.inodes[k].size
    requires 0 < m <= BSIZE - p % BSIZE
    modifies f
    ensures f.State() == old(f.State()) && f.owner == old(f.owner)
    ensures chunk == Contents(f.State(), k)[p..p + m]
  {
    ReadChunk(f.State(), f.owner, k, p, m);
    var addr := f.Bmap(k, p / BSIZE);
    chunk := f.blocks[addr][p % BSIZE..p % BSIZE + m];
  }

  /**
   Read up to n bytes of inode k from `off` on.  The destination accepts `room`
   bytes; a copy beyond that fails and readi returns -1.
   */
  method Readi(f: FileSystem, k: nat, off: nat, n: nat, room: nat) returns (r: int, dst: seq<Byte>)
    requires f.Valid() && NoHoles(f.State()) && k < |f.inodes| && off < TWO32 && n < TWO32
    modifies f
    ensures f.State() == old(f.State()) && f.owner == old(f.owner)
    ensures var c := Contents(f.State(), k);
            if off > |c| || off + n >= TWO32 then r == 0 && dst == []
            else if Min(n, |c| - off) <= room then r == |dst| && dst == c[off..off + Min(n, |c| - off)]
            else r == -1 && dst == c[off..off + WholeChunks(off, Min(n, |c| - off), room)]
  {
    if off > f.inodes[k].size || off + n >= TWO32 {
      return 0, [];
    }
    var want := if off + n > f.inodes[k].size then f.inodes[k].size - off else n;
    var ok;
    ok, dst := ReadLoop(f, k, off, want, room);
    r := if ok then |dst| else -1;
  }

  /** readi's loop; not ok means a copy to the destination failed. */
  method ReadLoop(f: FileSystem, k: nat, off: nat, want: nat, room: nat) returns (ok: bool, dst: seq<Byte>)
    requires f.Valid() && NoHoles(f.State()) && k < |f.inodes| && off + want <= f.inodes[k].size
    modifies f
    ensures f.State() == old(f.State()) && f.owner == old(f.owner)
    ensures |dst| == WholeChunks(off, want, room) && dst == Contents(f.State(), k)[off..off + |dst|]
    ensures ok <==> want <= room
  {
    ghost var c := Contents(f.State(), k);
    ok, dst := true, [];
    while |dst| < want
      invariant |dst| <= want && |dst| <= room && Boundary(off, want, |dst|)
      invariant f.State() == old(f.State()) && f.owner == old(f.owner)
      invariant dst == c[off..off + |dst|]
    {
      ChunkFits(off, want, |dst|, room);
      var m := ChunkEnd(off, want, |dst|) - |dst|;
      var chunk := ReadBlock(f, k, off + |dst|, m);
      if |dst| + m > room {
        return false, dst;
      }
      dst := Append(c, off, dst, chunk);
    }
  }

  /** The next chunk of c, put behind what has been read of it. */
  function Append(ghost c: seq<Byte>, ghost off: nat, dst: seq<Byte>, chunk: seq<Byte>): (r: seq<Byte>)
    requires off + |dst| + |chunk| <= |c|
    requires dst == c[off..off + |dst|] && chunk == c[off + |dst|..off + |dst| + |chunk|]
    ensures |r| == |dst| + |chunk| && r == c[off..off + |r|]
  {
    dst + chunk
  }

  /** What writei's loop keeps. */
  ghost predicate Writing(f: FileSystem, f0: Fs, k: nat, off: nat, src: seq<Byte>, tot: nat)
    reads f
  {
    && f.Valid() && Shape(f0) && |f.inodes| == |f0.inodes| && k < |f.inodes|
    && off <= f0.inodes[k].size <= MAXBYTES && off + |src| <= MAXBYTES && tot <= |src|
    && Written(f0, f.State(), k, off, src, tot)
  }

  /** writei's call of bmap, in the middle of a write. */
  method MapForWrite(f: FileSystem, ghost f0: Fs, k: nat, off: nat, ghost src: seq<Byte>, tot: nat) returns (addr: nat)
    requires Writing(f, f0, k, off, src, tot) && tot < |src|
    modifies f
    ensures Writing(f, f0, k, off, src, tot)
    ensures addr == AtPlace(f.State(), k, DataSlot((off + tot) / BSIZE))
    ensures addr == 0 ==> f.Full()
    ensures addr != 0 ==> addr in f.owner && !IsTable(f.owner[addr].s)
  {
    ghost var f1, o1 := f.State(), f.owner;
    addr := f.Bmap(k, (off + tot) / BSIZE);
    WrittenGrows(f0, f1, o1, f.State(), f.owner, k, off, src, tot);
  }

  /** Copy src[tot..now] into its block. */
  method CopyChunk(f: FileSystem, ghost f0: Fs, k: nat, off: nat, src: seq<Byte>, tot: nat, now: nat, addr: nat)
    requires Writing(f, f0, k, off, src, tot) && tot < now <= |src| && now - tot <= BSIZE - (off + tot) % BSIZE
    requires addr == AtPlace(f.State(), k, DataSlot((off + tot) / BSIZE))
    requires addr in f.owner && !IsTable(f.owner[addr].s)
    modifies f`blocks
    ensures Writing(f, f0, k, off, src, now)
  {
    ghost var fs, owner := f.State(), f.owner;
    f.PutData(addr, PutChunk(f.blocks[addr], (off + tot) % BSIZE, src[tot..now]));
    WrittenChunk(f0, fs, owner, k, off, src, tot, now, addr, f.State());
  }

  /** One round of writei's loop: `now` is the new tot; it stays the same when writei has to stop. */
  method WriteRound(f: FileSystem, ghost f0: Fs, k: nat, off: nat, src: seq<Byte>, tot: nat, room: nat)
    returns (now: nat)
    requires Writing(f, f0, k, off, src, tot) && tot < |src|
    requires Boundary(off, |src|, tot) && tot <= room
    modifies f
    ensures Writing(f, f0, k, off, src, now) && tot <= now <= WholeChunks(off, |src|, room)
    ensures now == tot ==> f.Full() || tot == WholeChunks(off, |src|, room)
    ensures Boundary(off, |src|, now)
  {
    ChunkFits(off, |src|, tot, room);
    var addr := MapForWrite(f, f0, k, off, src, tot);
    if addr == 0 {
      return tot;
    }
    now := ChunkEnd(off, |src|, tot);
    if now > room {
      return tot;
    }
    CopyChunk(f, f0, k, off, src, tot, now, addr);
  }

  /** writei's loop. */
  method WriteLoop(f: FileSystem, ghost f0: Fs, k: nat, off: nat, src: seq<Byte>, room: nat) returns (tot: nat)
    requires Writing(f, f0, k, off, src, 0)
    modifies f
    ensures Writing(f, f0, k, off, src, tot) && tot <= WholeChunks(off, |src|, room)
    ensures tot < WholeChunks(off, |src|, room) ==> f.Full()
  {
    tot := 0;
    while tot < |src|
      invariant Writing(f, f0, k, off, src, tot)
      invariant Boundary(off, |src|, tot) && tot <= WholeChunks(off, |src|, room)
    {
      var before := tot;
      tot := WriteRound(f, f0, k, off, src, tot, room);
      if tot == before {
        return;
      }
    }
  }

  /**
   Write src to inode k at `off`.  The first `room` bytes of src can be copied in;
   a copy beyond that fails and writei stops.  Returns the number of bytes written,
   which is all whole chunks within `room` unless the disk is full.
   */
  method Writei(f: FileSystem, k: nat, off: nat, src: seq<Byte>, room: nat) returns (r: int)
    requires f.Valid() && NoHoles(f.State()) && k < |f.inodes| && off < TWO32 && |src| < TWO32
    modifies f
    ensures f.Valid() && NoHoles(f.State()) && |f.inodes| == |old(f.inodes)|
    ensures off > old(f.inodes)[k].size || off + |src| > MAXBYTES <==> r == -1
    ensures r == -1 ==> f.State() == old(f.State())
    ensures r != -1 ==>
              && 0 <= r <= WholeChunks(off, |src|, room)
              && Contents(f.State(), k) == Splice(old(Contents(f.State(), k)), off, src[..r])
              && (forall k' :: 0 <= k' < |f.inodes| && k' != k ==>
                  Contents(f.State(), k') == old(Contents(f.State(), k')))
              && (r < WholeChunks(off, |src|, room) ==> f.Full())
  {
    if off > f.inodes[k].size || off + |src| >= TWO32 {
      return -1;
    }
    if off + |src| > MAXBYTES {
      return -1;
    }
    ghost var f0 := f.State();
    WrittenStart(f0, k, off, src);
    var tot := WriteLoop(f, f0, k, off, src, room);
    WrittenIsSplice(f0, f.State(), k, off, src, tot);
    var size := Max(f.inodes[k].size, off + tot);
    SetSizeConsistent(f.State(), f.owner, k, size);
    f.SetSize(k, size);
    r := tot;
  }
}

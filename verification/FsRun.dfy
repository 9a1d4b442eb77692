/**
 The file system over whole histories: an image is built, mounted, and then any
 calls of readi, writei and itrunc are made.  Each file behaves as one byte
 sequence, and block ownership holds throughout.
 */
module FsRun {
  import opened Common
  import opened Blocks
  import opened FsModel
  import opened FsTrees
  import opened FsTrunc
  import opened FsCode
  import opened FsIo
  import opened FsImage

  // ---------- Ownership, said without the owner map ----------

  /**
   No block is in two places, none is a metadata block, and the free map marks
   exactly the metadata and the blocks that are somewhere.
   */
  lemma Ownership(fs: Fs, owner: map<nat, Place>, k: nat, s: Slot, k': nat, s': Slot)
    requires Consistent(fs, owner) && ValidPlace(fs, k, s) && ValidPlace(fs, k', s')
    ensures AtPlace(fs, k, s) != 0 && AtPlace(fs, k, s) == AtPlace(fs, k', s') ==> k == k' && s == s'
    ensures AtPlace(fs, k, s) != 0 ==> fs.sb.nmeta <= AtPlace(fs, k, s) < fs.sb.size
    ensures forall b: nat :: b < fs.sb.size ==>
              && BitOk(fs, b)
              && (Used(fs, b) <==>
                    b < fs.sb.nmeta || exists k: nat, s :: ValidPlace(fs, k, s) && AtPlace(fs, k, s) == b)
  {
    assert AtPlace(fs, k', s') != 0 ==> owner[AtPlace(fs, k', s')] == Place(k', s');
    forall b: nat | b < fs.sb.size
      ensures BitOk(fs, b)
      ensures Used(fs, b) <==> b < fs.sb.nmeta || exists k: nat, s :: ValidPlace(fs, k, s) && AtPlace(fs, k, s) == b
    {
      if b in owner {
        assert ValidPlace(fs, owner[b].k, owner[b].s) && AtPlace(fs, owner[b].k, owner[b].s) == b;
      }
      if k: nat, s :| ValidPlace(fs, k, s) && AtPlace(fs, k, s) == b && b >= fs.sb.nmeta {
        assert b in owner;
      }
    }
  }

  // ---------- The specification ----------

  datatype Call =
    | Read(k: nat, off: nat, n: nat, room: nat)
    | Write(k: nat, off: nat, src: seq<Byte>, room: nat)
    | Trunc(k: nat)

  /** The arguments fit the C types. */
  ghost predicate CallOk(c: Call, files: nat) {
    match c
    case Read(k, off, n, room) => k < files && off < TWO32 && n < TWO32
    case Write(k, off, src, room) => k < files && off < TWO32 && |src| < TWO32
    case Trunc(k) => k < files
  }

  /** What a call returns, and the bytes it delivers */
  datatype Reply = Reply(r: int, dst: seq<Byte>)

  /** The answer that a call has to give; `full` tells whether the disk is full afterwards. */
  ghost predicate Answers(files: seq<seq<Byte>>, c: Call, a: Reply, full: bool)
    requires CallOk(c, |files|)
  {
    match c
    case Read(k, off, n, room) =>
      var size := |files[k]|;
      if off > size || off + n >= TWO32 then a == Reply(0, [])
      else
        var want := Min(n, size - off);
        var got := WholeChunks(off, want, room);
        a == Reply(if want <= room then want else -1, files[k][off..off + got])
    case Write(k, off, src, room) =>
      var all := WholeChunks(off, |src|, room);
      && a.dst == [] && (a.r == -1 <==> off > |files[k]| || off + |src| > MAXBYTES)
      && (a.r != -1 ==> 0 <= a.r <= all && (a.r < all ==> full))
    case Trunc(k) => a == Reply(0, [])
  }

  /** What a call that returned r has done to the files. */
  ghost function Effect(files: seq<seq<Byte>>, c: Call, r: int): (after: seq<seq<Byte>>) {
    match c
    case Read(k, off, n, room) => files
    case Write(k, off, src, room) =>
      if k < |files| && off <= |files[k]| && 0 <= r <= |src| then files[k := Splice(files[k], off, src[..r])] else files
    case Trunc(k) => if k < |files| then files[k := []] else files
  }

  ghost predicate Replays(files: seq<seq<Byte>>, c: Call, a: Reply, full: bool, after: seq<seq<Byte>>) {
    CallOk(c, |files|) && Answers(files, c, a, full) && after == Effect(files, c, a.r)
  }

  ghost function Files(fs: Fs): (r: seq<seq<Byte>>)
    requires Shape(fs) && NoHoles(fs)
    ensures |r| == |fs.inodes| && forall k :: 0 <= k < |r| ==> r[k] == Contents(fs, k)
  {
    seq(|fs.inodes|, k requires 0 <= k < |fs.inodes| => Contents(fs, k))
  }

  /** A file system in good order */
  ghost predicate Sound(fs: Fs) {
    Shape(fs) && NoHoles(fs) && exists owner :: Consistent(fs, owner)
  }

  /** A run: calls[i] finds states[i] and leaves states[i + 1]. */
  ghost predicate Replayed(states: seq<Fs>, calls: seq<Call>, answers: seq<Reply>) {
    && |states| == |calls| + 1 && |answers| == |calls|
    && (forall i :: 0 <= i < |states| ==> Sound(states[i]))
    && (forall i :: 0 <= i < |calls| ==> ReplaysFrom(states[i], calls[i], answers[i], states[i + 1]))
  }

  ghost predicate ReplaysFrom(fs: Fs, c: Call, a: Reply, fs': Fs) {
    Sound(fs) && Sound(fs') && Replays(Files(fs), c, a, FullDisk(fs'), Files(fs'))
  }

  /** A mounted file system in good order. */
  ghost predicate Good(f: FileSystem)
    reads f
  {
    f.Valid() && NoHoles(f.State())
  }

  // ---------- itrunc as an operation on contents ----------

  lemma TruncFiles(fs: Fs, owner: map<nat, Place>, fs': Fs, k: nat)
    requires Consistent(fs, owner) && NoHoles(fs) && k < |fs.inodes| && Shape(fs')
    requires fs'.sb == fs.sb && fs'.inodes == Cleared(fs, k).inodes
    requires forall c :: fs.sb.nmeta <= c < fs.sb.size ==> fs'.blocks[c] == fs.blocks[c]
    ensures NoHoles(fs') && Files(fs') == Files(fs)[k := []]
  {
    forall k': nat, s | ValidPlace(fs, k', s) && k' != k
      ensures AtPlace(fs', k', s) == AtPlace(fs, k', s)
    {
      DataSameAt(fs, owner, fs'.blocks, k', s);
    }
    forall k' | 0 <= k' < |fs'.inodes|
      ensures fs'.inodes[k'].size <= MAXBYTES && FileOk(fs', k')
    {
      assert FileOk(fs, k');
    }
    forall k' | 0 <= k' < |fs.inodes| && k' != k
      ensures Contents(fs', k') == Contents(fs, k')
    {
      TruncOther(fs, owner, fs', k');
    }
  }

  /** A file whose tree and blocks are untouched has the same contents. */
  lemma TruncOther(fs: Fs, owner: map<nat, Place>, fs': Fs, k: nat)
    requires Shape(fs) && Trees(fs, owner) && NoHoles(fs) && k < |fs.inodes| && Shape(fs') && NoHoles(fs')
    requires fs'.sb == fs.sb && |fs'.inodes| == |fs.inodes| && fs'.inodes[k] == fs.inodes[k]
    requires forall c :: fs.sb.nmeta <= c < fs.sb.size ==> fs'.blocks[c] == fs.blocks[c]
    ensures Contents(fs', k) == Contents(fs, k)
  {
    forall p: nat | p < fs.inodes[k].size
      ensures ByteAt(fs', k, p) == ByteAt(fs, k, p)
    {
      MappedByte(fs, k, p);
      DataSameAt(fs, owner, fs'.blocks, k, DataSlot(p / BSIZE));
      assert AtPlace(fs, k, DataSlot(p / BSIZE)) in owner;
    }
  }

  method Do(f: FileSystem, c: Call) returns (a: Reply)
    requires Good(f) && CallOk(c, |f.inodes|)
    modifies f
    ensures Good(f) && |f.inodes| == |old(f.inodes)|
    ensures Replays(old(Files(f.State())), c, a, f.Full(), Files(f.State()))
  {
    match c
    case Read(k, off, n, room) =>
      var r, dst := Readi(f, k, off, n, room);
      a := Reply(r, dst);
    case Write(k, off, src, room) =>
      var r := Writei(f, k, off, src, room);
      a := Reply(r, []);
      assert Files(f.State()) == Effect(old(Files(f.State())), c, r);
    case Trunc(k) =>
      ghost var f0, o0 := f.State(), f.owner;
      f.Itrunc(k);
      TruncFiles(f0, o0, f.State(), k);
      a := Reply(0, []);
  }

  lemma ReplayedMore(states: seq<Fs>, calls: seq<Call>, answers: seq<Reply>, i: nat, a: Reply, after: Fs)
    requires i < |calls| && Replayed(states, calls[..i], answers) && ReplaysFrom(states[i], calls[i], a, after)
    ensures Replayed(states + [after], calls[..i + 1], answers + [a])
  {
  }

  /** Any sequence of calls answers and acts like the same calls on byte sequences. */
  method Run(f: FileSystem, calls: seq<Call>) returns (answers: seq<Reply>, ghost states: seq<Fs>)
    requires Good(f) && forall i :: 0 <= i < |calls| ==> CallOk(calls[i], |f.inodes|)
    modifies f
    ensures Good(f) && Replayed(states, calls, answers)
    ensures states[0] == old(f.State()) && states[|calls|] == f.State()
  {
    answers, states := [], [f.State()];
    while |answers| < |calls|
      invariant |answers| <= |calls| && Good(f) && |f.inodes| == |old(f.inodes)|
      invariant Replayed(states, calls[..|answers|], answers)
      invariant states[0] == old(f.State()) && states[|answers|] == f.State()
    {
      var a := Do(f, calls[|answers|]);
      ReplayedMore(states, calls, answers, |answers|, a, f.State());
      answers, states := answers + [a], states + [f.State()];
    }
    assert calls[..|answers|] == calls;
  }

  // ---------- From the empty image on ----------

  datatype Piece = Piece(k: nat, buf: seq<Byte>)

  /** Files built up by appending. */
  ghost function Appended(files: seq<seq<Byte>>, pieces: seq<Piece>): (r: seq<seq<Byte>>)
    requires forall i :: 0 <= i < |pieces| ==> pieces[i].k < |files|
    ensures |r| == |files|
  {
    if pieces == [] then files else
      var p := pieces[|pieces| - 1];
      var before := Appended(files, pieces[..|pieces| - 1]);
      before[p.k := before[p.k] + p.buf]
  }

  ghost function Empties(n: nat): (r: seq<seq<Byte>>)
    ensures |r| == n && forall k :: 0 <= k < n ==> r[k] == []
  {
    seq(n, _ => [])
  }

  /** An image in good order, with these files. */
  ghost predicate Holding(img: Image, files: seq<seq<Byte>>)
    reads img
  {
    && img.Valid() && NoHoles(img.State()) && Files(img.State()) == files
    && Trimmed(img.State()) && img.freeblock == img.sb.nmeta + Total(files)
  }

  // ---------- How much fits ----------

  /** Data blocks and tables of all files */
  ghost function Total(files: seq<seq<Byte>>): (n: nat) {
    if files == [] then 0
    else Total(files[..|files| - 1]) + Cost(BlocksFor(|files[|files| - 1]|))
  }

  /** No file is longer than a file can be, and the free map's block covers them all. */
  ghost predicate Fits(sb: Super, files: seq<seq<Byte>>) {
    sb.nmeta + Total(files) < BITS && forall k :: 0 <= k < |files| ==> |files[k]| <= MAXBYTES
  }

  ghost predicate Longer(files: seq<seq<Byte>>, files': seq<seq<Byte>>) {
    |files| == |files'| && forall k :: 0 <= k < |files| ==> |files[k]| <= |files'[k]|
  }

  lemma {:induction false} TotalEmpties(n: nat)
    ensures Total(Empties(n)) == 0
  {
    if n > 0 {
      assert Empties(n)[..n - 1] == Empties(n - 1);
      TotalEmpties(n - 1);
    }
  }

  lemma {:induction false} TotalOne(files: seq<seq<Byte>>, k: nat, f: seq<Byte>)
    requires k < |files|
    ensures Total(files[k := f]) == Total(files) + Cost(BlocksFor(|f|)) - Cost(BlocksFor(|files[k]|))
  {
    var n := |files| - 1;
    if k == n {
      assert files[k := f][..n] == files[..n];
    } else {
      assert files[k := f][..n] == files[..n][k := f];
      TotalOne(files[..n], k, f);
    }
  }

  lemma {:induction false} TotalMonotone(files: seq<seq<Byte>>, files': seq<seq<Byte>>)
    requires Longer(files, files')
    ensures Total(files) <= Total(files')
  {
    var n := |files| - 1;
    if n >= 0 {
      TotalMonotone(files[..n], files'[..n]);
      CostMonotone(BlocksFor(|files[n]|), BlocksFor(|files'[n]|));
    }
  }

  /** Files only get longer. */
  lemma {:induction false} AppendedLonger(files: seq<seq<Byte>>, pieces: seq<Piece>, i: nat)
    requires i <= |pieces| && forall j :: 0 <= j < |pieces| ==> pieces[j].k < |files|
    ensures Longer(Appended(files, pieces[..i]), Appended(files, pieces))
    decreases |pieces|
  {
    if i == |pieces| {
      assert pieces[..i] == pieces;
    } else {
      var front := pieces[..|pieces| - 1];
      AppendedLonger(files, front, i);
      assert front[..i] == pieces[..i];
    }
  }

  /** What does not fit before the last pieces does not fit after them. */
  lemma NeverFits(sb: Super, files: seq<seq<Byte>>, pieces: seq<Piece>, i: nat)
    requires i <= |pieces| && forall j :: 0 <= j < |pieces| ==> pieces[j].k < |files|
    requires !Fits(sb, Appended(files, pieces[..i]))
    ensures !Fits(sb, Appended(files, pieces))
  {
    var before, after := Appended(files, pieces[..i]), Appended(files, pieces);
    AppendedLonger(files, pieces, i);
    if Fits(sb, after) {
      FitsShorter(sb, before, after);
    }
  }

  lemma FitsShorter(sb: Super, files: seq<seq<Byte>>, files': seq<seq<Byte>>)
    requires Longer(files, files') && Fits(sb, files')
    ensures Fits(sb, files)
  {
    TotalMonotone(files, files');
    forall k | 0 <= k < |files|
      ensures |files[k]| <= MAXBYTES
    {
    }
  }

  /** The next piece, and the room it needs */
  lemma AppendedNext(files: seq<seq<Byte>>, pieces: seq<Piece>, i: nat)
    requires i < |pieces| && forall j :: 0 <= j < |pieces| ==> pieces[j].k < |files|
    ensures var p, before, after := pieces[i], Appended(files, pieces[..i]), Appended(files, pieces[..i + 1]);
            && after == before[p.k := before[p.k] + p.buf]
            && Total(after) == Total(before) + NewBlocks(|before[p.k]|, |p.buf|)
  {
    assert pieces[..i + 1][..i] == pieces[..i];
    var p, before := pieces[i], Appended(files, pieces[..i]);
    TotalOne(before, p.k, before[p.k] + p.buf);
  }

  /** Writing the free map changes no file. */
  lemma BitmapKeepsFiles(fs: Fs, owner: map<nat, Place>, data: Block)
    requires Shape(fs) && Trees(fs, owner) && NoHoles(fs) && fs.sb.bmapstart < fs.sb.nmeta
    ensures var fs' := WriteBlock(fs, fs.sb.bmapstart, data);
            Shape(fs') && NoHoles(fs') && Files(fs') == Files(fs)
  {
    var fs' := WriteBlock(fs, fs.sb.bmapstart, data);
    WriteKeepsTrees(fs, owner, fs.sb.bmapstart, data);
    forall k: nat, s | ValidPlace(fs, k, s)
      ensures AtPlace(fs', k, s) == AtPlace(fs, k, s)
    {
      WriteKeepsAt(fs, owner, fs.sb.bmapstart, data, k, s);
    }
    forall k | 0 <= k < |fs'.inodes|
      ensures fs'.inodes[k].size <= MAXBYTES && FileOk(fs', k)
    {
      assert FileOk(fs, k);
    }
    forall k | 0 <= k < |fs.inodes|
      ensures Contents(fs', k) == Contents(fs, k)
    {
      TruncOther(fs, owner, fs', k);
    }
  }

  /** Allocate n inodes, so that numbers 1 to n are in use. */
  method Inodes(sb: Super, n: nat) returns (img: Image)
    requires sb.Valid() && sb.size > BITS && sb.nmeta < BITS
    ensures fresh(img) && img.sb == sb && Holding(img, Empties(n + 1))
  {
    img := new Image(sb);
    assert FileOk(img.State(), 0);
    var i := 0;
    while i < n
      invariant i <= n && fresh(img) && img.sb == sb && img.Valid()
      invariant |img.inodes| == i + 1 && forall k :: 0 <= k <= i ==> img.inodes[k].size == 0
      invariant Trimmed(img.State()) && img.freeblock == sb.nmeta
    {
      var k := img.AllocInode();
      i := i + 1;
    }
    forall k | 0 <= k < |img.inodes|
      ensures FileOk(img.State(), k)
    {
    }
    assert Files(img.State()) == Empties(n + 1);
    TotalEmpties(n + 1);
  }

  /**
   mkfs: append the pieces, write the free map, and mount the result; null exactly if
   the files do not fit.
   */
  method Mkfs(sb: Super, n: nat, pieces: seq<Piece>) returns (f: FileSystem?)
    requires sb.Valid() && sb.size > BITS && sb.nmeta < BITS
    requires forall i :: 0 <= i < |pieces| ==> 0 < pieces[i].k <= n
    ensures f == null <==> !Fits(sb, Appended(Empties(n + 1), pieces))
    ensures f != null ==> fresh(f) && Good(f) && Files(f.State()) == Appended(Empties(n + 1), pieces)
  {
    var img := Inodes(sb, n);
    ghost var empty := Empties(n + 1);
    var i := 0;
    while i < |pieces|
      invariant i <= |pieces| && fresh(img) && img.sb == sb && Holding(img, Appended(empty, pieces[..i]))
    {
      var ok := AddPiece(img, pieces, i, empty);
      if !ok {
        NeverFits(sb, empty, pieces, i + 1);
        return null;
      }
      i := i + 1;
    }
    assert pieces[..i] == pieces;
    HoldingFits(img, Appended(empty, pieces));
    BitInMeta(img.State(), 0);
    BitmapKeepsFiles(img.State(), img.owner, FirstBits(img.freeblock));
    img.WriteBitmap();
    f := new FileSystem(sb, img.blocks, img.inodes, img.owner);
  }

  lemma HoldingFits(img: Image, files: seq<seq<Byte>>)
    requires Holding(img, files)
    ensures Fits(img.sb, files)
  {
    forall k | 0 <= k < |files|
      ensures |files[k]| <= MAXBYTES
    {
      assert files[k] == Contents(img.State(), k) && FileOk(img.State(), k);
    }
  }

  /** One piece of mkfs */
  method AddPiece(img: Image, pieces: seq<Piece>, i: nat, ghost empty: seq<seq<Byte>>) returns (ok: bool)
    requires i < |pieces| && forall j :: 0 <= j < |pieces| ==> 0 < pieces[j].k < |empty|
    requires Holding(img, Appended(empty, pieces[..i]))
    modifies img
    ensures if ok then Holding(img, Appended(empty, pieces[..i + 1]))
            else !Fits(img.sb, Appended(empty, pieces[..i + 1]))
  {
    var p := pieces[i];
    ghost var before, after := Appended(empty, pieces[..i]), Appended(empty, pieces[..i + 1]);
    AppendedNext(empty, pieces, i);
    assert before[p.k] == Contents(img.State(), p.k);
    if img.inodes[p.k].size + |p.buf| > MAXBYTES {
      assert |after[p.k]| > MAXBYTES;
      return false;
    }
    ok := img.Append(p.k, p.buf);
    if ok {
      assert Files(img.State()) == after;
    }
  }
}

/**
 The log on disk: a header block that lists the home block numbers of the
 logged blocks, followed by those blocks.  Also the in-memory list kept by
 log_write.
 */
module LogFormat {
  import opened Blocks

  const MAXOPBLOCKS: nat := 10
  const LOGSIZE: nat := 30

  /** Where the log lives: header at `start`, log block of entry j at `start + 1 + j`. */
  datatype Layout = Layout(start: nat, size: nat, nblocks: nat) {
    ghost predicate Valid() {
      1 <= size && start + size <= nblocks < TWO32
    }

    predicate InLog(b: nat) {
      start <= b < start + size
    }

    /** A block outside the log: the home location of file system data. */
    predicate Home(b: nat) {
      b < nblocks && !InLog(b)
    }
  }

  ghost predicate Distinct(s: seq<nat>) {
    forall i, j :: 0 <= i < j < |s| ==> s[i] != s[j]
  }

  /** A list of logged blocks that fits the log. */
  ghost predicate GoodList(l: Layout, blocks: seq<nat>) {
    && |blocks| <= LOGSIZE
    && |blocks| < l.size
    && Distinct(blocks)
    && forall j :: 0 <= j < |blocks| ==> l.Home(blocks[j])
  }

  /** log_write's search: an already logged block is absorbed, a new one is appended. */
  function Absorb(blocks: seq<nat>, b: nat): (r: seq<nat>) {
    if b in blocks then blocks else blocks + [b]
  }

  /** The first k entries of the list, stored into a header block. */
  function PutEntries(b: Block, blocks: seq<nat>, k: nat): (r: Block)
    requires k <= |blocks| <= LOGSIZE
    requires forall j :: 0 <= j < |blocks| ==> blocks[j] < TWO32
  {
    if k == 0 then b else PutWord(PutEntries(b, blocks, k - 1), k, blocks[k - 1])
  }

  /** write_head: the count and the entries; the rest of the block is left as it was. */
  function EncodeHead(old_: Block, blocks: seq<nat>): (r: Block)
    requires |blocks| <= LOGSIZE
    requires forall j :: 0 <= j < |blocks| ==> blocks[j] < TWO32
  {
    PutEntries(PutWord(old_, 0, |blocks|), blocks, |blocks|)
  }

  ghost predicate HeadOk(b: Block) {
    GetWord(b, 0) <= LOGSIZE
  }

  /** read_head: the list a header block stands for. */
  function DecodeHead(b: Block): (r: seq<nat>)
    requires HeadOk(b)
  {
    seq(GetWord(b, 0), i requires 0 <= i < GetWord(b, 0) => GetWord(b, i + 1))
  }

  lemma {:induction false} PutEntriesWord(b: Block, blocks: seq<nat>, k: nat, i: nat)
    requires k <= |blocks| <= LOGSIZE && i < WORDS
    requires forall j :: 0 <= j < |blocks| ==> blocks[j] < TWO32
    ensures GetWord(PutEntries(b, blocks, k), i) == if 1 <= i <= k then blocks[i - 1] else GetWord(b, i)
  {
    if k > 0 {
      PutEntriesWord(b, blocks, k - 1, i);
      GetPutWord(PutEntries(b, blocks, k - 1), k, blocks[k - 1], i);
    }
  }

  /** What write_head stores is what read_head gets back, whatever was in the block before. */
  lemma {:induction false} HeadRoundTrip(old_: Block, blocks: seq<nat>)
    requires |blocks| <= LOGSIZE
    requires forall j :: 0 <= j < |blocks| ==> blocks[j] < TWO32
    ensures HeadOk(EncodeHead(old_, blocks))
    ensures DecodeHead(EncodeHead(old_, blocks)) == blocks
    ensures forall i :: |blocks| < i < WORDS ==> GetWord(EncodeHead(old_, blocks), i) == GetWord(old_, i)
  {
    var b := PutWord(old_, 0, |blocks|);
    GetPutWord(old_, 0, |blocks|, 0);
    PutEntriesWord(b, blocks, |blocks|, 0);
    forall i | 0 <= i < |blocks|
      ensures GetWord(EncodeHead(old_, blocks), i + 1) == blocks[i]
    {
      PutEntriesWord(b, blocks, |blocks|, i + 1);
    }
    forall i | |blocks| < i < WORDS
      ensures GetWord(EncodeHead(old_, blocks), i) == GetWord(old_, i)
    {
      PutEntriesWord(b, blocks, |blocks|, i);
      GetPutWord(old_, 0, |blocks|, i);
    }
  }

  lemma AbsorbGood(l: Layout, blocks: seq<nat>, b: nat)
    requires GoodList(l, blocks) && l.Home(b)
    requires |blocks| < LOGSIZE && |blocks| + 1 < l.size
    ensures GoodList(l, Absorb(blocks, b)) && b in Absorb(blocks, b)
  {
  }
}

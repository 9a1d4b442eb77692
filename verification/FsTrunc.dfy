/**
 itrunc in the middle: the blocks of one inode's tree are marked free one after
 the other, while the tree itself is still in place.
 */
module FsTrunc {
  import opened Blocks
  import opened FsModel
  import opened FsTrees

  const LASTRANK: nat := 66061

  /** The order in which itrunc frees the slots of an inode. */
  function Rank(s: Slot): (r: nat)
    requires ValidSlot(s)
    ensures r < LASTRANK
  {
    match s
    case Direct(i) => i
    case IndEntry(i) => NDIRECT + i
    case Ind => 267
    case DblEntry(i, j) => 268 + 257 * i + j
    case DblTab(i) => 268 + 257 * i + 256
    case Dbl => 66060
  }

  lemma RankInjective(s: Slot, s': Slot)
    requires ValidSlot(s) && ValidSlot(s') && Rank(s) == Rank(s')
    ensures s == s'
  {
    if s.DblEntry? && s'.DblEntry? {
      assert s.i == s'.i;
    }
  }

  /** Is this place one of inode k's slots before rank r? */
  predicate Before(p: Place, k: nat, r: nat) {
    ValidSlot(p.s) && p.k == k && Rank(p.s) < r
  }

  /** The owned blocks that itrunc of inode k has not freed at rank r. */
  ghost function Remaining(owner: map<nat, Place>, k: nat, r: nat): (used: set<nat>) {
    set b | b in owner && !Before(owner[b], k, r)
  }

  /** itrunc of inode k has dealt with all slots before rank r. */
  ghost predicate Freeing(fs: Fs, owner: map<nat, Place>, k: nat, r: nat) {
    && Shape(fs) && k < |fs.inodes|
    && Trees(fs, owner)
    && Marks(fs, Remaining(owner, k, r))
  }

  /** The slot of rank r, if it holds a block, is the only thing between r and r + 1. */
  lemma RemainingStep(fs: Fs, owner: map<nat, Place>, k: nat, s: Slot)
    requires Shape(fs) && Trees(fs, owner) && ValidPlace(fs, k, s)
    ensures var b, r := AtPlace(fs, k, s), Rank(s);
            && (b == 0 ==> Remaining(owner, k, r + 1) == Remaining(owner, k, r))
            && (b != 0 ==> b in Remaining(owner, k, r) && Remaining(owner, k, r + 1) == Remaining(owner, k, r) - {b})
  {
    var b, r := AtPlace(fs, k, s), Rank(s);
    forall c | c in owner
      ensures Before(owner[c], k, r + 1) <==> Before(owner[c], k, r) || owner[c] == Place(k, s)
    {
      if ValidSlot(owner[c].s) && Rank(owner[c].s) == r {
        RankInjective(owner[c].s, s);
      }
    }
    forall c | c in owner && owner[c] == Place(k, s)
      ensures c == b
    {
    }
  }

  /** Freeing the block of the slot whose turn it is: it is marked, so bfree does not panic. */
  lemma FreeStep(fs: Fs, owner: map<nat, Place>, k: nat, s: Slot)
    requires ValidPlace(fs, k, s) && Freeing(fs, owner, k, Rank(s)) && AtPlace(fs, k, s) != 0
    ensures var b := AtPlace(fs, k, s);
            && fs.sb.nmeta <= b < fs.sb.size && BitOk(fs, b) && Used(fs, b)
            && Freeing(MarkFree(fs, b), owner, k, Rank(s) + 1)
  {
    RemainingStep(fs, owner, k, s);
    MarkKeeps(fs, owner, Remaining(owner, k, Rank(s)), AtPlace(fs, k, s));
  }

  lemma SkipStep(fs: Fs, owner: map<nat, Place>, k: nat, s: Slot)
    requires ValidPlace(fs, k, s) && Freeing(fs, owner, k, Rank(s)) && AtPlace(fs, k, s) == 0
    ensures Freeing(fs, owner, k, Rank(s) + 1)
  {
    RemainingStep(fs, owner, k, s);
  }

  /** A stretch of empty slots needs no freeing. */
  lemma SkipRanks(fs: Fs, owner: map<nat, Place>, k: nat, r: nat, r': nat)
    requires Freeing(fs, owner, k, r) && r <= r'
    requires forall s :: ValidSlot(s) && r <= Rank(s) < r' ==> AtPlace(fs, k, s) == 0
    ensures Freeing(fs, owner, k, r')
  {
    forall b | b in owner
      ensures Before(owner[b], k, r) <==> Before(owner[b], k, r')
    {
    }
    assert Remaining(owner, k, r) == Remaining(owner, k, r');
  }

  /** The blocks of all other inodes. */
  ghost function Others(owner: map<nat, Place>, k: nat): (r: map<nat, Place>) {
    map b | b in owner && owner[b].k != k :: owner[b]
  }

  /** The state once the inode's entries are cleared. */
  function Cleared(fs: Fs, k: nat): (r: Fs)
    requires k < |fs.inodes|
  {
    fs.(inodes := fs.inodes[k := Inode(seq(NDIRECT + 2, _ => 0), 0)])
  }

  lemma ClearedAt(fs: Fs, k: nat, k': nat, s: Slot)
    requires Shape(fs) && k < |fs.inodes| && ValidPlace(fs, k', s)
    ensures Shape(Cleared(fs, k))
    ensures AtPlace(Cleared(fs, k), k', s) == if k' == k then 0 else AtPlace(fs, k', s)
  {
  }

  /** When every slot is freed and the inode is cleared, exactly its blocks have become free. */
  lemma FreedAll(fs: Fs, owner: map<nat, Place>, k: nat)
    requires Freeing(fs, owner, k, LASTRANK) && fs.blocks[0] == ZeroBlock()
    ensures Consistent(Cleared(fs, k), Others(owner, k))
  {
    var fs' := Cleared(fs, k);
    assert Shape(fs');
    forall k': nat, s | ValidPlace(fs, k', s)
      ensures AtPlace(fs', k', s) == if k' == k then 0 else AtPlace(fs, k', s)
    {
      ClearedAt(fs, k, k', s);
    }
    assert Trees(fs', Others(owner, k));
    assert Remaining(owner, k, LASTRANK) == Others(owner, k).Keys;
    forall b: nat | b < fs.sb.size
      ensures BitOk(fs', b) && Used(fs', b) == Used(fs, b)
    {
    }
  }

  /** Block b is in the tree of inode k. */
  ghost predicate InTree(fs: Fs, k: nat, b: nat)
    requires Shape(fs)
  {
    b != 0 && exists s :: ValidPlace(fs, k, s) && AtPlace(fs, k, s) == b
  }

  /** What itrunc of inode k does to the disk: its blocks are free, its entries gone. */
  ghost predicate Truncated(fs: Fs, k: nat, fs': Fs) {
    && Shape(fs) && k < |fs.inodes| && Shape(fs') && fs'.sb == fs.sb && fs'.inodes == Cleared(fs, k).inodes
    && (forall c :: fs.sb.nmeta <= c < fs.sb.size ==> fs'.blocks[c] == fs.blocks[c])
    && fs'.blocks[0] == fs.blocks[0]
    && (forall b: nat :: b < fs.sb.size ==> BitOk(fs, b) && BitOk(fs', b) && UsedAfter(fs, k, b, Used(fs', b)))
  }

  ghost predicate UsedAfter(fs: Fs, k: nat, b: nat, used: bool)
    requires Shape(fs) && BitOk(fs, b)
  {
    used <==> Used(fs, b) && !InTree(fs, k, b)
  }

  lemma TruncatedIs(fs: Fs, owner: map<nat, Place>, k: nat, fs': Fs)
    requires Consistent(fs, owner) && k < |fs.inodes| && Consistent(fs', Others(owner, k))
    requires fs'.sb == fs.sb && fs'.inodes == Cleared(fs, k).inodes
    requires forall c :: fs.sb.nmeta <= c < fs.sb.size ==> fs'.blocks[c] == fs.blocks[c]
    ensures Truncated(fs, k, fs')
  {
    forall b: nat | b < fs.sb.size
      ensures BitOk(fs, b) && BitOk(fs', b) && UsedAfter(fs, k, b, Used(fs', b))
    {
      if b in owner && owner[b].k == k {
        assert ValidPlace(fs, k, owner[b].s) && AtPlace(fs, k, owner[b].s) == b;
      }
    }
  }

  /** The slot of entry j of the table in slot `tab`. */
  function EntrySlot(tab: Slot, j: nat): (s: Slot)
    requires (tab.Ind? || tab.DblTab?) && ValidSlot(tab) && j < NINDIRECT
    ensures ValidSlot(s) && Rank(s) == Rank(tab) - NINDIRECT + j
  {
    if tab.Ind? then IndEntry(j) else DblEntry(tab.i, j)
  }

  lemma TableEntries(fs: Fs, owner: map<nat, Place>, k: nat, tab: Slot)
    requires (tab.Ind? || tab.DblTab?) && ValidPlace(fs, k, tab) && Shape(fs) && Trees(fs, owner)
    requires AtPlace(fs, k, tab) != 0
    ensures fs.sb.nmeta <= AtPlace(fs, k, tab) < fs.sb.size
    ensures forall j: nat :: j < NINDIRECT ==>
              AtPlace(fs, k, EntrySlot(tab, j)) == GetWord(fs.blocks[AtPlace(fs, k, tab)], j)
  {
  }

  lemma FreeingStart(fs: Fs, owner: map<nat, Place>, k: nat)
    requires Consistent(fs, owner) && k < |fs.inodes|
    ensures Freeing(fs, owner, k, 0)
  {
    assert Remaining(owner, k, 0) == owner.Keys;
  }
}

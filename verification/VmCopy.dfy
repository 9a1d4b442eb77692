/** copyout and copyin of kernel/vm.zig: user memory as one sequence of bytes, across pages. */
module VmCopy {
  import opened Common
  import opened PageTables
  import opened VmCode
  import opened VmUser

  ghost predicate UserPage(t: map<nat, Pte>, n: nat) {
    n in t && t[n].flags.user
  }

  ghost predicate UserAt(t: map<nat, Pte>, va: nat) {
    UserPage(t, va / PGSIZE)
  }

  /** n bytes of user memory from va on */
  ghost predicate UserRange(t: map<nat, Pte>, va: nat, n: nat) {
    forall a: nat :: va <= a < va + n ==> UserAt(t, a)
  }

  /** User pages have data pages of their own. */
  ghost predicate UserData(t: map<nat, Pte>, data: map<nat, seq<Byte>>) {
    && (forall p :: p in data ==> |data[p]| == PGSIZE)
    && (forall n :: UserPage(t, n) ==> t[n].ppn in data)
    && (forall n, m :: UserPage(t, n) && UserPage(t, m) && n != m ==> t[n].ppn != t[m].ppn)
  }

  /** The memory of a process is such memory: its trapframe and trampoline are not user pages. */
  lemma ProcessUserData(m: map<nat, Table>, root: nat, t: map<nat, Pte>, data: map<nat, seq<Byte>>, n: nat)
    requires Translates(m, root, t) && Process(t, data, n) && (forall p :: p in data ==> |data[p]| == PGSIZE)
    requires !t[TRAPFRAME].flags.user && !t[TRAMPOLINE].flags.user
    ensures UserData(t, data)
  {
    forall k: nat | UserPage(t, k)
      ensures k < n
    {
      assert k < MAXPAGES;
    }
  }

  /** The byte at virtual address va */
  ghost function ByteAt(t: map<nat, Pte>, data: map<nat, seq<Byte>>, va: nat): (b: Byte)
    requires UserData(t, data) && UserAt(t, va)
  {
    data[t[va / PGSIZE].ppn][va % PGSIZE]
  }

  /** data' is data with s written at address dest, and nothing else changed. */
  ghost predicate Written(t: map<nat, Pte>, data: map<nat, seq<Byte>>, data': map<nat, seq<Byte>>, dest: nat,
                          s: seq<Byte>)
    requires UserData(t, data)
  {
    && UserData(t, data') && data'.Keys == data.Keys
    && (forall va: nat :: UserAt(t, va) ==>
          ByteAt(t, data', va) == if dest <= va < dest + |s| then s[va - dest] else ByteAt(t, data, va))
    && (forall p :: p in data && (forall n :: UserPage(t, n) ==> t[n].ppn != p) ==> data'[p] == data[p])
  }

  /** The page with the part from off on replaced by s */
  function Patched(page: seq<Byte>, off: nat, s: seq<Byte>): (r: seq<Byte>)
    requires off + |s| <= |page|
    ensures |r| == |page|
    ensures forall i :: 0 <= i < |r| ==> r[i] == if off <= i < off + |s| then s[i - off] else page[i]
  {
    page[..off] + s + page[off + |s|..]
  }

  /** Writing the next piece, which lies within one page, extends what was written. */
  lemma WriteMore(t: map<nat, Pte>, data: map<nat, seq<Byte>>, data1: map<nat, seq<Byte>>, dest: nat, s: seq<Byte>,
                  piece: seq<Byte>)
    requires UserData(t, data) && Written(t, data, data1, dest, s) && UserAt(t, dest + |s|)
    requires (dest + |s|) % PGSIZE + |piece| <= PGSIZE
    ensures var p := t[(dest + |s|) / PGSIZE].ppn;
            p in data1 && |data1[p]| == PGSIZE &&
                Written(t, data, data1[p := Patched(data1[p], (dest + |s|) % PGSIZE, piece)], dest, s + piece)
  {
    var at := dest + |s|;
    var p := t[at / PGSIZE].ppn;
    var data2 := data1[p := Patched(data1[p], at % PGSIZE, piece)];
    forall va: nat | UserAt(t, va)
      ensures ByteAt(t, data2, va) == if dest <= va < dest + |s| + |piece| then (s + piece)[va - dest]
              else ByteAt(t, data, va)
    {
      if va / PGSIZE == at / PGSIZE {
        PatchedByte(data1[p], at, piece, va);
      } else {
        assert t[va / PGSIZE].ppn != p;
        assert !(at <= va < at + |piece|);
      }
      assert ByteAt(t, data1, va) == if dest <= va < at then s[va - dest] else ByteAt(t, data, va);
    }
  }

  lemma PatchedByte(page: seq<Byte>, at: nat, piece: seq<Byte>, va: nat)
    requires |page| == PGSIZE && at % PGSIZE + |piece| <= PGSIZE && va / PGSIZE == at / PGSIZE
    ensures Patched(page, at % PGSIZE, piece)[va % PGSIZE] == if at <= va < at + |piece| then piece[va - at]
            else page[va % PGSIZE]
  {
    assert va % PGSIZE - at % PGSIZE == va - at;
  }

  /** The rest of a page is user memory if its first byte is. */
  lemma SamePage(t: map<nat, Pte>, va: nat, n: nat, m: nat)
    requires UserRange(t, va, n) && UserAt(t, va + n) && (va + n) % PGSIZE + m <= PGSIZE
    ensures UserRange(t, va, n + m)
  {
    forall a: nat | va <= a < va + (n + m)
      ensures UserAt(t, a)
    {
      if a >= va + n {
        assert a / PGSIZE == (va + n) / PGSIZE;
      }
    }
  }

  lemma WriteSlice(t: map<nat, Pte>, data: map<nat, seq<Byte>>, data1: map<nat, seq<Byte>>, dest: nat,
                   source: seq<Byte>, k: nat, n: nat)
    requires UserData(t, data) && k + n <= |source| && Written(t, data, data1, dest, source[..k]) && UserAt(t, dest + k)
    requires (dest + k) % PGSIZE + n <= PGSIZE
    ensures var p := t[(dest + k) / PGSIZE].ppn;
            p in data1 && |data1[p]| == PGSIZE &&
            Written(t, data, data1[p := Patched(data1[p], (dest + k) % PGSIZE, source[k..k + n])], dest,
                source[..k + n])
  {
    WriteMore(t, data, data1, dest, source[..k], source[k..k + n]);
    assert source[..k] + source[k..k + n] == source[..k + n];
  }

  /** copyout's memcpy into frame p: the rest of the page, or of the source */
  method CopyPiece(mem: Memory, p: nat, dest: nat, source: seq<Byte>, k: nat, ghost t: map<nat, Pte>,
                   ghost data: map<nat, seq<Byte>>)
    returns (k': nat)
    requires mem.Valid() && UserData(t, data) && k < |source| && UserAt(t, dest + k) && p == t[(dest + k) / PGSIZE].ppn
    requires Written(t, data, mem.data, dest, source[..k])
    modifies mem`data
    ensures k < k' <= |source| && mem.Valid() && mem.All() == old(mem.All())
    ensures Written(t, data, mem.data, dest, source[..k'])
    ensures (dest + k) % PGSIZE + (k' - k) <= PGSIZE
    ensures k' == |source| || (dest + k') % PGSIZE == 0
  {
    var off := (dest + k) % PGSIZE;
    var nbytes := if PGSIZE - off <= |source| - k then PGSIZE - off else |source| - k;
    WriteSlice(t, data, mem.data, dest, source, k, nbytes);
    mem.data := mem.data[p := Patched(mem.data[p], off, source[k..k + nbytes])];
    k' := k + nbytes;
  }

  /** One round of copyout */
  method CopyRound(mem: Memory, root: nat, dest: nat, source: seq<Byte>, k: nat, ghost t: map<nat, Pte>,
                   ghost data: map<nat, seq<Byte>>)
    returns (ok: bool, k': nat)
    requires mem.Valid() && Translates(mem.tables, root, t) && UserData(t, data) && k < |source|
    requires Written(t, data, mem.data, dest, source[..k]) && UserRange(t, dest, k)
    modifies mem`data
    ensures mem.Valid() && mem.All() == old(mem.All()) && k <= k' <= |source|
    ensures Written(t, data, mem.data, dest, source[..k']) && UserRange(t, dest, k')
    ensures if ok then k < k' && (k' == |source| || (dest + k') % PGSIZE == 0) else k' == k && !UserAt(t, dest + k)
  {
    var p := mem.WalkAddr(root, dest + k, t);
    if p == None {
      return false, k;
    }
    ok := true;
    k' := CopyPiece(mem, p.value, dest, source, k, t, data);
    SamePage(t, dest, k, k' - k);
  }

  /** copyout: source is written at dest up to the first address that is not user memory. */
  method CopyOut(mem: Memory, root: nat, dest: nat, source: seq<Byte>, ghost t: map<nat, Pte>)
    returns (ok: bool, ghost n: nat)
    requires mem.Valid() && Translates(mem.tables, root, t) && UserData(t, mem.data)
    modifies mem`data
    ensures mem.Valid() && mem.All() == old(mem.All()) && n <= |source|
    ensures Written(t, old(mem.data), mem.data, dest, source[..n]) && UserRange(t, dest, n)
    ensures if ok then n == |source| else n < |source| && !UserAt(t, dest + n)
  {
    var k := 0;
    ok := true;
    while ok && k < |source|
      invariant 0 <= k <= |source| && (!ok ==> k < |source| && !UserAt(t, dest + k))
      invariant mem.Valid() && mem.All() == old(mem.All())
      invariant Written(t, old(mem.data), mem.data, dest, source[..k]) && UserRange(t, dest, k)
      decreases ok, |source| - k
    {
      ok, k := CopyRound(mem, root, dest, source, k, t, old(mem.data));
    }
    n := k;
  }

  /** bytes is what is at address va. */
  ghost predicate IsAt(t: map<nat, Pte>, data: map<nat, seq<Byte>>, va: nat, bytes: seq<Byte>)
    requires UserData(t, data)
  {
    forall a: nat :: va <= a < va + |bytes| ==> UserAt(t, a) && bytes[a - va] == ByteAt(t, data, a)
  }

  lemma ReadMore(t: map<nat, Pte>, data: map<nat, seq<Byte>>, va: nat, bytes: seq<Byte>, n: nat)
    requires UserData(t, data) && IsAt(t, data, va, bytes) && UserAt(t, va + |bytes|)
    requires (va + |bytes|) % PGSIZE + n <= PGSIZE
    ensures var p, off := t[(va + |bytes|) / PGSIZE].ppn, (va + |bytes|) % PGSIZE;
            p in data && |data[p]| == PGSIZE && IsAt(t, data, va, bytes + data[p][off..off + n])
  {
    var at := va + |bytes|;
    var p, off := t[at / PGSIZE].ppn, at % PGSIZE;
    var more := bytes + data[p][off..off + n];
    forall a: nat | va <= a < va + |more|
      ensures UserAt(t, a) && more[a - va] == ByteAt(t, data, a)
    {
      if a >= at {
        assert a / PGSIZE == at / PGSIZE && a % PGSIZE == off + (a - at);
        assert UserAt(t, a);
      }
    }
  }

  /** copyin: the bytes of user memory from source on, up to the first address that is not user memory */
  method CopyIn(mem: Memory, root: nat, source: nat, length: nat, ghost t: map<nat, Pte>)
    returns (ok: bool, bytes: seq<Byte>)
    requires mem.Valid() && Translates(mem.tables, root, t) && UserData(t, mem.data)
    ensures |bytes| <= length && IsAt(t, mem.data, source, bytes)
    ensures if ok then |bytes| == length else |bytes| < length && !UserAt(t, source + |bytes|)
  {
    var va := source;
    bytes := [];
    while |bytes| < length
      invariant |bytes| <= length && (|bytes| < length ==> va == source + |bytes|)
      invariant IsAt(t, mem.data, source, bytes)
    {
      var p := mem.WalkAddr(root, va, t);
      if p == None {
        return false, bytes;
      }
      var off := va % PGSIZE;
      var nbytes := if PGSIZE - off <= length - |bytes| then PGSIZE - off else length - |bytes|;
      ReadMore(t, mem.data, source, bytes, nbytes);
      bytes, va := bytes + mem.data[p.value][off..off + nbytes], va - off + PGSIZE;
    }
    return true, bytes;
  }

  /** What was written at an address is what is there. */
  lemma WrittenIsAt(t: map<nat, Pte>, data: map<nat, seq<Byte>>, data': map<nat, seq<Byte>>, dest: nat,
                    s: seq<Byte>, bytes: seq<Byte>)
    requires UserData(t, data) && Written(t, data, data', dest, s) && IsAt(t, data', dest, bytes) && |bytes| == |s|
    ensures bytes == s
  {
    forall i | 0 <= i < |s|
      ensures bytes[i] == s[i]
    {
      var a := dest + i;
      assert UserAt(t, a) && bytes[a - dest] == ByteAt(t, data', a);
    }
  }

  /** copyin after copyout gives back what was copied out, and both succeed exactly on user memory. */
  method RoundTrip(mem: Memory, root: nat, dest: nat, source: seq<Byte>, ghost t: map<nat, Pte>)
    returns (ok: bool, bytes: seq<Byte>)
    requires mem.Valid() && Translates(mem.tables, root, t) && UserData(t, mem.data)
    modifies mem`data
    ensures ok ==> bytes == source
    ensures ok <==> UserRange(t, dest, |source|)
  {
    ghost var n;
    ok, n := CopyOut(mem, root, dest, source, t);
    bytes := [];
    if ok {
      ok, bytes := CopyIn(mem, root, dest, |source|, t);
      assert source[..n] == source;
      if ok {
        WrittenIsAt(t, old(mem.data), mem.data, dest, source[..n], bytes);
      }
    }
  }

  lemma ProcessRange(m: map<nat, Table>, root: nat, t: map<nat, Pte>, data: map<nat, seq<Byte>>, n: nat, dest: nat,
                     len: nat)
    requires Translates(m, root, t) && Process(t, data, n) && !t[TRAPFRAME].flags.user && !t[TRAMPOLINE].flags.user
    requires forall k :: 0 <= k < n ==> t[k].flags.user
    ensures UserRange(t, dest, len) <==> len == 0 || dest + len <= n * PGSIZE
  {
    forall a: nat
      ensures UserAt(t, a) <==> a / PGSIZE < n
    {
      assert a / PGSIZE in t ==> a / PGSIZE < MAXPAGES;
    }
    if len > 0 && UserRange(t, dest, len) {
      assert UserAt(t, dest + len - 1);
    }
  }

  /** The same for a process of n pages, whose user memory ends after them. */
  method ProcessRoundTrip(mem: Memory, root: nat, n: nat, dest: nat, source: seq<Byte>, ghost t: map<nat, Pte>)
    returns (ok: bool, bytes: seq<Byte>)
    requires mem.Valid() && Translates(mem.tables, root, t) && Process(t, mem.data, n)
    requires !t[TRAPFRAME].flags.user && !t[TRAMPOLINE].flags.user && forall k :: 0 <= k < n ==> t[k].flags.user
    modifies mem`data
    ensures ok ==> bytes == source
    ensures ok <==> source == [] || dest + |source| <= n * PGSIZE
  {
    ProcessUserData(mem.tables, root, t, mem.data, n);
    ProcessRange(mem.tables, root, t, mem.data, n, dest, |source|);
    ok, bytes := RoundTrip(mem, root, dest, source, t);
  }
}

/**
 kernel/bio.c: the buffers and the doubly linked list that keeps them sorted by
 how recently they were used.  Sleep locks and the disk are LogMachine's; here
 are the functions that run under bcache.lock.
 */
module BufferCache {

  datatype Buf = Buf(dev: nat, blockno: nat, valid: bool, refcnt: nat)

  datatype Got =
    | Hit(i: nat)       // the block was cached, in buffer i
    | Recycled(i: nat)  // buffer i was taken over for the block
    | NoBuffers         // panic: every buffer is in use

  predicate Caches(b: Buf, dev: nat, blockno: nat) {
    b.dev == dev && b.blockno == blockno
  }

  /** Buffers of a real device never cache the same block twice. */
  ghost predicate Unique(bufs: seq<Buf>) {
    forall i, j :: 0 <= i < j < |bufs| && bufs[i].dev != 0 ==> !Caches(bufs[j], bufs[i].dev, bufs[i].blockno)
  }

  // ---------- The list ----------

  /** The list as a closed walk from the head node n through all of `order` and back. */
  ghost function Walk(order: seq<nat>, n: nat): (r: seq<nat>)
    ensures |r| == |order| + 2 && r[0] == n && r[|order| + 1] == n
    ensures forall k :: 0 <= k < |order| ==> r[k + 1] == order[k]
  {
    [n] + order + [n]
  }

  /** next and prev link the nodes of `order`, most recently used first, to the head node n. */
  ghost predicate Linked(next: seq<nat>, prev: seq<nat>, order: seq<nat>, n: nat) {
    && |next| == |prev| == n + 1
    && (forall k :: 0 <= k < |order| ==> order[k] < n)
    && (forall j, k :: 0 <= j < k < |order| ==> order[j] != order[k])
    && forall k :: 0 <= k <= |order| ==> Joined(next, prev, Walk(order, n)[k], Walk(order, n)[k + 1])
  }

  predicate Joined(next: seq<nat>, prev: seq<nat>, a: nat, b: nat) {
    a < |next| && b < |prev| && next[a] == b && prev[b] == a
  }

  function Without(order: seq<nat>, p: nat): (r: seq<nat>)
    requires p < |order|
  {
    order[..p] + order[p + 1..]
  }

  /** The list without its first occurrence of b. */
  function Remove(order: seq<nat>, b: nat): (r: seq<nat>) {
    if order == [] then []
    else if order[0] == b then order[1..]
    else [order[0]] + Remove(order[1..], b)
  }

  lemma {:induction false} RemoveIsWithout(order: seq<nat>, p: nat)
    requires p < |order| && forall k :: 0 <= k < p ==> order[k] != order[p]
    ensures Remove(order, order[p]) == Without(order, p)
  {
    if p > 0 {
      RemoveIsWithout(order[1..], p - 1);
      assert Without(order, p) == [order[0]] + Without(order[1..], p - 1);
    }
  }

  lemma WithoutDistinct(order: seq<nat>, n: nat, p: nat)
    requires p < |order|
    requires forall k :: 0 <= k < |order| ==> order[k] < n
    requires forall j, k :: 0 <= j < k < |order| ==> order[j] != order[k]
    ensures forall k :: 0 <= k < |Without(order, p)| ==> Without(order, p)[k] < n
    ensures forall j, k :: 0 <= j < k < |Without(order, p)| ==> Without(order, p)[j] != Without(order, p)[k]
  {
  }

  /** The link at position k once order[p] is bypassed. */
  lemma UnlinkAt(next: seq<nat>, prev: seq<nat>, order: seq<nat>, n: nat, p: nat, k: nat)
    requires Linked(next, prev, order, n) && p < |order| && k < |order|
    ensures var w, w' := Walk(order, n), Walk(Without(order, p), n);
            && w[p] <= n && w[p + 2] <= n
            && Joined(next[w[p] := w[p + 2]], prev[w[p + 2] := w[p]], w'[k], w'[k + 1])
  {
    var w, w' := Walk(order, n), Walk(Without(order, p), n);
    assert Joined(next, prev, w[p], w[p + 1]) && Joined(next, prev, w[p + 1], w[p + 2]);
    if k < p {
      assert w'[k] == w[k] && w'[k + 1] == w[k + 1];
      assert Joined(next, prev, w[k], w[k + 1]);
    } else if k > p {
      assert w'[k] == w[k + 1] && w'[k + 1] == w[k + 2];
      assert Joined(next, prev, w[k + 1], w[k + 2]);
    }
  }

  /** b->next->prev = b->prev; b->prev->next = b->next; */
  lemma Unlink(next: seq<nat>, prev: seq<nat>, order: seq<nat>, n: nat, p: nat)
    requires Linked(next, prev, order, n) && p < |order|
    ensures next[order[p]] <= n && prev[order[p]] <= n
    ensures Linked(next[prev[order[p]] := next[order[p]]], prev[next[order[p]] := prev[order[p]]], Without(order, p), n)
  {
    var w, o' := Walk(order, n), Without(order, p);
    assert Joined(next, prev, w[p], w[p + 1]) && Joined(next, prev, w[p + 1], w[p + 2]);
    WithoutDistinct(order, n, p);
    forall k | 0 <= k <= |o'|
      ensures Joined(next[w[p] := w[p + 2]], prev[w[p + 2] := w[p]], Walk(o', n)[k], Walk(o', n)[k + 1])
    {
      UnlinkAt(next, prev, order, n, p, k);
    }
  }

  /** b->next = head.next; b->prev = &head; head.next->prev = b; head.next = b; */
  lemma LinkFront(next: seq<nat>, prev: seq<nat>, order: seq<nat>, n: nat, b: nat)
    requires Linked(next, prev, order, n) && b < n && b !in order
    ensures next[n] <= n
    ensures Linked(next[b := next[n]][n := b], prev[b := n][next[n] := b], [b] + order, n)
  {
    var w, o' := Walk(order, n), [b] + order;
    var w' := Walk(o', n);
    assert Joined(next, prev, w[0], w[1]);
    var next', prev' := next[b := next[n]][n := b], prev[b := n][next[n] := b];
    assert w'[0] == n && w'[1] == b;
    assert forall k :: 1 <= k <= |order| + 1 ==> w'[k + 1] == w[k];
    forall k | 0 <= k <= |o'|
      ensures Joined(next', prev', w'[k], w'[k + 1])
    {
      if k >= 2 {
        assert Joined(next, prev, w[k - 1], w[k]);
      }
    }
  }

  /** Unlinking b and linking it in front makes it the most recently used. */
  lemma ToFront(next: seq<nat>, prev: seq<nat>, order: seq<nat>, n: nat, b: nat)
    requires Linked(next, prev, order, n) && |order| == n && b < n
    ensures next[b] <= n && prev[b] <= n
    ensures var next1, prev1 := next[prev[b] := next[b]], prev[next[b] := prev[b]];
            && next1[n] <= n
            && |Remove(order, b)| == n - 1
            && Linked(next1[b := next1[n]][n := b], prev1[b := n][next1[n] := b], [b] + Remove(order, b), n)
  {
    AllInOrder(order, n);
    assert b in order;
    var p :| 0 <= p < n && order[p] == b;
    Unlink(next, prev, order, n, p);
    RemoveIsWithout(order, p);
    assert b !in Without(order, p);
    LinkFront(next[prev[b] := next[b]], prev[next[b] := prev[b]], Without(order, p), n, b);
  }

  class Cache {
    const n: nat            // NBUF
    var bufs: seq<Buf>
    var next: seq<nat>      // links; index n is bcache.head
    var prev: seq<nat>
    ghost var order: seq<nat>  // the buffers, most recently used first

    ghost predicate Valid()
      reads this
    {
      && |bufs| == |order| == n
      && Linked(next, prev, order, n)
      && Unique(bufs)
    }

    /** binit */
    constructor (nbuf: nat)
      ensures Valid() && n == nbuf
      ensures forall i :: 0 <= i < n ==> bufs[i] == Buf(0, 0, false, 0)
      ensures forall k :: 0 <= k < n ==> order[k] == n - 1 - k
    {
      n := nbuf;
      bufs := seq(nbuf, _ => Buf(0, 0, false, 0));
      next := seq(nbuf + 1, _ => nbuf);
      prev := seq(nbuf + 1, _ => nbuf);
      order := [];
      new;
      var b := 0;
      while b < n
        invariant b <= n && |order| == b
        invariant Linked(next, prev, order, n)
        invariant forall k :: 0 <= k < b ==> order[k] == b - 1 - k
        invariant bufs == seq(n, _ => Buf(0, 0, false, 0))
      {
        LinkFront(next, prev, order, n, b);
        var first := next[n];
        next := next[b := first];
        prev := prev[b := n];
        prev := prev[first := b];
        next := next[n := b];
        order := [b] + order;
        b := b + 1;
      }
    }

    /** bget's first loop: from the most recently used buffer on. */
    method FindCached(dev: nat, blockno: nat) returns (b: nat)
      requires Valid()
      ensures b < n ==> Caches(bufs[b], dev, blockno)
      ensures b >= n ==> b == n && forall i :: 0 <= i < n ==> !Caches(bufs[i], dev, blockno)
    {
      ghost var w, k := Walk(order, n), 1;
      assert Joined(next, prev, w[0], w[1]);
      b := next[n];
      while b != n && !Caches(bufs[b], dev, blockno)
        invariant 1 <= k <= n + 1 && b == w[k]
        invariant forall j :: 1 <= j < k ==> !Caches(bufs[w[j]], dev, blockno)
        decreases n + 1 - k
      {
        assert Joined(next, prev, w[k], w[k + 1]);
        b := next[b];
        k := k + 1;
      }
      if b == n {
        NowhereCached(bufs, order, n, dev, blockno);
      }
    }

    /** bget's second loop: from the least recently used buffer back. */
    method FindUnused() returns (b: nat)
      requires Valid()
      ensures b < n ==> exists p :: 0 <= p < n && order[p] == b && LeastRecentUnused(bufs, order, p)
      ensures b >= n ==> b == n && forall i :: 0 <= i < n ==> bufs[i].refcnt > 0
    {
      ghost var w, k := Walk(order, n), n;
      assert Joined(next, prev, w[n], w[n + 1]);
      b := prev[n];
      while b != n && bufs[b].refcnt != 0
        invariant 0 <= k <= n && b == w[k]
        invariant forall j :: k <= j < n ==> bufs[order[j]].refcnt > 0
        decreases k
      {
        assert Joined(next, prev, w[k - 1], w[k]);
        b := prev[b];
        k := k - 1;
      }
      if b == n {
        NoneUnused(bufs, order, n);
      } else {
        assert order[k - 1] == b && LeastRecentUnused(bufs, order, k - 1);
      }
    }

    /** bget, up to releasing bcache.lock. */
    method Bget(dev: nat, blockno: nat) returns (r: Got)
      requires Valid()
      modifies this`bufs
      ensures Valid()
      ensures match r
              case Hit(i) =>
                && i < n && old(bufs)[i].dev == dev && old(bufs)[i].blockno == blockno
                && bufs == old(bufs)[i := old(bufs)[i].(refcnt := old(bufs)[i].refcnt + 1)]
              case Recycled(i) =>
                && i < n && (forall j :: 0 <= j < n ==> old(bufs)[j].dev != dev || old(bufs)[j].blockno != blockno)
                && (exists p :: 0 <= p < n && order[p] == i && LeastRecentUnused(old(bufs), order, p))
                && bufs == old(bufs)[i := Buf(dev, blockno, false, 1)]
              case NoBuffers =>
                && (forall j :: 0 <= j < n ==> bufs[j].dev != dev || bufs[j].blockno != blockno)
                && (forall j :: 0 <= j < n ==> bufs[j].refcnt > 0)
                && bufs == old(bufs)
    {
      var b := FindCached(dev, blockno);
      if b < n {
        bufs := bufs[b := bufs[b].(refcnt := bufs[b].refcnt + 1)];
        return Hit(b);
      }
      b := FindUnused();
      if b < n {
        bufs := bufs[b := Buf(dev, blockno, false, 1)];
        return Recycled(b);
      }
      r := NoBuffers;
    }

    /** brelse, after releasing the sleep lock: an unused buffer becomes the most recently used. */
    method Brelse(b: nat)
      requires Valid() && b < n && bufs[b].refcnt > 0
      modifies this
      ensures Valid()
      ensures bufs == old(bufs)[b := old(bufs)[b].(refcnt := old(bufs)[b].refcnt - 1)]
      ensures order == if bufs[b].refcnt == 0 then [b] + Remove(old(order), b) else old(order)
    {
      bufs := bufs[b := bufs[b].(refcnt := bufs[b].refcnt - 1)];
      if bufs[b].refcnt == 0 {
        ToFront(next, prev, order, n, b);
        var after, before := next[b], prev[b];
        prev := prev[after := before];
        next := next[before := after];
        var first := next[n];
        next := next[b := first];
        prev := prev[b := n];
        prev := prev[first := b];
        next := next[n := b];
        order := [b] + Remove(order, b);
      }
    }

    method Bpin(b: nat)
      requires Valid() && b < n
      modifies this`bufs
      ensures Valid() && bufs == old(bufs)[b := old(bufs)[b].(refcnt := old(bufs)[b].refcnt + 1)]
    {
      bufs := bufs[b := bufs[b].(refcnt := bufs[b].refcnt + 1)];
    }

    method Bunpin(b: nat)
      requires Valid() && b < n && bufs[b].refcnt > 0
      modifies this`bufs
      ensures Valid() && bufs == old(bufs)[b := old(bufs)[b].(refcnt := old(bufs)[b].refcnt - 1)]
    {
      bufs := bufs[b := bufs[b].(refcnt := bufs[b].refcnt - 1)];
    }
  }

  /** The buffer at position p is unused and every less recently used one is in use. */
  ghost predicate LeastRecentUnused(bufs: seq<Buf>, order: seq<nat>, p: nat) {
    && p < |order| && (forall k :: 0 <= k < |order| ==> order[k] < |bufs|)
    && bufs[order[p]].refcnt == 0
    && forall k :: p < k < |order| ==> bufs[order[k]].refcnt > 0
  }

  /** n distinct numbers below n are all the numbers below n. */
  lemma {:induction false} AllInOrder(order: seq<nat>, n: nat)
    requires |order| == n
    requires forall k :: 0 <= k < |order| ==> order[k] < n
    requires forall j, k :: 0 <= j < k < |order| ==> order[j] != order[k]
    ensures forall i :: 0 <= i < n ==> i in order
  {
    var s := set k | 0 <= k < n :: order[k];
    CardOfSeq(order, n);
    forall i | 0 <= i < n
      ensures i in order
    {
      if i !in order {
        assert s <= Below(n) - {i};
        SubsetCard(s, Below(n) - {i});
      }
    }
  }

  /** A search that met every node of the list has met every buffer. */
  lemma NowhereCached(bufs: seq<Buf>, order: seq<nat>, n: nat, dev: nat, blockno: nat)
    requires |order| == |bufs| == n
    requires forall k :: 0 <= k < |order| ==> order[k] < n
    requires forall j, k :: 0 <= j < k < |order| ==> order[j] != order[k]
    requires forall j :: 1 <= j < n + 1 ==> !Caches(bufs[Walk(order, n)[j]], dev, blockno)
    ensures forall i :: 0 <= i < n ==> !Caches(bufs[i], dev, blockno)
  {
    AllInOrder(order, n);
    forall i | 0 <= i < n
      ensures !Caches(bufs[i], dev, blockno)
    {
      assert i in order;
      var k :| 0 <= k < n && order[k] == i;
      assert Walk(order, n)[k + 1] == i;
    }
  }

  lemma NoneUnused(bufs: seq<Buf>, order: seq<nat>, n: nat)
    requires |order| == |bufs| == n
    requires forall k :: 0 <= k < |order| ==> order[k] < n
    requires forall j, k :: 0 <= j < k < |order| ==> order[j] != order[k]
    requires forall j :: 0 <= j < n ==> bufs[order[j]].refcnt > 0
    ensures forall i :: 0 <= i < n ==> bufs[i].refcnt > 0
  {
    AllInOrder(order, n);
    forall i | 0 <= i < n
      ensures bufs[i].refcnt > 0
    {
      assert i in order;
    }
  }

  ghost function Below(n: nat): (s: set<nat>)
    ensures |s| == n && forall i: nat :: i in s <==> i < n
  {
    if n == 0 then {} else Below(n - 1) + {n - 1}
  }

  lemma {:induction false} CardOfSeq(order: seq<nat>, m: nat)
    requires m <= |order|
    requires forall j, k :: 0 <= j < k < |order| ==> order[j] != order[k]
    ensures |set k | 0 <= k < m :: order[k]| == m
  {
    if m > 0 {
      CardOfSeq(order, m - 1);
      var s := set k | 0 <= k < m - 1 :: order[k];
      assert (set k | 0 <= k < m :: order[k]) == s + {order[m - 1]};
    }
  }

  lemma {:induction false} SubsetCard(a: set<nat>, b: set<nat>)
    requires a <= b
    ensures |a| <= |b|
  {
    if a != {} {
      var x :| x in a;
      SubsetCard(a - {x}, b - {x});
    }
  }
}

/**
 Pipes of kernel/pipe.c.  The pipe's lock is held from where a method begins to where
 it returns or goes to sleep, so methods are the atomic steps of readers and writers,
 and what holds between them holds whenever the lock is free.
 */
module Pipe {
  import opened Common

  const PIPESIZE: nat := 512
  const WRAP: nat := 0x1_0000_0000   // nread and nwrite are 32 bits wide

  type Thread = nat

  datatype Outcome = Slept | Returned | Failed

  lemma WrapSlot(n: nat)
    ensures n % WRAP % PIPESIZE == n % PIPESIZE && (n % WRAP + 1) % WRAP == (n + 1) % WRAP
  {
  }

  lemma WrapEqual(m: nat, n: nat)
    requires m <= n < m + WRAP
    ensures m % WRAP == n % WRAP <==> m == n
  {
  }

  lemma WrapAdd(m: nat)
    ensures (m % WRAP + PIPESIZE) % WRAP == (m + PIPESIZE) % WRAP
  {
  }

  /** Wrapping counters name the right slot, and tell full and empty. */
  lemma Counters(r: nat, w: nat)
    requires r <= w <= r + PIPESIZE
    ensures w % WRAP % PIPESIZE == w % PIPESIZE && r % WRAP % PIPESIZE == r % PIPESIZE
    ensures r % WRAP == w % WRAP <==> r == w
    ensures w % WRAP == (r % WRAP + PIPESIZE) % WRAP <==> w == r + PIPESIZE
    ensures (w % WRAP + 1) % WRAP == (w + 1) % WRAP && (r % WRAP + 1) % WRAP == (r + 1) % WRAP
  {
    WrapSlot(r);
    WrapSlot(w);
    WrapEqual(r, w);
    WrapAdd(r);
    WrapEqual(w, r + PIPESIZE);
  }

  lemma SlotsDiffer(i: nat, j: nat)
    requires i < j < i + PIPESIZE
    ensures i % PIPESIZE != j % PIPESIZE
  {
  }

  class Channel {
    const data: array<Byte>
    var nread: nat
    var nwrite: nat
    var readopen: bool
    var writeopen: bool
    var readers: set<Thread>   // asleep on nread
    var writers: set<Thread>   // asleep on nwrite

    ghost var stored: seq<Byte>   // everything ever written
    ghost var taken: nat          // how much of it has been read

    ghost predicate Valid()
      reads this, data
    {
      && data.Length == PIPESIZE && taken <= |stored| <= taken + PIPESIZE
      && nread == taken % WRAP && nwrite == |stored| % WRAP
      && forall i :: taken <= i < |stored| ==> data[i % PIPESIZE] == stored[i]
    }

    /** No reader sleeps at a pipe that has data or no writer, and no writer at one that has room or no reader. */
    ghost predicate NobodyStuck()
      reads this
    {
      && (readers != {} ==> taken == |stored| && writeopen)
      && (writers != {} ==> |stored| == taken + PIPESIZE && readopen)
    }

    /**
     A writer with bytes left, killed after it has stored something and before the pipe
     is full, while a reader sleeps: pipewrite then returns without waking the reader.
     */
    ghost predicate ForgetsReader(bytes: seq<Byte>, n: nat, i: nat, killAt: int)
      reads this
    {
      readers != {} && readopen && i < killAt <= |bytes| && killAt < n && killAt - i <= PIPESIZE
    }

    constructor ()
      ensures Valid() && NobodyStuck() && stored == [] && taken == 0 && readopen && writeopen
      ensures fresh(data)
    {
      data := new Byte[PIPESIZE];
      nread, nwrite, readopen, writeopen := 0, 0, true, true;
      readers, writers := {}, {};
      stored, taken := [], 0;
    }

    /** pipewrite's store of one byte */
    method Put(ch: Byte)
      requires Valid() && |stored| < taken + PIPESIZE
      modifies this`nwrite, this`stored, data
      ensures Valid() && stored == old(stored) + [ch]
    {
      Counters(taken, |stored|);
      data[nwrite % PIPESIZE] := ch;
      nwrite := (nwrite + 1) % WRAP;
      forall i | taken <= i < |stored|
        ensures data[i % PIPESIZE] == stored[i]
      {
        SlotsDiffer(i, |stored|);
      }
      stored := stored + [ch];
    }

    /**
     pipewrite of n bytes by thread me, who has written i of them, from taking the lock
     to sleeping or returning.  Only the first |bytes| can be copied in; killAt is how
     far the call gets before it finds that it was killed, if it was.
     */
    method Write(me: Thread, bytes: seq<Byte>, n: nat, i: nat, killAt: int) returns (i': nat, r: Outcome)
      requires Valid() && i <= |bytes| <= n
      modifies this`nwrite, this`stored, this`readers, this`writers, data
      ensures Valid() && i <= i' <= |bytes| && stored == old(stored) + bytes[i..i']
      ensures readers == if r == Failed then old(readers) else {}
      ensures writers == if r == Slept then old(writers) + {me} else old(writers)
      ensures r == Slept ==> |stored| == taken + PIPESIZE && i' < n
      ensures r == Returned ==> i' == |bytes|
      ensures r == Failed ==> !readopen || i' == killAt
      ensures readopen && i <= killAt <= |bytes| && killAt < n && |old(stored)| + killAt - i <= taken + PIPESIZE
              ==> r == Failed
      ensures old(NobodyStuck()) ==> (NobodyStuck() <==> !old(ForgetsReader(bytes, n, i, killAt)))
    {
      i' := i;
      while i' < n
        invariant i <= i' <= |bytes| && Valid() && stored == old(stored) + bytes[i..i']
        invariant readers == old(readers) && writers == old(writers)
        invariant i' > i ==> readopen && (old(NobodyStuck()) ==> writers == {})
        invariant i <= killAt ==> i' <= killAt
        decreases n - i'
      {
        if !readopen || i' == killAt {
          return i', Failed;
        }
        Counters(taken, |stored|);
        if nwrite == (nread + PIPESIZE) % WRAP {
          readers := {};
          writers := writers + {me};
          return i', Slept;
        }
        if i' == |bytes| {
          break;
        }
        Put(bytes[i']);
        i' := i' + 1;
      }
      readers := {};
      r := Returned;
    }

    /** The pipe holds more than the reader's memory has room for, and more is asked for. */
    ghost predicate LosesByte(n: nat, room: nat)
      reads this
    {
      room < n && taken + room < |stored|
    }

    /**
     piperead of n bytes by thread me, from taking the lock to sleeping or returning.
     The reader's memory has room for the first room bytes; a byte that does not fit is lost.
     */
    method Read(me: Thread, n: nat, room: nat, killed: bool) returns (out: seq<Byte>, r: Outcome)
      requires Valid()
      modifies this`nread, this`taken, this`readers, this`writers
      ensures Valid() && (old(NobodyStuck()) ==> NobodyStuck())
      ensures r != Returned <==> old(taken) == |stored| && writeopen
      ensures r != Returned ==> r == (if killed then Failed else Slept) && taken == old(taken)
      ensures readers == if r == Slept then old(readers) + {me} else old(readers)
      ensures writers == if r == Returned then {} else old(writers)
      ensures r == Returned ==> |out| <= n && |out| <= room
      ensures r == Returned ==> old(taken) + |out| <= |stored| && out == stored[old(taken)..old(taken) + |out|]
      ensures r == Returned ==> taken == old(taken) + |out| + if old(LosesByte(n, room)) then 1 else 0
      ensures r == Returned && |out| < n && |out| < room ==> taken == |stored|
    {
      out := [];
      Counters(taken, |stored|);
      if nread == nwrite && writeopen {
        if killed {
          return out, Failed;
        }
        readers := readers + {me};
        return out, Slept;
      }
      while |out| < n
        invariant Valid() && |out| <= n && |out| <= room && taken == old(taken) + |out| <= |stored|
        invariant out == stored[old(taken)..taken]
        invariant readers == old(readers) && writers == old(writers)
        decreases n - |out|
      {
        Counters(taken, |stored|);
        if nread == nwrite {
          break;
        }
        var ch := data[nread % PIPESIZE];
        nread := (nread + 1) % WRAP;
        taken := taken + 1;
        if |out| == room {
          break;
        }
        out := out + [ch];
      }
      writers := {};
      r := Returned;
    }

    /** pipeclose of one end, which wakes who sleeps at the other; last means that the pipe is freed. */
    method Close(writable: bool) returns (last: bool)
      requires Valid()
      modifies this`readopen, this`writeopen, this`readers, this`writers
      ensures Valid() && (old(NobodyStuck()) ==> NobodyStuck())
      ensures writeopen == (old(writeopen) && !writable) && readopen == (old(readopen) && writable)
      ensures readers == (if writable then {} else old(readers)) && writers == (if writable then old(writers) else {})
      ensures last <==> !readopen && !writeopen
    {
      if writable {
        writeopen := false;
        readers := {};
      } else {
        readopen := false;
        writers := {};
      }
      last := !readopen && !writeopen;
    }

    /** kill of a thread, which wakes it if it sleeps */
    method Kill(t: Thread)
      requires Valid()
      modifies this`readers, this`writers
      ensures Valid() && (old(NobodyStuck()) ==> NobodyStuck())
      ensures readers == old(readers) - {t} && writers == old(writers) - {t}
    {
      readers, writers := readers - {t}, writers - {t};
    }
  }

  /** A writer killed after its first byte leaves a reader asleep although there is something to read. */
  method KilledWriter(reader: Thread, writer: Thread, x: Byte, y: Byte) returns (c: Channel)
    ensures c.Valid() && reader in c.readers && c.taken < |c.stored| && !c.NobodyStuck()
  {
    c := new Channel();
    var out, r := c.Read(reader, 1, 1, false);
    var i, w := c.Write(writer, [x, y], 2, 0, 1);
  }

  /** A reader without room for a byte it asked for takes that byte out of the pipe, and nobody ever gets it. */
  method LostByte(reader: Thread, writer: Thread, x: Byte, y: Byte) returns (c: Channel, out: seq<Byte>)
    requires x != y
    ensures c.Valid() && c.stored == [x, y] && c.taken == 2 && out == [y]
  {
    c := new Channel();
    var i, w := c.Write(writer, [x, y], 2, 0, -1);
    var none, r := c.Read(reader, 1, 0, false);
    out, r := c.Read(reader, 1, 1, false);
  }

  // ---------- Whole histories ----------

  datatype Call =
    | DoWrite(me: Thread, bytes: seq<Byte>, n: nat, i: nat, killAt: int)
    | DoRead(me: Thread, n: nat, room: nat, killed: bool)
    | DoClose(writable: bool)
    | DoKill(t: Thread)

  predicate CallOk(call: Call) {
    call.DoWrite? ==> call.i <= |call.bytes| <= call.n
  }

  predicate RoomEnough(call: Call) {
    call.DoRead? ==> call.n <= call.room
  }

  predicate KilledMidway(call: Call) {
    call.DoWrite? && call.i < call.killAt <= |call.bytes| && call.killAt < call.n
  }

  /** What was stored, without the lost positions */
  ghost function Delivered(stored: seq<Byte>, taken: nat, lost: set<nat>): (r: seq<Byte>)
    requires taken <= |stored|
  {
    if taken == 0 then []
    else Delivered(stored, taken - 1, lost) + if taken - 1 in lost then [] else [stored[taken - 1]]
  }

  lemma {:induction false} DeliveredStays(stored: seq<Byte>, more: seq<Byte>, taken: nat, lost: set<nat>, x: nat)
    requires taken <= |stored| && taken <= x
    ensures Delivered(stored + more, taken, lost + {x}) == Delivered(stored, taken, lost)
    ensures Delivered(stored + more, taken, lost) == Delivered(stored, taken, lost)
  {
    if taken > 0 {
      DeliveredStays(stored, more, taken - 1, lost, x);
    }
  }

  /** Taking bytes that are not lost delivers them. */
  lemma {:induction false} DeliveredMore(stored: seq<Byte>, m: nat, n: nat, lost: set<nat>)
    requires m <= n <= |stored| && forall x :: x in lost ==> x < m
    ensures Delivered(stored, n, lost) == Delivered(stored, m, lost) + stored[m..n]
    decreases n
  {
    if m < n {
      DeliveredMore(stored, m, n - 1, lost);
      assert stored[m..n] == stored[m..n - 1] + [stored[n - 1]];
    }
  }

  lemma {:induction false} DeliveredAll(stored: seq<Byte>, taken: nat, lost: set<nat>)
    requires taken <= |stored|
    ensures |Delivered(stored, taken, lost)| <= taken
    ensures |Delivered(stored, taken, lost)| == taken <==> forall x :: 0 <= x < taken ==> x !in lost
    ensures (forall x :: 0 <= x < taken ==> x !in lost) ==> Delivered(stored, taken, lost) == stored[..taken]
  {
    if taken > 0 {
      DeliveredAll(stored, taken - 1, lost);
      assert stored[..taken] == stored[..taken - 1] + [stored[taken - 1]];
    }
  }

  /** One call; got is what it delivered, and lost is the position of the byte it lost, if any. */
  method Step(c: Channel, call: Call)
    returns (got: seq<Byte>, put: seq<Byte>, ghost lost: set<nat>, ghost forgets: bool)
    requires c.Valid() && CallOk(call)
    modifies c, c.data
    ensures c.Valid() && c.stored == old(c.stored) + put && old(c.taken) <= c.taken
    ensures forgets == (call.DoWrite? && old(c.ForgetsReader(call.bytes, call.n, call.i, call.killAt)))
    ensures old(c.NobodyStuck()) ==> (c.NobodyStuck() <==> !forgets)
    ensures lost == {} || (lost == {c.taken - 1} && call.DoRead? && old(c.LosesByte(call.n, call.room)))
    ensures old(c.taken) + |got| + |lost| == c.taken && got == c.stored[old(c.taken)..old(c.taken) + |got|]
  {
    got, put, lost, forgets := [], [], {}, false;
    match call
    case DoWrite(me, bytes, n, i, killAt) =>
      forgets := c.ForgetsReader(bytes, n, i, killAt);
      var i', r := c.Write(me, bytes, n, i, killAt);
      put := bytes[i..i'];
    case DoRead(me, n, room, killed) =>
      ghost var loses := c.LosesByte(n, room);
      var out, r := c.Read(me, n, room, killed);
      if r == Returned {
        got := out;
        lost := if loses then {c.taken - 1} else {};
      }
    case DoClose(writable) =>
      var last := c.Close(writable);
    case DoKill(t) =>
      c.Kill(t);
  }

  /**
   Any interleaving of readers, writers, closes and kills: what readers got, in order,
   is what writers put, in order, without the bytes lost to readers without room; it is
   all that was taken exactly when no read lost a byte.  Unless some killed writer
   forgets a sleeping reader, nobody is left asleep who could go on.
   */
  method History(calls: seq<Call>)
    returns (c: Channel, got: seq<Byte>, put: seq<Byte>, ghost lost: set<nat>, ghost forgets: bool)
    requires forall k :: 0 <= k < |calls| ==> CallOk(calls[k])
    ensures c.Valid() && c.stored == put && got == Delivered(put, c.taken, lost)
    ensures lost == {} ==> got == put[..c.taken]
    ensures lost != {} ==> |got| < c.taken
    ensures (forall k :: 0 <= k < |calls| ==> RoomEnough(calls[k])) ==> lost == {}
    ensures !forgets ==> c.NobodyStuck()
    ensures (forall k :: 0 <= k < |calls| ==> !KilledMidway(calls[k])) ==> !forgets
  {
    c := new Channel();
    got, put, lost, forgets := [], [], {}, false;
    for k := 0 to |calls|
      invariant c.Valid() && fresh(c) && fresh(c.data) && c.stored == put
      invariant (forall x :: x in lost ==> x < c.taken) && got == Delivered(put, c.taken, lost)
      invariant (forall j :: 0 <= j < k ==> RoomEnough(calls[j])) ==> lost == {}
      invariant !forgets ==> c.NobodyStuck()
      invariant (forall j :: 0 <= j < k ==> !KilledMidway(calls[j])) ==> !forgets
    {
      ghost var was, taken := put, c.taken;
      var g, p;
      ghost var l, f;
      g, p, l, f := Step(c, calls[k]);
      Extended(was, p, taken, lost, g, l, c.taken);
      got, put, lost, forgets := got + g, put + p, lost + l, forgets || f;
    }
    DeliveredAll(put, c.taken, lost);
  }

  lemma Extended(was: seq<Byte>, p: seq<Byte>, taken: nat, lost: set<nat>, g: seq<Byte>, l: set<nat>, now: nat)
    requires taken <= |was| && now <= |was + p| && (forall x :: x in lost ==> x < taken)
    requires taken + |g| + |l| == now && g == (was + p)[taken..taken + |g|]
    requires l == {} || l == {now - 1}
    ensures Delivered(was + p, now, lost + l) == Delivered(was, taken, lost) + g
    ensures forall x :: x in lost + l ==> x < now
  {
    var stored := was + p;
    DeliveredStays(was, p, taken, lost, now);
    DeliveredMore(stored, taken, taken + |g|, lost);
    if l == {} {
      assert lost + l == lost;
    } else {
      LosesOne(stored, now, lost);
    }
  }

  lemma LosesOne(stored: seq<Byte>, now: nat, lost: set<nat>)
    requires 0 < now <= |stored|
    ensures Delivered(stored, now, lost + {now - 1}) == Delivered(stored, now - 1, lost)
  {
    DeliveredStays(stored, [], now - 1, lost, now - 1);
    assert stored + [] == stored;
  }
}

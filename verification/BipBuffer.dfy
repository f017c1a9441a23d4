/** The bip buffer of bipbuffer.c: a byte queue in a fixed array that hands out
its bytes in place. */
module BipBuffer {
  import opened Basics

  /** Bytes a to e of the array, then its first b bytes. */
  function Regions(d: seq<Byte>, a: nat, e: nat, b: nat): seq<Byte>
    requires a <= e <= |d| && b <= |d|
  {
    d[a..e] + d[..b]
  }

  predicate Shows(d: seq<Byte>, a: nat, bytes: seq<Byte>) {
    a + |bytes| <= |d| && d[a..a + |bytes|] == bytes
  }

  lemma GrowA(d: seq<Byte>, a: nat, e: nat, n: nat)
    requires a <= e <= e + n <= |d|
    ensures Regions(d, a, e + n, 0) == Regions(d, a, e, 0) + d[e..e + n]
  {}

  lemma GrowB(d: seq<Byte>, a: nat, e: nat, b: nat, n: nat)
    requires a <= e <= |d| && b + n <= |d|
    ensures Regions(d, a, e, b + n) == Regions(d, a, e, b) + d[b..b + n]
  {}

  lemma CutA(d: seq<Byte>, a: nat, e: nat, b: nat, n: nat)
    requires a + n <= e <= |d| && b <= |d|
    ensures n <= |Regions(d, a, e, b)| && d[a..a + n] == Regions(d, a, e, b)[..n]
    ensures Regions(d, a + n, e, b) == Regions(d, a, e, b)[n..] && |Regions(d, a, e, b)| == e - a + b
  {}

  /** Bytes go in at the end of what is there, and come out at its front. */
  lemma Appended(taken: seq<Byte>, there: seq<Byte>, more: seq<Byte>)
    ensures taken + (there + more) == (taken + there) + more
  {}

  lemma Removed(taken: seq<Byte>, there: seq<Byte>, n: nat)
    requires n <= |there|
    ensures (taken + there[..n]) + there[n..] == taken + there
  {}

  lemma FrontStays(d: seq<Byte>, d': seq<Byte>, a: nat, e: nat, bytes: seq<Byte>)
    requires a + |bytes| <= e <= |d| && |d'| == |d| && d'[a..e] == d[a..e] && Shows(d, a, bytes)
    ensures Shows(d', a, bytes)
  {
    assert d[a..a + |bytes|] == d[a..e][..|bytes|] && d'[a..a + |bytes|] == d'[a..e][..|bytes|];
  }

  lemma ShowsNothing(d: seq<Byte>, a: nat, bytes: seq<Byte>)
    requires a <= |d|
    ensures Shows(d, a, [])
    ensures Shows(d, a, bytes) ==> a + |bytes| <= |d| && d[a..a + |bytes|] == bytes
  {}

  /** Without a region A, region B is read next. */
  lemma BecomesA(d: seq<Byte>, a: nat, b: nat)
    requires a <= |d| && b <= |d|
    ensures Regions(d, a, a, b) == Regions(d, 0, b, 0)
  {}

  class Buffer {
    const data: array<Byte>
    /** Region A, which is read first, and the end of region B, which starts at 0. */
    var aStart: nat
    var aEnd: nat
    var bEnd: nat
    var bInUse: bool
    /** Everything that was put in and everything that was polled. */
    ghost var put: seq<Byte>
    ghost var taken: seq<Byte>
    /** The bytes that a reader has looked at and not polled yet. */
    ghost var peeked: seq<Byte>

    ghost predicate Shape()
      reads this
    {
      && data.Length < 0x8000_0000 && aStart <= aEnd <= data.Length
      && (if bInUse then bEnd <= aStart else bEnd == 0)
      && (aStart == aEnd ==> aStart == 0 && !bInUse)
    }

    /** Region A, then region B. */
    ghost function Contents(): seq<Byte>
      reads this, data
      requires Shape()
    {
      Regions(data[..], aStart, aEnd, bEnd)
    }

    /** First in, first out: what was taken and what is still there are together
    what was put in. And what a reader has looked at is still there, in place, as
    the front of region A. */
    ghost predicate Valid()
      reads this, data
    {
      && Shape() && taken + Contents() == put
      && |peeked| <= aEnd - aStart && Shows(data[..], aStart, peeked)
    }

    /** bipbuf_init. */
    constructor (size: nat)
      requires size < 0x8000_0000
      ensures Valid() && data.Length == size && Contents() == [] && put == [] && taken == [] && peeked == []
    {
      data := new Byte[size](i => 0);
      aStart, aEnd, bEnd, bInUse := 0, 0, 0, false;
      put, taken, peeked := [], [], [];
    }

    /** bipbuf_unused. */
    function Unused(): (n: nat)
      reads this
      requires Shape()
      ensures n + bEnd + (aEnd - aStart) <= data.Length
    {
      if bInUse then aStart - bEnd else data.Length - aEnd
    }

    /** Where the next bytes go. */
    function WriteAt(): (p: nat)
      reads this
      requires Shape()
      ensures p + Unused() <= data.Length
      ensures p + Unused() <= aStart || p >= aEnd
    {
      if bInUse then bEnd else aEnd
    }

    /** bipbuf_request: a place for `size` bytes that no byte in the queue is in. */
    method Request(size: nat) returns (ok: bool, p: nat)
      requires Valid()
      ensures ok <==> size <= Unused()
      ensures ok ==> p == WriteAt() && p + size <= data.Length && (p + size <= aStart || p >= aEnd) && p >= bEnd
    {
      ok, p := false, 0;
      if Unused() < size {
        return;
      }
      ok := true;
      if bInUse {
        p := bEnd;
      } else {
        p := aEnd;
      }
    }

    /** A writer fills the place it was given; the queue does not change. */
    method Fill(p: nat, bytes: seq<Byte>)
      requires Valid() && p == WriteAt() && |bytes| <= Unused()
      modifies data
      ensures Valid() && Contents() == old(Contents()) && data[p..p + |bytes|] == bytes
      ensures forall k :: 0 <= k < data.Length && !(p <= k < p + |bytes|) ==> data[k] == old(data[k])
    {
      Copy(p, bytes);
      assert data[aStart..aEnd] == old(data[aStart..aEnd]) && data[..bEnd] == old(data[..bEnd]);
      assert data[..][aStart..aEnd] == data[aStart..aEnd] && old(data[..])[aStart..aEnd] == old(data[aStart..aEnd]);
      assert data[..][..bEnd] == data[..bEnd] && old(data[..])[..bEnd] == old(data[..bEnd]);
      FrontStays(old(data[..]), data[..], aStart, aEnd, peeked);
    }

    /** memcpy into the buffer. */
    method Copy(p: nat, bytes: seq<Byte>)
      requires p + |bytes| <= data.Length
      modifies data
      ensures data[p..p + |bytes|] == bytes
      ensures forall k :: 0 <= k < data.Length && !(p <= k < p + |bytes|) ==> data[k] == old(data[k])
    {
      var i := 0;
      while i < |bytes|
        invariant 0 <= i <= |bytes|
        invariant forall k :: 0 <= k < i ==> data[p + k] == bytes[k]
        invariant forall k :: 0 <= k < data.Length && !(p <= k < p + i) ==> data[k] == old(data[k])
      {
        data[p + i] := bytes[i];
        i := i + 1;
      }
    }

    /** __check_for_switch_to_b: it moves no byte. */
    method CheckForSwitchToB()
      requires Shape()
      modifies this`bInUse
      ensures Shape() && Contents() == old(Contents())
      ensures bInUse == (old(bInUse) || data.Length - aEnd < aStart - bEnd)
    {
      if data.Length - aEnd < aStart - bEnd {
        bInUse := true;
      }
    }

    /** bipbuf_push: the bytes in place join the end of the queue. */
    method Push(size: nat) returns (r: nat)
      requires Valid()
      modifies this`aEnd, this`bEnd, this`bInUse, this`put
      ensures Valid() && aStart == old(aStart) && r == if size <= old(Unused()) then size else 0
      ensures Contents() == old(Contents()) +
        (if size <= old(Unused()) then old(data[WriteAt()..WriteAt() + size]) else [])
    {
      hide Regions, Shows;
      if Unused() < size {
        assert Contents() + [] == Contents();
        return 0;
      }
      ghost var bytes := data[WriteAt()..WriteAt() + size];
      Extend(size);
      Appended(taken, old(Contents()), bytes);
      put := put + bytes;
      CheckForSwitchToB();
      return size;
    }

    /** The end of the region that is being written moves up. */
    method Extend(size: nat)
      requires Shape() && size <= Unused()
      modifies this`aEnd, this`bEnd
      ensures Shape() && aEnd >= old(aEnd) && Contents() == old(Contents()) + old(data[WriteAt()..WriteAt() + size])
    {
      hide Regions;
      ghost var d := data[..];
      assert data[WriteAt()..WriteAt() + size] == d[WriteAt()..WriteAt() + size];
      if bInUse {
        GrowB(d, aStart, aEnd, bEnd, size);
        bEnd := bEnd + size;
      } else {
        GrowA(d, aStart, aEnd, size);
        aEnd := aEnd + size;
      }
    }

    /** bipbuf_offer. */
    method Offer(bytes: seq<Byte>) returns (r: nat)
      requires Valid()
      modifies this`aEnd, this`bEnd, this`bInUse, this`put, data
      ensures Valid() && aStart == old(aStart) && r == if |bytes| <= old(Unused()) then |bytes| else 0
      ensures Contents() == old(Contents()) + (if |bytes| <= old(Unused()) then bytes else [])
    {
      hide Regions, Shows, Contents;
      if Unused() < |bytes| {
        assert Contents() + [] == Contents();
        return 0;
      }
      Fill(WriteAt(), bytes);
      r := Push(|bytes|);
    }

    /** bipbuf_peek_all: all of region A, in place. */
    method PeekAll() returns (ok: bool, p: nat, size: nat)
      requires Valid()
      modifies this`peeked
      ensures Valid() && (ok <==> Contents() != [])
      ensures ok ==> p == aStart && size > 0 && p + size <= data.Length && peeked == data[p..p + size] <= Contents()
      ensures !ok ==> peeked == old(peeked)
    {
      ok, p, size := false, 0, 0;
      if aStart == aEnd {
        return;
      }
      ok, p, size := true, aStart, aEnd - aStart;
      peeked := data[p..p + size];
    }

    /** bipbuf_poll of at most region A: exactly the first bytes leave the queue,
    and they are still where they were. */
    method Poll(size: nat) returns (ok: bool, p: nat)
      requires Valid() && size <= aEnd - aStart && |peeked| <= size
      modifies this`aStart, this`aEnd, this`bEnd, this`bInUse, this`taken, this`peeked
      ensures Valid() && (ok <==> old(Contents()) != []) && peeked == []
      ensures ok ==> p + size <= data.Length && data[p..p + size] == old(Contents())[..size] && p == old(aStart)
      ensures Contents() == old(Contents())[size..] && taken == old(taken) + old(Contents())[..size]
      ensures |old(peeked)| == size && ok ==> data[p..p + size] == old(peeked)
    {
      hide Regions, Shows;
      ok, p := false, 0;
      ghost var before := Contents();
      ghost var d := data[..];
      ShowsNothing(d, aStart, peeked);
      CutA(d, aStart, aEnd, bEnd, size);
      assert data[aStart..aStart + size] == d[aStart..aStart + size];
      Removed(taken, before, size);
      if aStart == aEnd {
        peeked := [];
        return;
      }
      ok, p := true, aStart;
      Advance(size);
      taken := taken + before[..size];
      peeked := [];
      ShowsNothing(d, aStart, peeked);
    }

    /** The cursors after `size` bytes of region A are gone. */
    method Advance(size: nat)
      requires Shape() && aStart < aEnd && size <= aEnd - aStart
      modifies this`aStart, this`aEnd, this`bEnd, this`bInUse
      ensures Shape() && size <= |old(Contents())| && Contents() == old(Contents())[size..]
    {
      hide Regions;
      CutA(data[..], aStart, aEnd, bEnd, size);
      aStart := aStart + size;
      if aStart == aEnd {
        BecomesA(data[..], aStart, bEnd);
        BecomesA(data[..], aStart, 0);
        if bInUse {
          aStart := 0;
          aEnd := bEnd;
          bEnd, bInUse := 0, false;
        } else {
          aStart, aEnd := 0, 0;
        }
      }
      CheckForSwitchToB();
    }
  }
}

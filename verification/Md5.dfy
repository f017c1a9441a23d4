/** The message handling of md5.c: buffering, the bit count, and padding as in
sections 3.1 and 3.2 of RFC 1321, over any block function. */
module Md5 {
  import opened Basics

  const WORD: nat := 0x1_0000_0000

  type Word = x: int | 0 <= x < WORD

  datatype Abcd = Abcd(a: Word, b: Word, c: Word, d: Word)

  /** md5_process: what one block of 64 bytes does to the registers. */
  type BlockFunction = (Abcd, seq<Byte>) -> Abcd

  /** Section 3.3 of RFC 1321. */
  const START: Abcd := Abcd(0x67452301, 0xefcdab89, 0x98badcfe, 0x10325476)

  /** The whole blocks of data, one after the other. */
  function Fold(process: BlockFunction, abcd: Abcd, data: seq<Byte>): Abcd
    decreases |data|
  {
    if |data| < 64 then abcd else Fold(process, process(abcd, data[..64]), data[64..])
  }

  lemma {:induction false} FoldConcat(process: BlockFunction, abcd: Abcd, a: seq<Byte>, b: seq<Byte>)
    requires |a| % 64 == 0
    ensures Fold(process, abcd, a + b) == Fold(process, Fold(process, abcd, a), b)
    decreases |a|
  {
    if a == [] {
      assert a + b == b;
    } else {
      assert (a + b)[..64] == a[..64] && (a + b)[64..] == a[64..] + b;
      FoldConcat(process, process(abcd, a[..64]), a[64..], b);
    }
  }

  /** The number as 8 bytes, lowest first. */
  function LittleEndian(n: nat): (r: seq<Byte>)
    ensures |r| == 8
  {
    [n % 256, n / 0x100 % 256, n / 0x1_0000 % 256, n / 0x100_0000 % 256,
     n / 0x1_0000_0000 % 256, n / 0x100_0000_0000 % 256, n / 0x1_0000_0000_0000 % 256, n / 0x100_0000_0000_0000 % 256]
  }

  /** Step 1: a single 1 bit, then zeros up to 448 bits modulo 512. */
  function Padding(n: nat): (r: seq<Byte>)
    ensures 1 <= |r| <= 64 && (n + |r|) % 64 == 56
  {
    [0x80] + Zeros((55 - n) % 64)
  }

  /** The message after steps 1 and 2. */
  function Padded(msg: seq<Byte>): (r: seq<Byte>)
    ensures |r| % 64 == 0
  {
    msg + Padding(|msg|) + LittleEndian(8 * |msg| % (WORD * WORD))
  }

  function WordBytes(w: Word): (r: seq<Byte>)
    ensures |r| == 4
  {
    [w % 256, w / 0x100 % 256, w / 0x1_0000 % 256, w / 0x100_0000 % 256]
  }

  function Output(r: Abcd): seq<Byte> {
    WordBytes(r.a) + WordBytes(r.b) + WordBytes(r.c) + WordBytes(r.d)
  }

  /** The digest of a message. */
  function Digest(process: BlockFunction, msg: seq<Byte>): seq<Byte> {
    Output(Fold(process, START, Padded(msg)))
  }

  /** The bit count in two words, after nbytes more bytes. */
  function Counted(count: (Word, Word), nbytes: nat): (Word, Word) {
    var nbits := nbytes * 8 % WORD;
    var high := (count.1 + nbytes / 0x2000_0000) % WORD;
    var low := (count.0 + nbits) % WORD;
    (low, if low < nbits then (high + 1) % WORD else high)
  }

  /** The carry between the two words is right. */
  lemma CountedIs(count: (Word, Word), n: nat, nbytes: nat)
    requires count.0 + WORD * count.1 == 8 * n % (WORD * WORD) && nbytes < 0x8000_0000
    ensures var c := Counted(count, nbytes); c.0 + WORD * c.1 == 8 * (n + nbytes) % (WORD * WORD)
  {
    var c := Counted(count, nbytes);
    var wraps := CountedSum(count, nbytes);
    hide Counted;
    SameModulo(8 * n, count.0 + WORD * count.1, 8 * nbytes - WORD * WORD * wraps, c.0 + WORD * c.1, wraps);
  }

  lemma SameModulo(x: nat, r: nat, d: int, r': nat, wraps: int)
    requires r == x % (WORD * WORD) && r' == r + d && r' < WORD * WORD && x + d + WORD * WORD * wraps >= 0
    ensures (x + d + WORD * WORD * wraps) % (WORD * WORD) == r'
  {
    var q := x / (WORD * WORD);
    assert x + d + WORD * WORD * wraps == WORD * WORD * (q + wraps) + r';
  }

  lemma CountedSum(count: (Word, Word), nbytes: nat) returns (wraps: int)
    requires nbytes < 0x8000_0000
    ensures var c := Counted(count, nbytes);
      c.0 + WORD * c.1 == count.0 + WORD * count.1 + 8 * nbytes - WORD * WORD * wraps
  {
    var nbits := nbytes * 8 % WORD;
    var high := nbytes / 0x2000_0000;
    assert nbytes * 8 == nbits + WORD * high;
    var c := Counted(count, nbytes);
    var carry := if count.0 + nbits >= WORD then 1 else 0;
    assert c.0 == count.0 + nbits - WORD * carry;
    assert c.0 < nbits <==> carry == 1;
    wraps := (count.1 + high + carry) / WORD;
    HighWord(count, nbytes, high, carry);
    hide Counted;
  }

  /** The high word with both carries. */
  lemma HighWord(count: (Word, Word), nbytes: nat, high: nat, carry: nat)
    requires nbytes < 0x8000_0000 && high == nbytes / 0x2000_0000
    requires carry == if (count.0 + nbytes * 8 % WORD) % WORD < nbytes * 8 % WORD then 1 else 0
    ensures Counted(count, nbytes).1 == count.1 + high + carry - WORD * ((count.1 + high + carry) / WORD)
  {
    var sum := count.1 + high;
    assert ((sum % WORD) + carry) % WORD == (sum + carry) % WORD;
  }

  /** The place in the block is the message length modulo 64. */
  lemma OffsetIs(low: Word, high: Word, n: nat)
    requires low + WORD * high == 8 * n % (WORD * WORD)
    ensures low / 8 % 64 == n % 64 && (55 - low / 8) % 64 == (55 - n) % 64
  {
    var q := 8 * n / (WORD * WORD);
    assert 8 * n == low + WORD * (high + WORD * q);
    var k := high + WORD * q;
    assert n == low / 8 + 0x2000_0000 * k;
    assert n == low / 8 + 64 * (0x80_0000 * k);
    Mod64(low / 8, 0x80_0000 * k);
    Mod64(55 - n, 0x80_0000 * k);
  }

  lemma Mod64(a: int, k: int)
    ensures (a + 64 * k) % 64 == a % 64
  {}

  /** The whole blocks of a message, and what is left over. */
  function Whole(msg: seq<Byte>): (r: seq<Byte>)
    ensures |r| % 64 == 0 && |r| + |msg| % 64 == |msg|
  {
    msg[..|msg| - |msg| % 64]
  }

  function Over(msg: seq<Byte>): (r: seq<Byte>)
    ensures |r| == |msg| % 64
  {
    msg[|msg| - |msg| % 64..]
  }

  /** One more block. */
  lemma FoldBlock(process: BlockFunction, abcd: Abcd, msg: seq<Byte>, k: nat)
    requires k % 64 == 0 && k + 64 <= |msg|
    ensures Fold(process, abcd, msg[..k + 64]) == process(Fold(process, abcd, msg[..k]), msg[k..k + 64])
  {
    assert msg[..k + 64] == msg[..k] + msg[k..k + 64];
    FoldConcat(process, abcd, msg[..k], msg[k..k + 64]);
    var block := msg[k..k + 64];
    assert block[..64] == block && block[64..] == [];
  }

  class Context {
    const process: BlockFunction
    var count: (Word, Word)
    var abcd: Abcd
    const buf: array<Byte>
    /** Everything that was appended. */
    ghost var msg: seq<Byte>

    ghost predicate Valid()
      reads this, buf
    {
      && buf.Length == 64
      && count.0 + WORD * count.1 == 8 * |msg| % (WORD * WORD)
      && abcd == Fold(process, START, Whole(msg))
      && buf[..|msg| % 64] == Over(msg)
    }

    /** md5_init. */
    constructor (f: BlockFunction)
      ensures Valid() && process == f && msg == [] && fresh(buf)
    {
      process := f;
      count := (0, 0);
      abcd := START;
      buf := new Byte[64];
      msg := [];
    }

    /** memcpy into the buffer. */
    method Copy(at: nat, bytes: seq<Byte>)
      requires at + |bytes| <= buf.Length
      modifies buf
      ensures buf[..at + |bytes|] == old(buf[..at]) + bytes
    {
      var i := 0;
      while i < |bytes|
        invariant 0 <= i <= |bytes|
        invariant buf[..at + i] == old(buf[..at]) + bytes[..i]
      {
        buf[at + i] := bytes[i];
        assert buf[..at + i + 1] == buf[..at + i] + [bytes[i]];
        i := i + 1;
      }
    }

    /** The whole blocks of the first k bytes of m are in the registers. */
    ghost predicate Reached(m: seq<Byte>, k: nat)
      reads this
    {
      k <= |m| && k % 64 == 0 && abcd == Fold(process, START, m[..k])
    }

    /** The initial partial block of md5_append. */
    method FillBlock(data: seq<Byte>, nbytes: nat, offset: nat, ghost m: seq<Byte>) returns (p: nat)
      requires buf.Length == 64 && 0 < offset == |m| % 64 && buf[..offset] == Over(m) && Reached(m, |m| - offset)
      requires 0 < nbytes <= |data|
      modifies this`abcd, buf
      ensures 0 < p <= nbytes && (offset + p < 64 ==> p == nbytes && Reached(m + data[..nbytes], |m| - offset))
      ensures offset + p < 64 ==> buf[..offset + p] == Over(m) + data[..p]
      ensures offset + p >= 64 ==> Reached(m + data[..nbytes], |m| + p)
    {
      hide Fold;
      var copy := if offset + nbytes > 64 then 64 - offset else nbytes;
      ghost var all := m + data[..nbytes];
      ghost var n := |m|;
      Copy(offset, data[..copy]);
      p := copy;
      assert all[..n - offset] == m[..n - offset];
      if offset + copy < 64 {
        return;
      }
      Aligned(n, offset);
      Across(m, data[..nbytes], n - offset, copy);
      assert data[..nbytes][..copy] == data[..copy] && buf[..] == buf[..64];
      NextBlock(buf[..], all, n - offset);
    }

    /** md5_process on the next block. */
    method NextBlock(block: seq<Byte>, ghost m: seq<Byte>, ghost k: nat)
      requires Reached(m, k) && k + 64 <= |m| && block == m[k..k + 64]
      modifies this`abcd
      ensures Reached(m, k + 64)
    {
      FoldBlock(process, START, m, k);
      abcd := process(abcd, block);
    }

    method UpdateCount(nbytes: nat)
      modifies this`count
      ensures count == Counted(old(count), nbytes)
    {
      var nbits := nbytes * 8 % WORD;
      count := (count.0, (count.1 + nbytes / 0x2000_0000) % WORD);
      count := ((count.0 + nbits) % WORD, count.1);
      if count.0 < nbits {
        count := (count.0, (count.1 + 1) % WORD);
      }
    }

    /** md5_append: only the bytes matter, not how they were cut up. */
    method Append(data: seq<Byte>, nbytes: int)
      requires Valid() && nbytes <= |data| && nbytes < 0x8000_0000
      modifies this, buf
      ensures Valid() && msg == old(msg) + (if nbytes > 0 then data[..nbytes] else [])
    {
      hide Fold, Counted, Whole, Over;
      if nbytes <= 0 {
        return;
      }
      var offset := count.0 / 8 % 64;
      ghost var n := |msg|;
      OffsetIs(count.0, count.1, n);
      CountedIs(count, n, nbytes);
      UpdateCount(nbytes);
      AppendBytes(data, nbytes, offset);
    }

    /** The blocks of md5_append, once the count is updated. */
    method AppendBytes(data: seq<Byte>, nbytes: nat, offset: nat)
      requires buf.Length == 64 && 0 < nbytes <= |data| && offset == |msg| % 64
      requires abcd == Fold(process, START, Whole(msg)) && buf[..offset] == Over(msg)
      requires count.0 + WORD * count.1 == 8 * (|msg| + nbytes) % (WORD * WORD)
      modifies this`abcd, this`msg, buf
      ensures Valid() && msg == old(msg) + data[..nbytes]
    {
      hide Fold, Whole, Over;
      var p := 0;
      var left := nbytes;
      ghost var n := |msg|;
      WholeOver(msg);
      Aligned(n, offset);
      ghost var all := msg + data[..nbytes];
      if offset > 0 {
        p := FillBlock(data, nbytes, offset, msg);
        if offset + p < 64 {
          ShortAppend(msg, data[..nbytes]);
          assert data[..nbytes] == data[..p];
          msg := all;
          return;
        }
        left := left - p;
      } else {
        assert all[..n] == Whole(msg);
      }
      assert all[n + p..] == data[p..nbytes];
      AppendBlocks(data, p, left, all);
      msg := all;
    }

    /** The full blocks and the final partial block of md5_append. */
    method AppendBlocks(data: seq<Byte>, p0: nat, left0: nat, ghost m: seq<Byte>)
      requires buf.Length == 64 && p0 + left0 <= |data| && left0 <= |m|
      requires m[|m| - left0..] == data[p0..p0 + left0] && Reached(m, |m| - left0)
      modifies this`abcd, buf
      ensures abcd == Fold(process, START, Whole(m)) && buf[..|m| % 64] == Over(m)
    {
      hide Fold, Whole, Over;
      var p, left := p0, left0;
      while left >= 64
        invariant p0 <= p && 0 <= left <= left0 && p + left == p0 + left0 && m[|m| - left..] == data[p..p + left]
        invariant Reached(m, |m| - left)
      {
        ghost var k := |m| - left;
        assert m[k..k + 64] == m[k..][..64] && data[p..p + 64] == data[p..p + left][..64];
        NextBlock(data[p..p + 64], m, k);
        assert m[k + 64..] == m[k..][64..] && data[p + 64..p + left] == data[p..p + left][64..];
        p := p + 64;
        left := left - 64;
      }
      ShortMessage(m, |m| - left, |m|);
      assert m[|m| - left..|m|] == m[|m| - left..];
      if left > 0 {
        Copy(0, data[p..p + left]);
      }
      assert buf[..left] == data[p..p + left];
    }

    /** md5_finish: the digest is that of everything that was appended. */
    method Finish() returns (digest: seq<Byte>)
      requires Valid()
      modifies this, buf
      ensures digest == Digest(process, old(msg))
    {
      hide Fold, Whole, Over, Padding, LittleEndian, WordBytes;
      ghost var m := msg;
      OffsetIs(count.0, count.1, |m|);
      var data := CountBytes(count);
      var pad := [0x80] + Zeros(63);
      var n := (55 - count.0 / 8) % 64 + 1;
      PaddingIs(pad, |m|, n);
      Append(pad, n);
      Append(data, 8);
      assert data[..8] == data;
      WholeBlocks(Padded(m));
      digest := WordBytes(abcd.a) + WordBytes(abcd.b) + WordBytes(abcd.c) + WordBytes(abcd.d);
    }
  }

  lemma PaddingIs(pad: seq<Byte>, len: nat, n: nat)
    requires pad == [0x80] + Zeros(63) && n == (55 - len) % 64 + 1
    ensures n <= |pad| && pad[..n] == Padding(len)
  {}

  lemma WholeBlocks(msg: seq<Byte>)
    requires |msg| % 64 == 0
    ensures Whole(msg) == msg
  {}

  lemma Across(a: seq<Byte>, b: seq<Byte>, i: nat, k: nat)
    requires i <= |a| && k <= |b|
    ensures (a + b)[i..|a| + k] == a[i..] + b[..k]
  {}

  lemma WholeOver(msg: seq<Byte>)
    ensures var k := |msg| - |msg| % 64; Whole(msg) == msg[..k] && Over(msg) == msg[k..]
  {}

  lemma ShortMessage(msg: seq<Byte>, k: nat, end: nat)
    requires k % 64 == 0 && end == |msg| && k <= end < k + 64
    ensures Whole(msg) == msg[..k] && Over(msg) == msg[k..end] && |msg| % 64 == end - k
  {}

  /** A message that still does not fill its last block. */
  lemma ShortAppend(msg: seq<Byte>, more: seq<Byte>)
    requires |msg| % 64 + |more| < 64
    ensures var all, k := msg + more, |msg| - |msg| % 64;
      Whole(all) == all[..k] && Over(all) == Over(msg) + more && |all| % 64 == |msg| % 64 + |more|
  {
    var k := |msg| - |msg| % 64;
    Aligned(|msg|, |msg| % 64);
    ShortMessage(msg + more, k, |msg| + |more|);
    WholeOver(msg);
    Across(msg, more, k, |more|);
    assert more[..|more|] == more;
    hide Whole, Over;
    assert (msg + more)[k..|msg| + |more|] == msg[k..] + more;
  }

  lemma Aligned(n: nat, offset: nat)
    requires n % 64 == offset
    ensures (n - offset) % 64 == 0 && (n + (64 - offset)) % 64 == 0
  {}

  /** The bytes of the two words of the count, lowest first. */
  method CountBytes(count: (Word, Word)) returns (data: seq<Byte>)
    ensures data == LittleEndian(count.0 + WORD * count.1)
  {
    hide WordBytes, LittleEndian;
    ghost var all := WordBytes(count.0) + WordBytes(count.1);
    TwoWords(count.0, count.1);
    data := [];
    var i := 0;
    while i < 8
      invariant 0 <= i <= 8 && data == all[..i]
    {
      data := data + [if i < 4 then WordBytes(count.0)[i] else WordBytes(count.1)[i - 4]];
      i := i + 1;
    }
  }

  /** A byte of the low word is the same byte of the double word. */
  lemma LowByte(low: nat, rest: nat, d: nat, y: nat)
    requires d > 0 && rest == d * (256 * y)
    ensures (low + rest) / d % 256 == low / d % 256
  {
    var q := low / d;
    Distribute(d, q, 256 * y);
    DivUnique(low + rest, d, q + 256 * y, low % d);
    Mod256(q, y);
  }

  lemma Distribute(d: nat, a: nat, b: nat)
    ensures d * (a + b) == d * a + d * b
  {}

  lemma Mod256(q: nat, y: nat)
    ensures (q + 256 * y) % 256 == q % 256
  {}

  /** A byte of the high word. */
  lemma HighByte(low: Word, high: Word, d: nat)
    requires d > 0
    ensures (low + WORD * high) / (WORD * d) == high / d
  {
    var q, r := high / d, high % d;
    assert high == d * q + r;
    assert WORD * high == WORD * (d * q) + WORD * r;
    assert WORD * (d * q) == (WORD * d) * q;
    assert WORD * r + low < WORD * d by { TimesMonotone(WORD, r + 1, d); }
    DivUnique(low + WORD * high, WORD * d, q, WORD * r + low);
  }

  lemma TwoWords(low: Word, high: Word)
    ensures LittleEndian(low + WORD * high) == WordBytes(low) + WordBytes(high)
  {
    var n := low + WORD * high;
    LowByte(low, WORD * high, 1, 0x100_0000 * high);
    LowByte(low, WORD * high, 0x100, 0x1_0000 * high);
    LowByte(low, WORD * high, 0x1_0000, 0x100 * high);
    LowByte(low, WORD * high, 0x100_0000, high);
    HighByte(low, high, 1);
    HighByte(low, high, 0x100);
    HighByte(low, high, 0x1_0000);
    HighByte(low, high, 0x100_0000);
  }

  /** The digest depends only on the bytes, not on how they were appended: any two
  splits of a message give the same digest, that of RFC 1321. */
  method DigestOfPieces(process: BlockFunction, pieces: seq<seq<Byte>>) returns (digest: seq<Byte>)
    requires forall i :: 0 <= i < |pieces| ==> |pieces[i]| < 0x8000_0000
    ensures digest == Digest(process, Joined(pieces))
  {
    var c := new Context(process);
    var i := 0;
    assert pieces[..0] == [];
    while i < |pieces|
      invariant 0 <= i <= |pieces| && c.Valid() && c.process == process && fresh(c) && fresh(c.buf)
      invariant c.msg == Joined(pieces[..i])
    {
      c.Append(pieces[i], |pieces[i]|);
      assert pieces[i][..|pieces[i]|] == pieces[i];
      assert pieces[..i + 1] == pieces[..i] + [pieces[i]];
      JoinedSnoc(pieces[..i], pieces[i]);
      i := i + 1;
    }
    assert pieces[..i] == pieces;
    digest := c.Finish();
  }

  function Joined(pieces: seq<seq<Byte>>): seq<Byte> {
    if pieces == [] then [] else pieces[0] + Joined(pieces[1..])
  }

  lemma {:induction false} JoinedSnoc(pieces: seq<seq<Byte>>, last: seq<Byte>)
    ensures Joined(pieces + [last]) == Joined(pieces) + last
  {
    if pieces == [] {
      assert [last][1..] == [];
    } else {
      assert (pieces + [last])[1..] == pieces[1..] + [last];
      JoinedSnoc(pieces[1..], last);
    }
  }
}

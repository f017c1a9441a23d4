/** The meaning of CRC-32C: one bit at a time, and the laws that the fast forms
of crc32c.c rest on. */
module Crc32c {
  import opened Gf2

  /** The iSCSI polynomial in reversed bit order (section 12.1 of RFC 3720). */
  const POLY: bv32 := 0x82f63b78

  /** A byte in each of the four byte positions of a word. */
  function At0(b: bv8): bv32 { b as bv32 }
  function At1(b: bv8): bv32 { (b as bv32) << 8 }
  function At2(b: bv8): bv32 { (b as bv32) << 16 }
  function At3(b: bv8): bv32 { (b as bv32) << 24 }

  function Low(v: bv32): bv8 { (v & 0xff) as bv8 }

  lemma FourBytes(v: bv32)
    ensures v == Xor(Xor(Xor(At0(Low(v)), At1(Low(v >> 8))), At2(Low(v >> 16))), At3(Low(v >> 24)))
  {}

  /** Feeds one zero bit. */
  function BitStep(crc: bv32): bv32 {
    if Odd(crc) then Xor(Half(crc), POLY) else Half(crc)
  }

  /** Feeds n zero bits. */
  function ZeroBits(crc: bv32, n: nat): bv32
    decreases n
  {
    if n == 0 then crc else ZeroBits(BitStep(crc), n - 1)
  }

  function Widen(b: bv8): bv32 { b as bv32 }

  function Index(b: bv8): (i: nat)
    ensures i < 256
  {
    b as nat
  }

  /** The byte with the given number. */
  function Byte(i: nat): bv8
    requires i < 256
  {
    i as bv8
  }

  lemma ByteIndex(b: bv8)
    ensures Byte(Index(b)) == b
  {}

  function Word(i: nat): bv32
    requires i < 256
  {
    i as bv32
  }

  lemma WordByte(i: nat)
    requires i < 256
    ensures Word(i) == Widen(Byte(i))
  {}

  function ByteStep(crc: bv32, b: bv8): bv32 {
    ZeroBits(Xor(crc, Widen(b)), 8)
  }

  /** The shift register after the bytes of s, without pre- and post-processing. */
  function Update(crc: bv32, s: seq<bv8>): bv32
    decreases |s|
  {
    if s == [] then crc else Update(ByteStep(crc, s[0]), s[1..])
  }

  function Not(v: bv32): bv32 { !v }

  /** The CRC-32C of s, continued from the CRC of what came before. */
  function Crc(crc: bv32, s: seq<bv8>): bv32 {
    Not(Update(Not(crc), s))
  }

  lemma NotNot(v: bv32)
    ensures Not(Not(v)) == v
  {}

  lemma BitStepLinear(a: bv32, b: bv32)
    ensures BitStep(Xor(a, b)) == Xor(BitStep(a), BitStep(b))
  {
    hide Xor, Half, Odd;
    OddLinear(a, b);
    HalfLinear(a, b);
    var pa := if Odd(a) then POLY else 0;
    var pb := if Odd(b) then POLY else 0;
    XorZero(Half(a));
    XorZero(Half(b));
    XorZero(Half(Xor(a, b)));
    XorZero(POLY);
    XorZero(0);
    XorSelf(POLY);
    XorInterchange(Half(a), pa, Half(b), pb);
  }

  lemma BitStepZero()
    ensures BitStep(0) == 0
  {
    OfZero();
  }

  lemma {:induction false} ZeroBitsLinear(a: bv32, b: bv32, n: nat)
    ensures ZeroBits(Xor(a, b), n) == Xor(ZeroBits(a, n), ZeroBits(b, n))
    decreases n
  {
    hide Xor, BitStep;
    if n > 0 {
      BitStepLinear(a, b);
      ZeroBitsLinear(BitStep(a), BitStep(b), n - 1);
    }
  }

  lemma {:induction false} ZeroBitsZero(n: nat)
    ensures ZeroBits(0, n) == 0
  {
    hide BitStep;
    if n > 0 {
      BitStepZero();
      ZeroBitsZero(n - 1);
    }
  }

  lemma {:induction false} ZeroBitsAdd(crc: bv32, m: nat, n: nat)
    ensures ZeroBits(ZeroBits(crc, m), n) == ZeroBits(crc, m + n)
    decreases m
  {
    hide BitStep;
    if m > 0 { ZeroBitsAdd(BitStep(crc), m - 1, n); }
  }

  /** A buffer fed in two pieces gives the CRC of the whole. */
  lemma {:induction false} UpdateConcat(crc: bv32, s: seq<bv8>, t: seq<bv8>)
    ensures Update(crc, s + t) == Update(Update(crc, s), t)
    decreases |s|
  {
    hide ByteStep;
    if s == [] {
      assert s + t == t;
    } else {
      assert (s + t)[1..] == s[1..] + t;
      UpdateConcat(ByteStep(crc, s[0]), s[1..], t);
    }
  }

  lemma UpdateSnoc(crc: bv32, s: seq<bv8>, i: nat)
    requires i < |s|
    ensures Update(crc, s[..i + 1]) == ByteStep(Update(crc, s[..i]), s[i])
  {
    hide ByteStep;
    assert s[..i + 1] == s[..i] + [s[i]];
    UpdateConcat(crc, s[..i], [s[i]]);
    assert [s[i]][1..] == [];
    assert Update(ByteStep(Update(crc, s[..i]), s[i]), []) == ByteStep(Update(crc, s[..i]), s[i]);
  }

  lemma UpdateRange(crc: bv32, s: seq<bv8>, from: nat, mid: nat, to: nat)
    requires from <= mid <= to <= |s|
    ensures Update(crc, s[from..to]) == Update(Update(crc, s[from..mid]), s[mid..to])
  {
    assert s[from..to] == s[from..mid] + s[mid..to];
    UpdateConcat(crc, s[from..mid], s[mid..to]);
  }

  lemma CrcChunks(crc: bv32, s: seq<bv8>, t: seq<bv8>)
    ensures Crc(Crc(crc, s), t) == Crc(crc, s + t)
  {
    hide Not;
    NotNot(Update(Not(crc), s));
    UpdateConcat(Not(crc), s, t);
  }

  /** The register is linear in its start value and the data taken together. */
  lemma {:induction false} UpdateSplit(a: bv32, b: bv32, s: seq<bv8>)
    ensures Update(Xor(a, b), s) == Xor(ZeroBits(a, 8 * |s|), Update(b, s))
    decreases |s|
  {
    hide Xor, Widen, BitStep;
    if s != [] {
      XorAssoc(a, b, Widen(s[0]));
      ZeroBitsLinear(a, Xor(b, Widen(s[0])), 8);
      UpdateSplit(ZeroBits(a, 8), ByteStep(b, s[0]), s[1..]);
      ZeroBitsAdd(a, 8, 8 * |s[1..]|);
    }
  }

  /** Two pieces computed apart: the CRC of the concatenation is the first CRC
  moved over the second piece's length, plus the second CRC from zero. */
  lemma UpdateApart(crc: bv32, s: seq<bv8>, t: seq<bv8>)
    ensures Update(crc, s + t) == Xor(ZeroBits(Update(crc, s), 8 * |t|), Update(0, t))
  {
    hide Xor;
    UpdateConcat(crc, s, t);
    XorZero(Update(crc, s));
    UpdateSplit(Update(crc, s), 0, t);
  }

  function Up8(v: bv32): bv32 { v << 8 }

  /** The upper byte is clear. */
  predicate Small(v: bv32) { v < 0x0100_0000 }

  /** A byte that still has to cross the register's upper bits falls through
  unchanged: no feedback happens while the low bits are zero. */
  lemma FallThrough(v: bv32, n: nat)
    requires Small(v)
    ensures ZeroBits(Up8(v), n + 8) == ZeroBits(v, n)
  {
    hide BitStep, Up8;
    EightFalls(v);
    ZeroBitsAdd(Up8(v), 8, n);
  }

  lemma EightFalls(v: bv32)
    requires Small(v)
    ensures ZeroBits(Up8(v), 8) == v
  {
    Fall(v << 7);
    Fall(v << 6);
    Fall(v << 5);
    Fall(v << 4);
    Fall(v << 3);
    Fall(v << 2);
    Fall(v << 1);
    Fall(v);
    Doubling(v);
    hide BitStep, Twice;
    assert ZeroBits(v << 8, 8) == ZeroBits(v << 4, 4);
    assert ZeroBits(v << 4, 4) == ZeroBits(v, 0);
  }

  lemma Fall(v: bv32)
    requires v < 0x8000_0000
    ensures BitStep(Twice(v)) == v
  {}

  lemma Doubling(v: bv32)
    ensures Twice(v) == v << 1 && Twice(v << 1) == v << 2 && Twice(v << 2) == v << 3 && Twice(v << 3) == v << 4
    ensures Twice(v << 4) == v << 5 && Twice(v << 5) == v << 6 && Twice(v << 6) == v << 7 && Twice(v << 7) == v << 8
  {}
}

/** The table-driven CRC-32C of crc32c.c: slicing by eight bytes, in its
little-endian and big-endian versions. */
module Crc32cSw {
  import opened Gf2
  import opened Crc32c

  /** A byte followed by enough zeros to make k bytes in all. */
  function Z(b: bv8, k: nat): bv32 { ZeroBits(Widen(b), 8 * k) }

  function Wide(v: bv32): bv64 { v as bv64 }

  function Narrow(w: bv64): bv32 { (w & 0xffff_ffff) as bv32 }

  function Xor64(a: bv64, b: bv64): bv64 { a ^ b }

  lemma WideXor(a: bv32, b: bv32)
    ensures Wide(Xor(a, b)) == Xor64(Wide(a), Wide(b))
  {}

  lemma NarrowWide(v: bv32)
    ensures Narrow(Wide(v)) == v
  {}

  /** The eight bytes of a 64-bit word, lowest first. */
  function B0(w: bv64): bv8 { (w & 0xff) as bv8 }
  function B1(w: bv64): bv8 { ((w >> 8) & 0xff) as bv8 }
  function B2(w: bv64): bv8 { ((w >> 16) & 0xff) as bv8 }
  function B3(w: bv64): bv8 { ((w >> 24) & 0xff) as bv8 }
  function B4(w: bv64): bv8 { ((w >> 32) & 0xff) as bv8 }
  function B5(w: bv64): bv8 { ((w >> 40) & 0xff) as bv8 }
  function B6(w: bv64): bv8 { ((w >> 48) & 0xff) as bv8 }
  function B7(w: bv64): bv8 { (w >> 56) as bv8 }

  /** A 64-bit load on a little-endian machine. */
  function LoadLittle(s: seq<bv8>): bv64
    requires |s| == 8
  {
    Assemble(s[0], s[1], s[2], s[3], s[4], s[5], s[6], s[7])
  }

  /** A 64-bit load on a big-endian machine. */
  function LoadBig(s: seq<bv8>): bv64
    requires |s| == 8
  {
    Assemble(s[7], s[6], s[5], s[4], s[3], s[2], s[1], s[0])
  }

  function Assemble(b0: bv8, b1: bv8, b2: bv8, b3: bv8, b4: bv8, b5: bv8, b6: bv8, b7: bv8): bv64 {
    (b0 as bv64) | ((b1 as bv64) << 8) | ((b2 as bv64) << 16) | ((b3 as bv64) << 24) |
    ((b4 as bv64) << 32) | ((b5 as bv64) << 40) | ((b6 as bv64) << 48) | ((b7 as bv64) << 56)
  }

  function ByteXor(a: bv8, b: bv8): bv8 { a ^ b }

  lemma LowBytes(crc: bv32, b0: bv8, b1: bv8, b2: bv8, b3: bv8, b4: bv8, b5: bv8, b6: bv8, b7: bv8)
    ensures var w := Xor64(Wide(crc), Assemble(b0, b1, b2, b3, b4, b5, b6, b7));
      B0(w) == ByteXor(Low(crc), b0) && B1(w) == ByteXor(Low(crc >> 8), b1) &&
      B2(w) == ByteXor(Low(crc >> 16), b2) && B3(w) == ByteXor(Low(crc >> 24), b3)
  {}

  lemma HighBytes(crc: bv32, b0: bv8, b1: bv8, b2: bv8, b3: bv8, b4: bv8, b5: bv8, b6: bv8, b7: bv8)
    ensures var w := Xor64(Wide(crc), Assemble(b0, b1, b2, b3, b4, b5, b6, b7));
      B4(w) == b4 && B5(w) == b5 && B6(w) == b6 && B7(w) == b7
  {}

  lemma WidenXor(a: bv8, b: bv8)
    ensures Widen(ByteXor(a, b)) == Xor(Widen(a), Widen(b))
  {}

  lemma ZXor(a: bv8, b: bv8, k: nat)
    ensures Z(ByteXor(a, b), k) == Xor(Z(a, k), Z(b, k))
  {
    hide Xor, Widen, ByteXor;
    WidenXor(a, b);
    ZeroBitsLinear(Widen(a), Widen(b), 8 * k);
  }

  /** Right-nested sums, so that terms peel off one by one. */
  function Sum4(a: bv32, b: bv32, c: bv32, d: bv32): bv32 { Xor(a, Xor(b, Xor(c, d))) }

  function Sum8(a: bv32, b: bv32, c: bv32, d: bv32, e: bv32, f: bv32, g: bv32, h: bv32): bv32 {
    Xor(a, Xor(b, Xor(c, Xor(d, Sum4(e, f, g, h)))))
  }

  lemma Positions(b: bv8)
    ensures At0(b) == Widen(b) && At1(b) == Up8(Widen(b)) && At2(b) == Up8(Up8(Widen(b)))
    ensures At3(b) == Up8(Up8(Up8(Widen(b))))
    ensures Small(Widen(b)) && Small(Up8(Widen(b))) && Small(Up8(Up8(Widen(b))))
  {}

  lemma ZeroBitsAt(b: bv8)
    ensures ZeroBits(At0(b), 64) == Z(b, 8) && ZeroBits(At1(b), 64) == Z(b, 7)
    ensures ZeroBits(At2(b), 64) == Z(b, 6) && ZeroBits(At3(b), 64) == Z(b, 5)
  {
    Positions(b);
    hide Up8, Small, Widen, At0, At1, At2, At3, ZeroBits;
    FallThrough(Widen(b), 56);
    FallThrough(Up8(Widen(b)), 56);
    FallThrough(Widen(b), 48);
    FallThrough(Up8(Up8(Widen(b))), 56);
    FallThrough(Up8(Widen(b)), 48);
    FallThrough(Widen(b), 40);
  }

  /** Eight zero bytes fed to a register, byte by byte of the register. */
  lemma RegisterPart(crc: bv32)
    ensures ZeroBits(crc, 64) == Sum4(Z(Low(crc), 8), Z(Low(crc >> 8), 7), Z(Low(crc >> 16), 6), Z(Low(crc >> 24), 5))
  {
    FourBytes(crc);
    var b0, b1, b2, b3 := Low(crc), Low(crc >> 8), Low(crc >> 16), Low(crc >> 24);
    hide Xor, ZeroBits, Z, Low, At0, At1, At2, At3;
    ZeroBitsLinear(At0(b0), At1(b1), 64);
    ZeroBitsLinear(Xor(At0(b0), At1(b1)), At2(b2), 64);
    ZeroBitsLinear(Xor(Xor(At0(b0), At1(b1)), At2(b2)), At3(b3), 64);
    ZeroBitsAt(b0);
    ZeroBitsAt(b1);
    ZeroBitsAt(b2);
    ZeroBitsAt(b3);
    XorAssoc(Xor(Z(b0, 8), Z(b1, 7)), Z(b2, 6), Z(b3, 5));
    XorAssoc(Z(b0, 8), Z(b1, 7), Xor(Z(b2, 6), Z(b3, 5)));
  }

  lemma DataHead(s: seq<bv8>)
    requires s != []
    ensures Update(0, s) == Xor(Z(s[0], |s|), Update(0, s[1..]))
  {
    hide Xor, ZeroBits, Widen;
    XorZero(Widen(s[0]));
    XorZero(Z(s[0], 1));
    UpdateSplit(Z(s[0], 1), 0, s[1..]);
    ZeroBitsAdd(Widen(s[0]), 8, 8 * |s[1..]|);
  }

  /** Eight bytes fed to a zero register. */
  lemma DataPart(s: seq<bv8>)
    requires |s| == 8
    ensures Update(0, s) == Sum8(Z(s[0], 8), Z(s[1], 7), Z(s[2], 6), Z(s[3], 5), Z(s[4], 4), Z(s[5], 3), Z(s[6], 2),
        Z(s[7], 1))
  {
    hide Xor, Z, ByteStep;
    DataHead(s);
    DataHead(s[1..]);
    DataHead(s[1..][1..]);
    assert s[1..][1..] == s[2..] && s[2..][1..] == s[3..] && s[3..][1..] == s[4..] && s[4..][1..] == s[5..];
    assert s[5..][1..] == s[6..] && s[6..][1..] == s[7..] && s[7..][1..] == [];
    DataHead(s[3..]);
    DataHead(s[4..]);
    DataHead(s[5..]);
    DataHead(s[6..]);
    DataHead(s[7..]);
    XorZero(Z(s[7], 1));
  }

  lemma MergeSums(a: bv32, b: bv32, c: bv32, d: bv32,
                  a': bv32, b': bv32, c': bv32, d': bv32, e: bv32, f: bv32, g: bv32, h: bv32)
    ensures Xor(Sum4(a, b, c, d), Sum8(a', b', c', d', e, f, g, h))
         == Sum8(Xor(a, a'), Xor(b, b'), Xor(c, c'), Xor(d, d'), e, f, g, h)
  {
    hide Xor;
    var r := Sum4(e, f, g, h);
    XorInterchange(a, Xor(b, Xor(c, d)), a', Xor(b', Xor(c', Xor(d', r))));
    XorInterchange(b, Xor(c, d), b', Xor(c', Xor(d', r)));
    XorInterchange(c, d, c', Xor(d', r));
    XorAssoc(d, d', r);
  }

  /** What slicing computes: the eight bytes of the word, each with its own
  number of zeros after it. */
  function SlicedSum(w: bv64): bv32 {
    Sum8(Z(B0(w), 8), Z(B1(w), 7), Z(B2(w), 6), Z(B3(w), 5), Z(B4(w), 4), Z(B5(w), 3), Z(B6(w), 2), Z(B7(w), 1))
  }

  lemma SlicingUpdates(crc: bv32, s: seq<bv8>)
    requires |s| == 8
    ensures SlicedSum(Xor64(Wide(crc), LoadLittle(s))) == Update(crc, s)
  {
    var c0, c1, c2, c3 := Low(crc), Low(crc >> 8), Low(crc >> 16), Low(crc >> 24);
    LowBytes(crc, s[0], s[1], s[2], s[3], s[4], s[5], s[6], s[7]);
    HighBytes(crc, s[0], s[1], s[2], s[3], s[4], s[5], s[6], s[7]);
    hide Xor, Z, Low, Wide, ByteXor, Xor64, Assemble, Update, ZeroBits, B0, B1, B2, B3, B4, B5, B6, B7, Sum4, Sum8;
    ZXor(c0, s[0], 8);
    ZXor(c1, s[1], 7);
    ZXor(c2, s[2], 6);
    ZXor(c3, s[3], 5);
    RegisterPart(crc);
    DataPart(s);
    MergeSums(Z(c0, 8), Z(c1, 7), Z(c2, 6), Z(c3, 5),
              Z(s[0], 8), Z(s[1], 7), Z(s[2], 6), Z(s[3], 5), Z(s[4], 4), Z(s[5], 3), Z(s[6], 2), Z(s[7], 1));
    XorZero(crc);
    UpdateSplit(crc, 0, s);
  }

  lemma BytewiseSplit(v: bv32)
    ensures v == Xor(Widen(Low(v)), Up8(Down8(v))) && Small(Down8(v))
  {}

  /** Feeding eight zero bits needs one table entry and a shift. */
  lemma BytewiseStep(v: bv32)
    ensures ZeroBits(v, 8) == Xor(Z(Low(v), 1), Down8(v))
  {
    BytewiseSplit(v);
    hide Xor, Widen, Up8, Down8, Small, ZeroBits, Low;
    ZeroBitsLinear(Widen(Low(v)), Up8(Down8(v)), 8);
    EightFalls(Down8(v));
  }

  lemma ShiftDropsByte(crc: bv32, b: bv8)
    ensures Down8(Xor(crc, Widen(b))) == Down8(crc)
  {}

  lemma OneByte(crc: bv32, b: bv8)
    ensures ByteStep(crc, b) == Xor(Z(Low(Xor(crc, Widen(b))), 1), Down8(crc))
  {
    hide Xor, Widen, Down8, ZeroBits, Low;
    BytewiseStep(Xor(crc, Widen(b)));
    ShiftDropsByte(crc, b);
  }

  function Down8(v: bv32): bv32 { v >> 8 }

  /** The first eight bit steps of both table builders. */
  method EightSteps(n: nat) returns (crc: bv32)
    requires n < 256
    ensures crc == Z(Byte(n), 1)
  {
    WordByte(n);
    hide BitStep;
    crc := Word(n);
    ghost var c := crc;
    crc := BitStep(crc);
    crc := BitStep(crc);
    crc := BitStep(crc);
    crc := BitStep(crc);
    assert ZeroBits(c, 8) == ZeroBits(crc, 4);
    crc := BitStep(crc);
    crc := BitStep(crc);
    crc := BitStep(crc);
    crc := BitStep(crc);
  }

  /** Entry [k][i] of the tables feeds byte i and then k zero bytes. */
  ghost predicate LittleTable(t: array2<bv32>)
    reads t
  {
    t.Length0 == 8 && t.Length1 == 256 && forall b :: LittleColumn(t, Index(b), b)
  }

  ghost predicate LittleColumn(t: array2<bv32>, i: nat, b: bv8)
    requires t.Length0 == 8 && t.Length1 == 256 && i < 256
    reads t
  {
    forall k :: 0 <= k < 8 ==> t[k, i] == Z(b, k + 1)
  }

  lemma NextColumn(b: bv8, k: nat)
    ensures Z(b, k + 1) == Xor(Z(Low(Z(b, k)), 1), Down8(Z(b, k)))
  {
    hide Xor, Down8, Low, Widen;
    BytewiseStep(Z(b, k));
    ZeroBitsAdd(Widen(b), 8 * k, 8);
  }

  /** crc32c_init_sw_little. */
  method InitLittle() returns (t: array2<bv32>)
    ensures fresh(t) && LittleTable(t)
  {
    hide Xor, Z, Down8, Low, Byte, Index;
    t := new bv32[8, 256];
    for n := 0 to 256
      invariant forall i :: 0 <= i < n ==> t[0, i] == Z(Byte(i), 1)
    {
      t[0, n] := EightSteps(n);
    }
    for n := 0 to 256
      invariant forall i :: 0 <= i < 256 ==> t[0, i] == Z(Byte(i), 1)
      invariant forall i :: 0 <= i < n ==> LittleColumn(t, i, Byte(i))
    {
      var crc := t[0, n];
      for k := 1 to 8
        invariant crc == Z(Byte(n), k)
        invariant forall i :: 0 <= i < 256 ==> t[0, i] == Z(Byte(i), 1)
        invariant forall j :: 0 <= j < k ==> t[j, n] == Z(Byte(n), j + 1)
        invariant forall i :: 0 <= i < n ==> LittleColumn(t, i, Byte(i))
      {
        ByteIndex(Low(crc));
        NextColumn(Byte(n), k);
        crc := Xor(t[0, Index(Low(crc))], Down8(crc));
        t[k, n] := crc;
      }
    }
    forall b ensures LittleColumn(t, Index(b), b) {
      ByteIndex(b);
    }
  }

  /** The eight lookups of crc32c_sw_little. */
  function SliceLittle(t: array2<bv32>, w: bv64): bv64
    requires t.Length0 == 8 && t.Length1 == 256
    reads t
  {
    Wide(Xor(Xor(Xor(Xor(Xor(Xor(Xor(t[7, Index(B0(w))], t[6, Index(B1(w))]), t[5, Index(B2(w))]), t[4, Index(B3(w))]),
      t[3, Index(B4(w))]), t[2, Index(B5(w))]), t[1, Index(B6(w))]), t[0, Index(B7(w))]))
  }

  lemma Reassociate(a: bv32, b: bv32, c: bv32, d: bv32, e: bv32, f: bv32, g: bv32, h: bv32)
    ensures Xor(Xor(Xor(Xor(Xor(Xor(Xor(a, b), c), d), e), f), g), h) == Sum8(a, b, c, d, e, f, g, h)
  {
    hide Xor;
    XorAssoc(a, b, c);
    XorAssoc(a, Xor(b, c), d);
    XorAssoc(b, c, d);
    var abcd := Xor(a, Xor(b, Xor(c, d)));
    XorAssoc(Xor(Xor(abcd, e), f), g, h);
    XorAssoc(Xor(abcd, e), f, Xor(g, h));
    XorAssoc(abcd, e, Xor(f, Xor(g, h)));
    var r := Sum4(e, f, g, h);
    XorAssoc(a, Xor(b, Xor(c, d)), r);
    XorAssoc(b, Xor(c, d), r);
    XorAssoc(c, d, r);
  }

  lemma SliceLittleSum(t: array2<bv32>, w: bv64)
    requires LittleTable(t)
    ensures SliceLittle(t, w) == Wide(SlicedSum(w))
  {
    hide Xor, Z, Index, Wide, B0, B1, B2, B3, B4, B5, B6, B7, Sum8;
    assert LittleColumn(t, Index(B0(w)), B0(w)) && LittleColumn(t, Index(B1(w)), B1(w));
    assert LittleColumn(t, Index(B2(w)), B2(w)) && LittleColumn(t, Index(B3(w)), B3(w));
    assert LittleColumn(t, Index(B4(w)), B4(w)) && LittleColumn(t, Index(B5(w)), B5(w));
    assert LittleColumn(t, Index(B6(w)), B6(w)) && LittleColumn(t, Index(B7(w)), B7(w));
    Reassociate(Z(B0(w), 8), Z(B1(w), 7), Z(B2(w), 6), Z(B3(w), 5), Z(B4(w), 4), Z(B5(w), 3), Z(B6(w), 2), Z(B7(w), 1));
  }

  /** One step of a byte loop: crc = table[(crc ^ byte) & 0xff] ^ (crc >> 8). */
  function LittleByte(t: array2<bv32>, crc: bv32, b: bv8): bv32
    requires t.Length0 == 8 && t.Length1 == 256
    reads t
  {
    Xor(t[0, Index(Low(Xor(crc, Widen(b))))], Down8(crc))
  }

  lemma LittleByteStep(t: array2<bv32>, crc: bv32, b: bv8)
    requires LittleTable(t)
    ensures LittleByte(t, crc, b) == ByteStep(crc, b)
  {
    hide Xor, Z, Index, Low, Down8, Widen, ByteStep;
    var x := Low(Xor(crc, Widen(b)));
    assert LittleColumn(t, Index(x), x);
    OneByte(crc, b);
  }

  /** crc32c_sw_little equals the bitwise CRC for every buffer and alignment. */
  method Little(t: array2<bv32>, crc: bv32, buf: seq<bv8>, address: nat) returns (r: bv32)
    requires LittleTable(t)
    ensures r == Crc(crc, buf)
  {
    hide LittleColumn, LittleByte, SliceLittle, SlicedSum, Not, Update, ByteStep, Wide, Narrow, Xor64, LoadLittle;
    r := Not(crc);
    ghost var c := r;
    var next := 0;
    UpdateEmpty(c);
    assert buf[..0] == [];
    while next < |buf| && (address + next) % 8 != 0
      invariant 0 <= next <= |buf|
      invariant r == Update(c, buf[..next])
    {
      UpdateSnoc(c, buf, next);
      LittleByteStep(t, r, buf[next]);
      r := LittleByte(t, r, buf[next]);
      next := next + 1;
    }
    if |buf| - next >= 8 {
      var crcw := Wide(r);
      while |buf| - next >= 8
        invariant 0 <= next <= |buf|
        invariant crcw == Wide(Update(c, buf[..next]))
      {
        ghost var before := Update(c, buf[..next]);
        UpdateRange(c, buf, 0, next, next + 8);
        SlicingUpdates(before, buf[next..next + 8]);
        crcw := Xor64(crcw, LoadLittle(buf[next..next + 8]));
        SliceLittleSum(t, crcw);
        crcw := SliceLittle(t, crcw);
        next := next + 8;
      }
      NarrowWide(Update(c, buf[..next]));
      r := Narrow(crcw);
    }
    while next < |buf|
      invariant 0 <= next <= |buf|
      invariant r == Update(c, buf[..next])
    {
      UpdateSnoc(c, buf, next);
      LittleByteStep(t, r, buf[next]);
      r := LittleByte(t, r, buf[next]);
      next := next + 1;
    }
    assert buf[..next] == buf;
    r := Not(r);
  }

  lemma UpdateEmpty(crc: bv32)
    ensures Update(crc, []) == crc
  {}

  /** swap: the bytes of a word in reverse order. */
  function Swap(x: bv64): bv64 {
    var y := ((x << 8) & 0xff00ff00ff00ff00) | ((x >> 8) & 0xff00ff00ff00ff);
    var z := ((y << 16) & 0xffff0000ffff0000) | ((y >> 16) & 0xffff0000ffff);
    (z << 32) | (z >> 32)
  }

  lemma SwapSwap(x: bv64)
    ensures Swap(Swap(x)) == x
  {}

  lemma SwapBytes(x: bv64)
    ensures B0(Swap(x)) == B7(x) && B1(Swap(x)) == B6(x) && B2(Swap(x)) == B5(x) && B3(Swap(x)) == B4(x)
    ensures B4(Swap(x)) == B3(x) && B5(Swap(x)) == B2(x) && B6(Swap(x)) == B1(x) && B7(Swap(x)) == B0(x)
  {}

  lemma SwapXor(x: bv64, y: bv64)
    ensures Swap(Xor64(x, y)) == Xor64(Swap(x), Swap(y))
  {}

  lemma SwapAssemble(b0: bv8, b1: bv8, b2: bv8, b3: bv8, b4: bv8, b5: bv8, b6: bv8, b7: bv8)
    ensures Swap(Assemble(b0, b1, b2, b3, b4, b5, b6, b7)) == Assemble(b7, b6, b5, b4, b3, b2, b1, b0)
  {}

  function SwapWide(v: bv32): bv64 { Swap(Wide(v)) }

  lemma SwapWideXor(a: bv32, b: bv32)
    ensures SwapWide(Xor(a, b)) == Xor64(SwapWide(a), SwapWide(b))
  {
    hide Swap, Wide, Xor, Xor64;
    WideXor(a, b);
    SwapXor(Wide(a), Wide(b));
  }

  ghost predicate BigTables(bytes: array<bv32>, t: array2<bv64>)
    reads bytes, t
  {
    && bytes.Length == 256 && t.Length0 == 8 && t.Length1 == 256
    && (forall b :: bytes[Index(b)] == Z(b, 1))
    && forall b :: BigColumn(t, Index(b), b)
  }

  ghost predicate BigColumn(t: array2<bv64>, i: nat, b: bv8)
    requires t.Length0 == 8 && t.Length1 == 256 && i < 256
    reads t
  {
    forall k :: 0 <= k < 8 ==> t[k, i] == SwapWide(Z(b, k + 1))
  }

  /** crc32c_init_sw_big. */
  method InitBig() returns (bytes: array<bv32>, t: array2<bv64>)
    ensures fresh(bytes) && fresh(t) && BigTables(bytes, t)
  {
    hide Xor, Z, Down8, Low, Byte, Index, SwapWide;
    bytes := new bv32[256];
    t := new bv64[8, 256];
    for n := 0 to 256
      invariant forall i :: 0 <= i < n ==> bytes[i] == Z(Byte(i), 1)
    {
      bytes[n] := EightSteps(n);
    }
    for n := 0 to 256
      invariant forall i :: 0 <= i < 256 ==> bytes[i] == Z(Byte(i), 1)
      invariant forall i :: 0 <= i < n ==> BigColumn(t, i, Byte(i))
    {
      var crc := bytes[n];
      t[0, n] := SwapWide(crc);
      for k := 1 to 8
        invariant crc == Z(Byte(n), k)
        invariant forall i :: 0 <= i < 256 ==> bytes[i] == Z(Byte(i), 1)
        invariant forall j :: 0 <= j < k ==> t[j, n] == SwapWide(Z(Byte(n), j + 1))
        invariant forall i :: 0 <= i < n ==> BigColumn(t, i, Byte(i))
      {
        ByteIndex(Low(crc));
        NextColumn(Byte(n), k);
        crc := Xor(bytes[Index(Low(crc))], Down8(crc));
        t[k, n] := SwapWide(crc);
      }
    }
    forall b ensures BigColumn(t, Index(b), b) && bytes[Index(b)] == Z(b, 1) {
      ByteIndex(b);
    }
  }

  /** The eight lookups of crc32c_sw_big. */
  function SliceBig(t: array2<bv64>, w: bv64): bv64
    requires t.Length0 == 8 && t.Length1 == 256
    reads t
  {
    Xor64(Xor64(Xor64(Xor64(Xor64(Xor64(Xor64(t[0, Index(B0(w))], t[1, Index(B1(w))]), t[2, Index(B2(w))]),
        t[3, Index(B3(w))]),
      t[4, Index(B4(w))]), t[5, Index(B5(w))]), t[6, Index(B6(w))]), t[7, Index(B7(w))])
  }

  /** Swapping commutes with the sum, and the order of the terms reverses. */
  lemma SwapSum(a: bv32, b: bv32, c: bv32, d: bv32, e: bv32, f: bv32, g: bv32, h: bv32)
    ensures Xor64(Xor64(Xor64(Xor64(Xor64(Xor64(Xor64(SwapWide(h), SwapWide(g)), SwapWide(f)), SwapWide(e)),
      SwapWide(d)), SwapWide(c)), SwapWide(b)), SwapWide(a)) == SwapWide(Sum8(a, b, c, d, e, f, g, h))
  {
    hide Xor, Xor64, SwapWide;
    SwapWideXor(h, g);
    XorComm(h, g);
    SwapWideXor(Xor(g, h), f);
    XorComm(Xor(g, h), f);
    SwapWideXor(Xor(f, Xor(g, h)), e);
    XorComm(Xor(f, Xor(g, h)), e);
    var r := Sum4(e, f, g, h);
    SwapWideXor(r, d);
    XorComm(r, d);
    SwapWideXor(Xor(d, r), c);
    XorComm(Xor(d, r), c);
    SwapWideXor(Xor(c, Xor(d, r)), b);
    XorComm(Xor(c, Xor(d, r)), b);
    SwapWideXor(Xor(b, Xor(c, Xor(d, r))), a);
    XorComm(Xor(b, Xor(c, Xor(d, r))), a);
  }

  lemma SliceBigSum(t: array2<bv64>, x: bv64)
    requires t.Length0 == 8 && t.Length1 == 256 && forall b :: BigColumn(t, Index(b), b)
    ensures SliceBig(t, Swap(x)) == SwapWide(SlicedSum(x))
  {
    SwapBytes(x);
    hide Xor, Xor64, Z, Index, Swap, SwapWide, B0, B1, B2, B3, B4, B5, B6, B7, Sum8;
    assert BigColumn(t, Index(B0(x)), B0(x)) && BigColumn(t, Index(B1(x)), B1(x));
    assert BigColumn(t, Index(B2(x)), B2(x)) && BigColumn(t, Index(B3(x)), B3(x));
    assert BigColumn(t, Index(B4(x)), B4(x)) && BigColumn(t, Index(B5(x)), B5(x));
    assert BigColumn(t, Index(B6(x)), B6(x)) && BigColumn(t, Index(B7(x)), B7(x));
    SwapSum(Z(B0(x), 8), Z(B1(x), 7), Z(B2(x), 6), Z(B3(x), 5), Z(B4(x), 4), Z(B5(x), 3), Z(B6(x), 2), Z(B7(x), 1));
  }

  /** The eight-byte step of the big-endian loop keeps the register swapped. */
  lemma BigStep(t: array2<bv64>, crc: bv32, s: seq<bv8>)
    requires |s| == 8
    requires t.Length0 == 8 && t.Length1 == 256 && forall b :: BigColumn(t, Index(b), b)
    ensures SliceBig(t, Xor64(SwapWide(crc), LoadBig(s))) == SwapWide(Update(crc, s))
  {
    hide Swap, Wide, Xor64, Assemble, SliceBig, SlicedSum, Update, BigColumn;
    SwapAssemble(s[0], s[1], s[2], s[3], s[4], s[5], s[6], s[7]);
    SwapXor(Wide(crc), LoadLittle(s));
    SliceBigSum(t, Xor64(Wide(crc), LoadLittle(s)));
    SlicingUpdates(crc, s);
  }

  function BigByte(bytes: array<bv32>, crc: bv32, b: bv8): bv32
    requires bytes.Length == 256
    reads bytes
  {
    Xor(bytes[Index(Low(Xor(crc, Widen(b))))], Down8(crc))
  }

  lemma BigByteStep(bytes: array<bv32>, crc: bv32, b: bv8)
    requires bytes.Length == 256 && forall b :: bytes[Index(b)] == Z(b, 1)
    ensures BigByte(bytes, crc, b) == ByteStep(crc, b)
  {
    hide Xor, Z, Index, Low, Down8, Widen, ByteStep;
    OneByte(crc, b);
  }

  lemma SwapNarrow(crc: bv32)
    ensures Narrow(Swap(SwapWide(crc))) == crc
  {
    hide Swap, Wide, Narrow;
    SwapSwap(Wide(crc));
    NarrowWide(crc);
  }

  /** crc32c_sw_big equals the bitwise CRC for every buffer and alignment. */
  method Big(bytes: array<bv32>, t: array2<bv64>, crc: bv32, buf: seq<bv8>, address: nat) returns (r: bv32)
    requires BigTables(bytes, t)
    ensures r == Crc(crc, buf)
  {
    hide BigColumn, BigByte, SliceBig, Not, Update, ByteStep, Swap, SwapWide, Narrow, Xor64, LoadBig, Z;
    r := Not(crc);
    ghost var c := r;
    var next := 0;
    UpdateEmpty(c);
    assert buf[..0] == [];
    while next < |buf| && (address + next) % 8 != 0
      invariant 0 <= next <= |buf|
      invariant r == Update(c, buf[..next])
    {
      UpdateSnoc(c, buf, next);
      BigByteStep(bytes, r, buf[next]);
      r := BigByte(bytes, r, buf[next]);
      next := next + 1;
    }
    if |buf| - next >= 8 {
      var crcw := SwapWide(r);
      while |buf| - next >= 8
        invariant 0 <= next <= |buf|
        invariant crcw == SwapWide(Update(c, buf[..next]))
      {
        UpdateRange(c, buf, 0, next, next + 8);
        BigStep(t, Update(c, buf[..next]), buf[next..next + 8]);
        crcw := Xor64(crcw, LoadBig(buf[next..next + 8]));
        crcw := SliceBig(t, crcw);
        next := next + 8;
      }
      SwapNarrow(Update(c, buf[..next]));
      r := Narrow(Swap(crcw));
    }
    while next < |buf|
      invariant 0 <= next <= |buf|
      invariant r == Update(c, buf[..next])
    {
      UpdateSnoc(c, buf, next);
      BigByteStep(bytes, r, buf[next]);
      r := BigByte(bytes, r, buf[next]);
      next := next + 1;
    }
    assert buf[..next] == buf;
    r := Not(r);
  }
}

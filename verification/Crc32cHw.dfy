/** The three-way parallel CRC-32C of crc32c.c: operators that append zeros,
their lookup tables, and the driver built on the crc32 instruction. */
module Crc32cHw {
  import opened Gf2
  import opened Crc32c

  const LONG := 8192
  const SHORT := 256

  /** The matrix appends n zero bits to a CRC. */
  ghost predicate IsZerosOp(mat: seq<bv32>, n: nat) {
    |mat| == 32 && forall v :: Times(mat, v) == ZeroBits(v, n)
  }

  /** The largest power of two not above len, and 1 for 0. */
  function FloorPow2(len: nat): (p: nat)
    ensures 1 <= p
  {
    if len < 2 then 1 else 2 * FloorPow2(len / 2)
  }

  predicate IsPow2(n: nat) { n == 1 || (n > 1 && n % 2 == 0 && IsPow2(n / 2)) }

  lemma {:induction false} FloorPow2Bounds(len: nat)
    ensures IsPow2(FloorPow2(len))
    ensures len > 0 ==> FloorPow2(len) <= len < 2 * FloorPow2(len)
  {
    if len >= 2 { FloorPow2Bounds(len / 2); }
  }

  lemma OneBitOp(mat: seq<bv32>)
    requires |mat| == 32 && mat[0] == POLY
    requires forall i :: 1 <= i < 32 ==> mat[i] == Unit(i - 1)
    ensures IsZerosOp(mat, 1)
  {
    hide Xor, Half, Twice, Odd;
    forall v ensures Times(mat, v) == ZeroBits(v, 1) {
      FitsWord(v);
      assert Fits(Half(v), 31);
      forall i | 0 <= i < 31 ensures mat[1..][i] == Unit(0 + i) {
        assert mat[1..][i] == mat[i + 1];
      }
      TimesUnits(mat[1..], Half(v), 0);
      XorComm(POLY, Half(v));
      XorZero(Half(v));
      assert ZeroBits(v, 1) == ZeroBits(BitStep(v), 0) == BitStep(v);
    }
  }

  lemma SquareOp(mat: seq<bv32>, n: nat)
    requires IsZerosOp(mat, n)
    ensures IsZerosOp(Compose(mat, mat), 2 * n)
  {
    hide ZeroBits, Times;
    forall v ensures Times(Compose(mat, mat), v) == ZeroBits(v, 2 * n) {
      ComposeTimes(mat, mat, v);
      ZeroBitsAdd(v, n, n);
    }
  }

  method SquareStep(square: array<bv32>, mat: array<bv32>, ghost n: nat)
    requires square != mat && square.Length == 32 && mat.Length == 32
    requires IsZerosOp(mat[..], n)
    modifies square
    ensures IsZerosOp(square[..], 2 * n)
  {
    SquareOp(mat[..], n);
    MatrixSquare(square, mat);
  }

  /** The operator for one zero bit, as crc32c_zeros_op lays it out. */
  method OneBitRows(odd: array<bv32>)
    requires odd.Length == 32
    modifies odd
    ensures IsZerosOp(odd[..], 1)
  {
    hide Twice, Xor, Half, Odd, Times;
    odd[0] := POLY;
    var row := 1;
    for n := 1 to 32
      invariant odd[0] == POLY
      invariant row == Unit(n - 1)
      invariant forall i :: 1 <= i < n ==> odd[i] == Unit(i - 1)
    {
      odd[n] := row;
      ShiftUpLast(1, n - 1);
      row := Twice(row);
    }
    OneBitOp(odd[..]);
  }

  method CopyRows(even: array<bv32>, odd: array<bv32>)
    requires even != odd && even.Length == 32 && odd.Length == 32
    modifies even
    ensures even[..] == odd[..]
  {
    for n := 0 to 32
      invariant forall i :: 0 <= i < n ==> even[i] == odd[i]
    {
      even[n] := odd[n];
    }
  }

  /** crc32c_zeros_op, for every len: the operator for the largest power of two
  not above len, in bytes. */
  method ZerosOp(even: array<bv32>, len: nat)
    requires even.Length == 32
    modifies even
    ensures IsZerosOp(even[..], 8 * FloorPow2(len))
  {
    hide IsZerosOp;
    var odd := new bv32[32];
    OneBitRows(odd);
    SquareStep(even, odd, 1);
    SquareStep(odd, even, 2);

    var l := len;
    ghost var bits: nat := 4;
    while true
      invariant IsZerosOp(odd[..], bits)
      invariant Product(bits, FloorPow2(l)) == 4 * FloorPow2(len)
      decreases l
    {
      SquareStep(even, odd, bits);
      ProductLaws(bits, FloorPow2(l / 2));
      ProductLaws(2 * bits, FloorPow2(l / 4));
      l := l / 2;
      if l == 0 {
        return;
      }
      SquareStep(odd, even, 2 * bits);
      bits := 4 * bits;
      l := l / 2;
      if l == 0 {
        break;
      }
    }
    CopyRows(even, odd);
  }

  function Product(a: nat, b: nat): nat { a * b }

  lemma ProductLaws(a: nat, b: nat)
    ensures Product(a, 2 * b) == Product(2 * a, b)
    ensures Product(a, 1) == a
    ensures Product(2 * a, 1) == 2 * a
  {}

  lemma WordAt(i: nat)
    requires i < 256
    ensures Word(i) == At0(Byte(i)) && Word(i) << 8 == At1(Byte(i))
    ensures Word(i) << 16 == At2(Byte(i)) && Word(i) << 24 == At3(Byte(i))
  {
    WordByte(i);
  }

  /** The table gives, byte by byte, what appending n zero bits does. */
  ghost predicate ShiftTable(zeros: array2<bv32>, n: nat)
    reads zeros
  {
    && zeros.Length0 == 4
    && zeros.Length1 == 256
    && forall b :: ShiftEntry(zeros, n, Index(b), b)
  }

  ghost predicate ShiftEntry(zeros: array2<bv32>, n: nat, i: nat, b: bv8)
    requires zeros.Length0 == 4 && zeros.Length1 == 256 && i < 256
    reads zeros
  {
    && zeros[0, i] == ZeroBits(At0(b), n)
    && zeros[1, i] == ZeroBits(At1(b), n)
    && zeros[2, i] == ZeroBits(At2(b), n)
    && zeros[3, i] == ZeroBits(At3(b), n)
  }

  method FillEntry(zeros: array2<bv32>, op: array<bv32>, n: nat, ghost bits: nat)
    requires zeros.Length0 == 4 && zeros.Length1 == 256 && n < 256
    requires IsZerosOp(op[..], bits)
    modifies zeros
    ensures ShiftEntry(zeros, bits, n, Byte(n))
    ensures forall k, i :: 0 <= k < 4 && 0 <= i < 256 && i != n ==> zeros[k, i] == old(zeros[k, i])
  {
    WordAt(n);
    FitsWord(Word(n));
    FitsWord(Word(n) << 8);
    FitsWord(Word(n) << 16);
    FitsWord(Word(n) << 24);
    hide *;
    zeros[0, n] := OpTimes(op, Word(n), bits);
    zeros[1, n] := OpTimes(op, Word(n) << 8, bits);
    zeros[2, n] := OpTimes(op, Word(n) << 16, bits);
    zeros[3, n] := OpTimes(op, Word(n) << 24, bits);
    EntryIs(zeros, bits, n, Byte(n));
  }

  /** gf2_matrix_times by the operator. */
  method OpTimes(op: array<bv32>, v: bv32, ghost bits: nat) returns (z: bv32)
    requires IsZerosOp(op[..], bits) && Fits(v, op.Length)
    ensures z == ZeroBits(v, bits)
  {
    hide Fits, Times, ZeroBits;
    z := MatrixTimes(op, v);
  }

  lemma EntryIs(zeros: array2<bv32>, n: nat, i: nat, b: bv8)
    requires zeros.Length0 == 4 && zeros.Length1 == 256 && i < 256
    requires zeros[0, i] == ZeroBits(At0(b), n) && zeros[1, i] == ZeroBits(At1(b), n)
    requires zeros[2, i] == ZeroBits(At2(b), n) && zeros[3, i] == ZeroBits(At3(b), n)
    ensures ShiftEntry(zeros, n, i, b)
  {}

  /** crc32c_zeros. */
  method Zeros(zeros: array2<bv32>, len: nat)
    requires zeros.Length0 == 4 && zeros.Length1 == 256
    modifies zeros
    ensures ShiftTable(zeros, 8 * FloorPow2(len))
  {
    hide ZeroBits, At0, At1, At2, At3, FloorPow2, IsZerosOp;
    var op := new bv32[32];
    ZerosOp(op, len);
    ghost var bits := 8 * FloorPow2(len);
    for n := 0 to 256
      invariant IsZerosOp(op[..], bits)
      invariant forall i :: 0 <= i < n ==> ShiftEntry(zeros, bits, i, Byte(i))
    {
      FillEntry(zeros, op, n, bits);
    }
    forall b ensures ShiftEntry(zeros, bits, Index(b), b) {
      ByteIndex(b);
    }
  }

  /** crc32c_shift. */
  function Shift(zeros: array2<bv32>, crc: bv32): bv32
    requires zeros.Length0 == 4 && zeros.Length1 == 256
    reads zeros
  {
    Xor(Xor(Xor(zeros[0, Index(Low(crc))], zeros[1, Index(Low(crc >> 8))]),
            zeros[2, Index(Low(crc >> 16))]),
        zeros[3, Index(Low(crc >> 24))])
  }

  lemma ShiftIsZeroBits(zeros: array2<bv32>, n: nat, crc: bv32)
    requires ShiftTable(zeros, n)
    ensures Shift(zeros, crc) == ZeroBits(crc, n)
  {
    var b0, b1, b2, b3 := Low(crc), Low(crc >> 8), Low(crc >> 16), Low(crc >> 24);
    FourBytes(crc);
    hide Xor, At0, At1, At2, At3, ZeroBits, Low, Index;
    assert ShiftEntry(zeros, n, Index(b0), b0) && ShiftEntry(zeros, n, Index(b1), b1);
    assert ShiftEntry(zeros, n, Index(b2), b2) && ShiftEntry(zeros, n, Index(b3), b3);
    ZeroBitsLinear(At0(b0), At1(b1), n);
    ZeroBitsLinear(Xor(At0(b0), At1(b1)), At2(b2), n);
    ZeroBitsLinear(Xor(Xor(At0(b0), At1(b1)), At2(b2)), At3(b3), n);
  }

  /** The crc32 instruction on one byte and on eight bytes in address order. */
  function Crc32b(crc: bv32, b: bv8): bv32 { ByteStep(crc, b) }

  function Crc32q(crc: bv32, s: seq<bv8>): bv32
    requires |s| == 8
  {
    Update(crc, s)
  }

  lemma UpdateOne(crc: bv32, s: seq<bv8>, i: nat)
    requires i < |s|
    ensures Update(crc, s[..i + 1]) == Crc32b(Update(crc, s[..i]), s[i])
  {
    hide ByteStep;
    UpdateSnoc(crc, s, i);
  }

  lemma UpdateEight(crc: bv32, s: seq<bv8>, from: nat, mid: nat)
    requires from <= mid && mid + 8 <= |s|
    ensures Update(crc, s[from..mid + 8]) == Crc32q(Update(crc, s[from..mid]), s[mid..mid + 8])
  {
    UpdateRange(crc, s, from, mid, mid + 8);
  }

  lemma UpdateNone(crc: bv32, s: seq<bv8>, i: nat)
    requires i <= |s|
    ensures Update(crc, s[i..i]) == crc
  {
    assert s[i..i] == [];
  }

  lemma JoinThree(zeros: array2<bv32>, crc: bv32, buf: seq<bv8>, start: nat, block: nat)
    requires zeros.Length0 == 4 && zeros.Length1 == 256 && ShiftTable(zeros, 8 * block)
    requires start + 3 * block <= |buf|
    ensures var s, t := start + block, start + 2 * block;
      Xor(Shift(zeros, Xor(Shift(zeros, Update(crc, buf[start..s])), Update(0, buf[s..t]))),
          Update(0, buf[t..start + 3 * block]))
      == Update(crc, buf[start..start + 3 * block])
  {
    hide Xor, ZeroBits, ShiftTable, Update, Shift;
    var s, t, u := start + block, start + 2 * block, start + 3 * block;
    assert buf[start..t] == buf[start..s] + buf[s..t];
    assert buf[start..u] == buf[start..t] + buf[t..u];
    ShiftIsZeroBits(zeros, 8 * block, Update(crc, buf[start..s]));
    UpdateApart(crc, buf[start..s], buf[s..t]);
    ShiftIsZeroBits(zeros, 8 * block, Update(crc, buf[start..t]));
    UpdateApart(crc, buf[start..t], buf[t..u]);
  }

  /** One block of the three-way loop: three independent registers over three
  neighbouring pieces of `block` bytes, then joined through the table. */
  method ThreeWay(zeros: array2<bv32>, crc: bv32, buf: seq<bv8>, start: nat, block: nat) returns (r: bv32)
    requires zeros.Length0 == 4 && zeros.Length1 == 256 && ShiftTable(zeros, 8 * block)
    requires block > 0 && block % 8 == 0 && start + 3 * block <= |buf|
    ensures r == Update(crc, buf[start..start + 3 * block])
  {
    hide Xor, ShiftTable, Update, Crc32q, Shift;
    var crc0, crc1, crc2 := crc, 0, 0;
    var end := start + block;
    ghost var end1 := end + block;
    var next := start;
    UpdateNone(crc, buf, start);
    UpdateNone(0, buf, start + block);
    UpdateNone(0, buf, start + 2 * block);
    while next < end
      invariant start <= next <= end && (end - next) % 8 == 0
      invariant crc0 == Update(crc, buf[start..next])
      invariant crc1 == Update(0, buf[end..next + block])
      invariant crc2 == Update(0, buf[end1..next + 2 * block])
    {
      UpdateEight(crc, buf, start, next);
      UpdateEight(0, buf, end, next + block);
      UpdateEight(0, buf, end1, next + 2 * block);
      crc0 := Crc32q(crc0, buf[next..next + 8]);
      crc1 := Crc32q(crc1, buf[next + block..next + block + 8]);
      crc2 := Crc32q(crc2, buf[next + 2 * block..next + 2 * block + 8]);
      next := next + 8;
    }
    JoinThree(zeros, crc, buf, start, block);
    crc0 := Xor(Shift(zeros, crc0), crc1);
    crc0 := Xor(Shift(zeros, crc0), crc2);
    r := crc0;
  }

  /** The two tables that crc32c_init_hw builds once. */
  ghost predicate HwTables(long: array2<bv32>, short: array2<bv32>)
    reads long, short
  {
    && long.Length0 == 4 && long.Length1 == 256 && short.Length0 == 4 && short.Length1 == 256
    && ShiftTable(long, 8 * LONG) && ShiftTable(short, 8 * SHORT)
  }

  lemma BlockSizes()
    ensures FloorPow2(LONG) == LONG && FloorPow2(SHORT) == SHORT
  {
    assert FloorPow2(4) == 4;
    assert FloorPow2(16) == 16;
    assert FloorPow2(64) == 64;
    assert FloorPow2(256) == 256;
    assert FloorPow2(1024) == 1024;
    assert FloorPow2(4096) == 4096;
  }

  method InitHw() returns (long: array2<bv32>, short: array2<bv32>)
    ensures HwTables(long, short)
  {
    BlockSizes();
    hide ShiftTable, FloorPow2;
    long := new bv32[4, 256];
    short := new bv32[4, 256];
    Zeros(long, LONG);
    Zeros(short, SHORT);
  }

  /** Feeds single bytes up to an aligned address or the end. */
  method HeadBytes(crc: bv32, buf: seq<bv8>, address: nat) returns (r: bv32, next: nat)
    ensures next <= |buf|
    ensures next < |buf| ==> (address + next) % 8 == 0
    ensures r == Update(crc, buf[..next])
  {
    hide Update, Crc32b;
    r, next := crc, 0;
    UpdateNone(crc, buf, 0);
    while next < |buf| && (address + next) % 8 != 0
      invariant 0 <= next <= |buf|
      invariant r == Update(crc, buf[..next])
    {
      UpdateOne(crc, buf, next);
      r := Crc32b(r, buf[next]);
      next := next + 1;
    }
  }

  /** Feeds three-way blocks while three of them fit. */
  method Blocks(zeros: array2<bv32>, ghost crc: bv32, crc0: bv32, buf: seq<bv8>, from: nat, block: nat)
    returns (r: bv32, next: nat)
    requires zeros.Length0 == 4 && zeros.Length1 == 256 && ShiftTable(zeros, 8 * block)
    requires block > 0 && block % 8 == 0
    requires from <= |buf| && crc0 == Update(crc, buf[..from])
    ensures from <= next <= |buf| && |buf| - next < block * 3
    ensures r == Update(crc, buf[..next])
  {
    hide Update, ShiftTable;
    r, next := crc0, from;
    while |buf| - next >= block * 3
      invariant from <= next <= |buf|
      invariant r == Update(crc, buf[..next])
    {
      UpdateRange(crc, buf, 0, next, next + block * 3);
      r := ThreeWay(zeros, r, buf, next, block);
      next := next + block * 3;
    }
  }

  /** Feeds what is left: eight bytes at a time, then single bytes. */
  method TailBytes(ghost crc: bv32, crc0: bv32, buf: seq<bv8>, from: nat) returns (r: bv32)
    requires from <= |buf| && crc0 == Update(crc, buf[..from])
    ensures r == Update(crc, buf)
  {
    hide Update, Crc32q, Crc32b;
    r := crc0;
    var next, len := from, |buf| - from;
    var end := next + (len - len % 8);
    while next < end
      invariant from <= next <= end <= |buf| && (end - next) % 8 == 0
      invariant r == Update(crc, buf[..next])
    {
      UpdateEight(crc, buf, 0, next);
      r := Crc32q(r, buf[next..next + 8]);
      next := next + 8;
    }
    while next < |buf|
      invariant 0 <= next <= |buf|
      invariant r == Update(crc, buf[..next])
    {
      UpdateOne(crc, buf, next);
      r := Crc32b(r, buf[next]);
      next := next + 1;
    }
    assert buf[..next] == buf;
  }

  /** crc32c_hw equals the bitwise CRC for every buffer, length and alignment. */
  method Hw(long: array2<bv32>, short: array2<bv32>, crc: bv32, buf: seq<bv8>, address: nat) returns (r: bv32)
    requires HwTables(long, short)
    ensures r == Crc(crc, buf)
  {
    hide ShiftTable, Update, Not;
    var crc0, next := HeadBytes(Not(crc), buf, address);
    crc0, next := Blocks(long, Not(crc), crc0, buf, next, LONG);
    crc0, next := Blocks(short, Not(crc), crc0, buf, next, SHORT);
    crc0 := TailBytes(Not(crc), crc0, buf, next);
    r := Not(crc0);
  }
}

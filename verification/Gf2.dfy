/** Linear algebra over GF(2) on 32-bit words, as crc32c.c uses it.

A word is a vector of 32 bits and a matrix is the sequence of its columns.
The word operations have names of their own, so that proofs by algebra treat
them as symbols with laws and never look at single bits. */
module Gf2 {

  function Xor(a: bv32, b: bv32): bv32 { a ^ b }

  function Half(v: bv32): bv32 { v >> 1 }

  function Twice(v: bv32): bv32 { v << 1 }

  predicate Odd(v: bv32) { v & 1 == 1 }

  lemma XorComm(a: bv32, b: bv32)
    ensures Xor(a, b) == Xor(b, a)
  {}

  lemma XorZero(a: bv32)
    ensures Xor(a, 0) == a == Xor(0, a)
  {}

  lemma XorSelf(a: bv32)
    ensures Xor(a, a) == 0
  {}

  lemma XorAssoc(a: bv32, b: bv32, c: bv32)
    ensures Xor(Xor(a, b), c) == Xor(a, Xor(b, c))
  {}

  lemma XorInterchange(a: bv32, b: bv32, c: bv32, d: bv32)
    ensures Xor(Xor(a, b), Xor(c, d)) == Xor(Xor(a, c), Xor(b, d))
  {
    hide Xor;
    XorAssoc(a, b, Xor(c, d));
    XorAssoc(b, c, d);
    XorComm(b, c);
    XorAssoc(c, b, d);
    XorAssoc(a, c, Xor(b, d));
  }

  lemma HalfLinear(a: bv32, b: bv32)
    ensures Half(Xor(a, b)) == Xor(Half(a), Half(b))
  {}

  lemma TwiceLinear(a: bv32, b: bv32)
    ensures Twice(Xor(a, b)) == Xor(Twice(a), Twice(b))
  {}

  lemma OddLinear(a: bv32, b: bv32)
    ensures Odd(Xor(a, b)) <==> Odd(a) != Odd(b)
  {
    assert (a ^ b) & 1 == (a & 1) ^ (b & 1);
  }

  lemma OfZero()
    ensures Half(0) == 0 && Twice(0) == 0 && !Odd(0)
  {}

  /** A word is its low bit plus twice its upper bits. */
  lemma LowBit(v: bv32)
    ensures v == Xor(if Odd(v) then 1 else 0, Twice(Half(v)))
  {}

  /** A column taken or left, as a bit of the vector says. */
  function Pick(bit: bool, column: bv32): bv32 { if bit then column else 0 }

  /** The product of a matrix and a vector: the sum of the columns that the
  bits of the vector select. */
  function Times(mat: seq<bv32>, v: bv32): bv32
    decreases |mat|
  {
    if mat == [] then 0 else Xor(Pick(Odd(v), mat[0]), Times(mat[1..], Half(v)))
  }

  lemma {:induction false} TimesLinear(mat: seq<bv32>, a: bv32, b: bv32)
    ensures Times(mat, Xor(a, b)) == Xor(Times(mat, a), Times(mat, b))
    decreases |mat|
  {
    hide Xor, Half, Odd;
    if mat == [] {
      XorZero(0);
    } else {
      OddLinear(a, b);
      XorSelf(mat[0]);
      XorZero(mat[0]);
      XorZero(0);
      HalfLinear(a, b);
      TimesLinear(mat[1..], Half(a), Half(b));
      XorInterchange(Pick(Odd(a), mat[0]), Pick(Odd(b), mat[0]), Times(mat[1..], Half(a)), Times(mat[1..], Half(b)));
    }
  }

  lemma {:induction false} TimesZero(mat: seq<bv32>)
    ensures Times(mat, 0) == 0
    decreases |mat|
  {
    hide Xor, Half, Odd;
    if mat != [] {
      OfZero();
      TimesZero(mat[1..]);
      XorZero(0);
    }
  }

  /** The matrix whose columns are the images of the columns of `inner`. */
  function Compose(outer: seq<bv32>, inner: seq<bv32>): (r: seq<bv32>)
    ensures |r| == |inner|
  {
    seq(|inner|, i requires 0 <= i < |inner| => Times(outer, inner[i]))
  }

  /** Matrix multiplication is composition of the linear maps. */
  lemma {:induction false} ComposeTimes(outer: seq<bv32>, inner: seq<bv32>, v: bv32)
    ensures Times(Compose(outer, inner), v) == Times(outer, Times(inner, v))
    decreases |inner|
  {
    hide Xor, Half, Odd;
    TimesZero(outer);
    if inner != [] {
      assert Compose(outer, inner)[1..] == Compose(outer, inner[1..]);
      ComposeTimes(outer, inner[1..], Half(v));
      TimesLinear(outer, Pick(Odd(v), inner[0]), Times(inner[1..], Half(v)));
    }
  }

  /** The vector has no bit beyond the first n. */
  predicate Fits(v: bv32, n: nat) {
    if n == 0 then v == 0 else Fits(Half(v), n - 1)
  }

  function HalfTimes(v: bv32, n: nat): bv32
    decreases n
  {
    if n == 0 then v else HalfTimes(Half(v), n - 1)
  }

  function Down4(v: bv32): bv32 { v >> 4 }

  lemma HalfFour(v: bv32, n: nat)
    ensures HalfTimes(v, n + 4) == HalfTimes(Down4(v), n)
  {
    var w := Half(Half(Half(Half(v))));
    assert w == Down4(v);
    hide Half;
    assert HalfTimes(v, n + 4) == HalfTimes(Half(Half(v)), n + 2);
    assert HalfTimes(Half(Half(v)), n + 2) == HalfTimes(w, n);
  }

  lemma HalfSixteen(v: bv32, n: nat)
    ensures HalfTimes(v, n + 16) == HalfTimes(Down4(Down4(Down4(Down4(v)))), n)
  {
    hide Half, Down4;
    HalfFour(v, n + 12);
    HalfFour(Down4(v), n + 8);
    HalfFour(Down4(Down4(v)), n + 4);
    HalfFour(Down4(Down4(Down4(v))), n);
  }

  lemma DownToZero(v: bv32)
    ensures Down4(Down4(Down4(Down4(Down4(Down4(Down4(Down4(v)))))))) == 0
  {}

  lemma {:induction false} FitsHalfTimes(v: bv32, n: nat)
    ensures Fits(v, n) <==> HalfTimes(v, n) == 0
    decreases n
  {
    if n > 0 { FitsHalfTimes(Half(v), n - 1); }
  }

  lemma FitsWord(v: bv32)
    ensures Fits(v, 32)
  {
    hide Half, Down4;
    HalfSixteen(v, 16);
    HalfSixteen(Down4(Down4(Down4(Down4(v)))), 0);
    DownToZero(v);
    FitsHalfTimes(v, 32);
  }

  /** The word moved up by k bits, one doubling at a time. */
  function ShiftUp(v: bv32, k: nat): bv32
    decreases k
  {
    if k == 0 then v else ShiftUp(Twice(v), k - 1)
  }

  function Unit(k: nat): bv32 { ShiftUp(1, k) }

  lemma {:induction false} ShiftUpLinear(a: bv32, b: bv32, k: nat)
    ensures ShiftUp(Xor(a, b), k) == Xor(ShiftUp(a, k), ShiftUp(b, k))
    decreases k
  {
    hide Xor, Twice;
    if k > 0 {
      TwiceLinear(a, b);
      ShiftUpLinear(Twice(a), Twice(b), k - 1);
    }
  }

  lemma {:induction false} ShiftUpZero(k: nat)
    ensures ShiftUp(0, k) == 0
  {
    hide Twice;
    if k > 0 {
      OfZero();
      ShiftUpZero(k - 1);
    }
  }

  lemma {:induction false} ShiftUpLast(v: bv32, k: nat)
    ensures ShiftUp(v, k + 1) == Twice(ShiftUp(v, k))
    decreases k
  {
    hide Twice;
    if k > 0 { ShiftUpLast(Twice(v), k - 1); }
  }

  /** Columns k, k+1, ... of the identity move a word up by k bits. */
  lemma {:induction false} TimesUnits(rows: seq<bv32>, v: bv32, k: nat)
    requires forall i :: 0 <= i < |rows| ==> rows[i] == Unit(k + i)
    requires Fits(v, |rows|)
    ensures Times(rows, v) == ShiftUp(v, k)
    decreases |rows|
  {
    hide Xor, Half, Twice, Odd;
    ShiftUpZero(k);
    if rows != [] {
      LowBit(v);
      ShiftUpLinear(if Odd(v) then 1 else 0, Twice(Half(v)), k);
      assert rows[0] == Unit(k + 0);
      forall i | 0 <= i < |rows[1..]| ensures rows[1..][i] == Unit(k + 1 + i) {
        assert rows[1..][i] == rows[i + 1] == Unit(k + (i + 1));
      }
      TimesUnits(rows[1..], Half(v), k + 1);
    }
  }

  /** gf2_matrix_times: walks the bits of the vector up to the highest set one. */
  method MatrixTimes(mat: array<bv32>, vec: bv32) returns (sum: bv32)
    requires Fits(vec, mat.Length)
    ensures sum == Times(mat[..], vec)
  {
    hide Xor, Half, Odd;
    sum := 0;
    var v := vec;
    var i := 0;
    XorZero(Times(mat[..], vec));
    assert mat[0..] == mat[..];
    while v != 0
      invariant 0 <= i <= mat.Length
      invariant Fits(v, mat.Length - i)
      invariant Xor(sum, Times(mat[i..], v)) == Times(mat[..], vec)
      decreases mat.Length - i
    {
      assert mat[i..][0] == mat[i] && mat[i..][1..] == mat[i + 1..];
      XorAssoc(sum, Pick(Odd(v), mat[i]), Times(mat[i + 1..], Half(v)));
      XorZero(sum);
      if Odd(v) {
        sum := Xor(sum, mat[i]);
      }
      v := Half(v);
      i := i + 1;
    }
    TimesZero(mat[i..]);
    XorZero(sum);
  }

  /** gf2_matrix_square. */
  method MatrixSquare(square: array<bv32>, mat: array<bv32>)
    requires square != mat && square.Length == 32 && mat.Length == 32
    modifies square
    ensures square[..] == Compose(mat[..], mat[..])
  {
    for n := 0 to 32
      invariant forall i :: 0 <= i < n ==> square[i] == Times(mat[..], mat[..][i])
    {
      FitsWord(mat[n]);
      square[n] := MatrixTimes(mat, mat[n]);
    }
  }
}

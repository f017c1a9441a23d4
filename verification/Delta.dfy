/** The arithmetic of do_add_delta: incr, decr, and the mult and div loops, on
unsigned 64-bit values. */
module Delta {
  import opened Basics

  const U64: nat := 0x1_0000_0000_0000_0000

  datatype Operation = Incr | Decr | Mult | Div

  /** Adding up `value` delta times. */
  method Multiply(value: nat, delta: nat) returns (multres: nat)
    requires value < U64
    ensures multres == value * delta % U64
  {
    multres := 0;
    var i := 0;
    while i < delta
      invariant 0 <= i <= delta && multres == value * i % U64
    {
      AddOnce(value, i);
      multres := (multres + value) % U64;
      i := i + 1;
    }
  }

  lemma AddOnce(value: nat, i: nat)
    ensures (value * i % U64 + value) % U64 == value * (i + 1) % U64
  {
    var q, r := value * i / U64, value * i % U64;
    var q', r' := (r + value) / U64, (r + value) % U64;
    assert value * (i + 1) == value * i + value;
    assert value * (i + 1) == U64 * (q + q') + r';
    DivUnique(value * (i + 1), U64, q + q', r');
  }

  /** The running sum of the div loop after k more turns: k + 1 times delta, as far
  as 64 bits hold it. */
  function Sum(delta: nat, k: nat): (s: nat)
    ensures s < U64
  {
    delta * (k + 1) % U64
  }

  /** The loop ends after k turns. */
  ghost predicate EndsAt(value: nat, delta: nat, k: nat) {
    Sum(delta, k) > value && forall j :: 0 <= j < k ==> Sum(delta, j) <= value
  }

  /** It ends at all. */
  ghost predicate Ends(value: nat, delta: nat) {
    exists k: nat :: Sum(delta, k) > value
  }

  /** Counting how often delta fits: how many running sums come before the first
  that exceeds the value. The loop runs forever when there is none. */
  method Divide(value: nat, delta: nat) returns (divres: nat)
    requires value < U64 && 0 < delta < U64 && Ends(value, delta)
    ensures EndsAt(value, delta, divres)
  {
    ghost var last: nat :| Sum(delta, last) > value;
    divres := 0;
    var temp := (0 + delta) % U64;
    while temp <= value
      invariant 0 <= divres <= last && temp == Sum(delta, divres)
      invariant forall j :: 0 <= j < divres ==> Sum(delta, j) <= value
      decreases last - divres
    {
      AddOnce(delta, divres + 1);
      temp := (temp + delta) % U64;
      divres := divres + 1;
    }
  }

  /** The count itself fits 64 bits: after 2^64 turns the sums repeat. */
  lemma CountFits(value: nat, delta: nat, k: nat)
    requires EndsAt(value, delta, k)
    ensures k < U64
  {
    if k >= U64 {
      var j := k - U64;
      assert delta * (k + 1) == U64 * delta + delta * (j + 1);
      assert delta * (j + 1) == U64 * (delta * (j + 1) / U64) + Sum(delta, j);
      DivUnique(delta * (k + 1), U64, delta + delta * (j + 1) / U64, Sum(delta, j));
    }
  }

  lemma Quotient(value: nat, delta: nat)
    requires delta > 0
    ensures delta * (value / delta) <= value < delta * (value / delta + 1) == delta * (value / delta) + delta
  {
    assert value == delta * (value / delta) + value % delta;
  }

  /** When the loop ends, what it has counted is the quotient exactly if the first
  multiple of delta above the value fits 64 bits. */
  lemma QuotientIff(value: nat, delta: nat, k: nat)
    requires value < U64 && 0 < delta < U64 && EndsAt(value, delta, k)
    ensures k == value / delta <==> delta * (value / delta + 1) < U64
  {
    var q := value / delta;
    Quotient(value, delta);
    if k < q {
      TimesMonotone(delta, k + 1, q);
      SmallSum(delta, k);
    }
    if delta * (q + 1) < U64 {
      SmallSum(delta, q);
    } else {
      DivUnique(delta * (q + 1), U64, 1, delta * (q + 1) - U64);
    }
  }

  lemma SmallSum(delta: nat, k: nat)
    requires delta * (k + 1) < U64
    ensures Sum(delta, k) == delta * (k + 1)
  {
    DivUnique(delta * (k + 1), U64, 0, delta * (k + 1));
  }

  /** The exponent of the largest power of two that divides delta. */
  function Twos(delta: nat): (t: nat)
    requires delta > 0
    ensures delta % Pow2(t) == 0 && delta / Pow2(t) % 2 == 1
  {
    if delta % 2 == 1 then 0
    else
      var t := Twos(delta / 2);
      TwosStep(delta, t);
      t + 1
  }

  lemma TwosStep(delta: nat, t: nat)
    requires delta % 2 == 0 && delta / 2 % Pow2(t) == 0
    ensures delta % Pow2(t + 1) == 0 && delta / Pow2(t + 1) == delta / 2 / Pow2(t)
  {
    var p, o := Pow2(t), delta / 2 / Pow2(t);
    assert delta / 2 == p * o;
    assert delta == 2 * (p * o) == (2 * p) * o;
    DivUnique(delta, 2 * p, o, 0);
  }

  lemma {:induction false} PowSplit(t: nat, n: nat)
    ensures Pow2(t + n) == Pow2(t) * Pow2(n)
  {
    if t > 0 {
      PowSplit(t - 1, n);
      var a, b := Pow2(t - 1), Pow2(n);
      assert Pow2(t) == 2 * a && Pow2(t + n) == 2 * Pow2(t - 1 + n);
      hide Pow2;
      Doubled(a, b);
    }
  }

  lemma Doubled(a: nat, b: nat)
    ensures 2 * (a * b) == 2 * a * b
  {}

  lemma {:induction false} PowGrows(t: nat, n: nat)
    requires t <= n
    ensures Pow2(t) <= Pow2(n)
  {
    if t < n { PowGrows(t, n - 1); }
  }

  lemma Squared(t: nat, v: nat)
    requires Pow2(t) == v
    ensures Pow2(t + t) == v * v
  {
    PowSplit(t, t);
  }

  lemma SixtyFour()
    ensures Pow2(64) == U64
  {
    assert Pow2(2) == 4;
    hide Pow2;
    Squared(2, 0x4);
    Squared(4, 0x10);
    Squared(8, 0x100);
    Squared(16, 0x1_0000);
    Squared(32, 0x1_0000_0000);
  }

  lemma InverseHalf(o: nat, p: nat, x: nat, y0: nat, y: nat)
    requires o * x == 1 + p * y0 && y0 == 2 * y
    ensures o * x == 1 + 2 * p * y
  {
    assert p * y0 == 2 * p * y;
  }

  lemma InverseShift(o: nat, p: nat, x0: nat, y0: nat, y: nat)
    requires o * x0 == 1 + p * y0 && y0 + o == 2 * y
    ensures o * (x0 + p) == 1 + 2 * p * y
  {
    assert o * (x0 + p) == o * x0 + p * o;
    assert p * (y0 + o) == p * y0 + p * o;
    assert p * (2 * y) == 2 * p * y;
  }

  lemma InverseNext(o: nat, p: nat, x0: nat, y0: nat) returns (x: nat, y: nat)
    requires o % 2 == 1 && o * x0 == 1 + p * y0
    ensures o * x == 1 + 2 * p * y
  {
    if y0 % 2 == 0 {
      x, y := x0, y0 / 2;
      InverseHalf(o, p, x, y0, y);
    } else {
      x, y := x0 + p, (y0 + o) / 2;
      InverseShift(o, p, x0, y0, y);
    }
  }

  /** An odd number times some number is one more than a multiple of 2^n. */
  lemma {:induction false} OddInverse(o: nat, n: nat) returns (x: nat, y: nat)
    requires o % 2 == 1
    ensures o * x == 1 + Pow2(n) * y
  {
    if n == 0 {
      x, y := 1, o - 1;
    } else {
      x, y := OddInverse(o, n - 1);
      x, y := InverseNext(o, Pow2(n - 1), x, y);
    }
  }

  /** delta is an odd multiple of a power of two that divides 2^64 at least twice. */
  lemma Factors(delta: nat) returns (g: nat, o: nat, n: nat)
    requires 0 < delta < U64
    ensures g == Pow2(Twos(delta)) && delta == g * o && o % 2 == 1 && n > 0 && g * Pow2(n) == U64
  {
    var t := Twos(delta);
    g, o := Pow2(t), delta / Pow2(t);
    SixtyFour();
    Exact(delta, g);
    TimesMonotone(g, 1, o);
    if t >= 64 { PowGrows(64, t); }
    n := 64 - t;
    PowSplit(t, n);
  }

  lemma Exact(a: nat, g: nat)
    requires g > 0 && a % g == 0
    ensures a == g * (a / g)
  {}

  /** Every running sum is a multiple of the power of two in delta. */
  lemma SumsAreMultiples(delta: nat, k: nat)
    requires 0 < delta < U64
    ensures Pow2(Twos(delta)) < U64 && Sum(delta, k) <= U64 - Pow2(Twos(delta))
  {
    var g, o, n := Factors(delta);
    var m := Pow2(n);
    TimesMonotone(g, 2, m);
    var r := Sum(delta, k);
    var q := delta * (k + 1) / U64;
    assert delta * (k + 1) == U64 * q + r;
    MultipleLeft(delta, k + 1, g, o, m, q, r);
  }

  lemma MultipleLeft(delta: nat, k: nat, g: nat, o: nat, m: nat, q: nat, r: nat)
    requires delta == g * o && g * m == U64 && delta * k == U64 * q + r && r < U64
    ensures r <= U64 - g
  {
    assert delta * k == g * (o * k);
    assert U64 * q == g * (m * q);
    var a := o * k - m * q;
    assert r == g * a;
    if a >= m { TimesMonotone(g, m, a); }
    TimesMonotone(g, a, m - 1);
    assert g * (m - 1) == g * m - g;
  }

  /** And the largest of them is reached. */
  lemma LargestSum(delta: nat) returns (k: nat)
    requires 0 < delta < U64
    ensures Sum(delta, k) == U64 - Pow2(Twos(delta))
  {
    var g, o, n := Factors(delta);
    var x, y := OddInverse(o, n);
    assert Pow2(n) >= 2;
    var m := Pow2(n);
    hide Pow2, Twos;
    LargestAt(delta, g, o, m, x, y);
    k := (m - 1) * x - 1;
  }

  lemma LargestAt(delta: nat, g: nat, o: nat, m: nat, x: nat, y: nat)
    requires delta == g * o && g * m == U64 && o * x == 1 + m * y && m >= 2 && g > 0
    ensures (m - 1) * x >= 1 && delta * ((m - 1) * x) % U64 == U64 - g
  {
    assert x > 0;
    TimesMonotone(m - 1, 1, x);
    assert delta * ((m - 1) * x) == g * (m - 1) * (o * x);
    assert g * (m - 1) * (1 + m * y) == g * (m - 1) + g * m * ((m - 1) * y);
    assert g * (m - 1) == U64 - g;
    DivUnique(delta * ((m - 1) * x), U64, (m - 1) * y, U64 - g);
  }

  /** The loop ends exactly when the value is below 2^64 less the largest power of
  two that divides delta. */
  lemma EndsIff(value: nat, delta: nat)
    requires value < U64 && 0 < delta < U64
    ensures Ends(value, delta) <==> value < U64 - Pow2(Twos(delta))
  {
    if Ends(value, delta) {
      var k: nat :| Sum(delta, k) > value;
      SumsAreMultiples(delta, k);
    }
    var k := LargestSum(delta);
  }

  /** Inputs on which it never ends, and on which it ends with another number than
  the quotient. */
  lemma DivideWitness(k: nat)
    ensures !Ends(U64 - 1, 2)
    ensures Ends(U64 - 2, 7) && (EndsAt(U64 - 2, 7, k) ==> k != (U64 - 2) / 7)
  {
    EndsIff(U64 - 1, 2);
    assert Twos(2) == 1 && Pow2(1) == 2;
    EndsIff(U64 - 2, 7);
    assert Twos(7) == 0;
    if EndsAt(U64 - 2, 7, k) { QuotientIff(U64 - 2, 7, k); }
  }

  /** The switch of do_add_delta. The delta is a signed 64-bit number, given here by
  its bits: those from 2^63 up are the negative ones, which only mult treats apart. */
  method Apply(op: Operation, value0: nat, delta: nat) returns (value: nat)
    requires value0 < U64 && delta < U64
    requires op.Div? && delta > 0 ==> Ends(value0, delta)
    ensures value < U64
    ensures match op
      case Incr => value == (value0 + delta) % U64
      case Decr => value == if delta > value0 then 0 else value0 - delta
      case Mult => value == if delta < 0x8000_0000_0000_0000 then value0 * delta % U64 else value0
      case Div => if delta == 0 then value == value0 else EndsAt(value0, delta, value)
  {
    value := value0;
    match op
    case Incr =>
      value := (value + delta) % U64;
    case Decr =>
      if delta > value {
        value := 0;
      } else {
        value := value - delta;
      }
    case Mult =>
      if delta < 0x8000_0000_0000_0000 {
        value := Multiply(value, delta);
      }
    case Div =>
      if delta > 0 {
        value := Divide(value, delta);
        CountFits(value0, delta, value);
      }
  }
}

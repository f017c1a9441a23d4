/** itoa_ljust.c: integers as decimal text, two digits at a time. */
module Itoa {
  import opened Basics

  /** 10^k. */
  function Pow(k: nat): (r: nat)
    ensures r > 0
  {
    if k == 0 then 1 else 10 * Pow(k - 1)
  }

  /** The digits above the last k, and the last k. */
  function Top(u: nat, k: nat): (r: nat) { Quotient(u, Pow(k)) }

  function Quotient(u: nat, m: nat): (q: nat)
    requires m > 0
  {
    u / m
  }

  function Low(u: nat, k: nat): (r: nat)
    ensures r < Pow(k)
  {
    u % Pow(k)
  }

  function Digit(d: nat): char
    requires d < 10
  {
    '0' + d as char
  }

  /** The canonical numeral of u: no leading zero, except for 0 itself. */
  function Numeral(u: nat): (s: string)
    ensures |s| > 0
  {
    if u < 10 then [Digit(u)] else Numeral(u / 10) + [Digit(u % 10)]
  }

  /** Exactly k digits of u, with leading zeros. */
  function Fixed(u: nat, k: nat): (s: string)
    ensures |s| == k
  {
    if k == 0 then "" else Fixed(u / 10, k - 1) + [Digit(u % 10)]
  }

  /** What a numeral says. */
  function ValueOf(s: string): nat
    requires forall i :: 0 <= i < |s| ==> '0' <= s[i] <= '9'
  {
    if s == "" then 0 else 10 * ValueOf(s[..|s| - 1]) + (s[|s| - 1] - '0') as nat
  }

  /** The numeral says u, and it has no leading zero. */
  lemma {:induction false} NumeralIsCanonical(u: nat)
    ensures forall i :: 0 <= i < |Numeral(u)| ==> '0' <= Numeral(u)[i] <= '9'
    ensures ValueOf(Numeral(u)) == u
    ensures u > 0 ==> Numeral(u)[0] != '0'
  {
    var s := Numeral(u);
    if u >= 10 {
      NumeralIsCanonical(u / 10);
      assert s[..|s| - 1] == Numeral(u / 10);
    } else {
      assert s[..0] == "";
    }
  }

  lemma {:induction false} NumeralIsFixed(u: nat, k: nat)
    requires k >= 1 && u < Pow(k) && (k > 1 ==> Pow(k - 1) <= u)
    ensures Numeral(u) == Fixed(u, k)
  {
    if k > 1 {
      assert Pow(k) == 10 * Pow(k - 1) && Pow(k - 1) == 10 * Pow(k - 2);
      NumeralIsFixed(u / 10, k - 1);
    } else {
      assert Pow(1) == 10 * Pow(0);
      assert Fixed(u, 1) == Fixed(u / 10, 0) + [Digit(u % 10)];
    }
  }

  /** Dividing by 10 m is dividing by 10, then by m. */
  lemma TenTimes(u: nat, m: nat)
    requires m > 0
    ensures u / (10 * m) == u / 10 / m && u % (10 * m) / 10 == u / 10 % m && u % (10 * m) % 10 == u % 10
  {
    var v, d := u / 10, u % 10;
    var q, r := v / m, v % m;
    assert v == m * q + r;
    assert 10 * (m * q) == (10 * m) * q;
    assert u == (10 * m) * q + (10 * r + d);
    DivUnique(u, 10 * m, q, 10 * r + d);
  }

  /** The digits in front and the last k digits. */
  lemma {:induction false} FixedSplit(u: nat, j: nat, k: nat)
    ensures Fixed(u, j + k) == Fixed(Top(u, k), j) + Fixed(Low(u, k), k)
  {
    if k == 0 {
      assert u / 1 == u;
    } else {
      FixedSplit(u / 10, j, k - 1);
      TenTimes(u, Pow(k - 1));
      assert Fixed(u, j + k) == Fixed(u / 10, j + k - 1) + [Digit(u % 10)];
      assert Fixed(Low(u, k), k) == Fixed(Low(u, k) / 10, k - 1) + [Digit(Low(u, k) % 10)];
    }
  }

  lemma {:induction false} NumeralSplit(u: nat, k: nat)
    requires u >= Pow(k)
    ensures Numeral(u) == Numeral(Top(u, k)) + Fixed(Low(u, k), k)
  {
    if k == 0 {
      assert u / 1 == u;
    } else {
      assert Pow(k) == 10 * Pow(k - 1);
      NumeralSplit(u / 10, k - 1);
      TenTimes(u, Pow(k - 1));
      assert Fixed(Low(u, k), k) == Fixed(Low(u, k) / 10, k - 1) + [Digit(Low(u, k) % 10)];
    }
  }

  lemma Powers()
    ensures Pow(0) == 1 && Pow(1) == 10 && Pow(2) == 100 && Pow(3) == 1000 && Pow(4) == 10000
    ensures Pow(5) == 100000 && Pow(6) == 1000000 && Pow(7) == 10000000 && Pow(8) == 100000000
    ensures Pow(9) == 1000000000 && Pow(10) == 10000000000
  {
    assert Pow(1) == 10 * Pow(0) && Pow(2) == 10 * Pow(1) && Pow(3) == 10 * Pow(2) && Pow(4) == 10 * Pow(3);
    assert Pow(5) == 10 * Pow(4) && Pow(6) == 10 * Pow(5) && Pow(7) == 10 * Pow(6) && Pow(8) == 10 * Pow(7);
    assert Pow(9) == 10 * Pow(8) && Pow(10) == 10 * Pow(9);
  }

  /** What itoa prints when it is entered at case n: all n digits if n is even; if
  n is odd, the digits after a first one that is printed already. */
  function Rest(u: nat, n: nat): string
    requires n >= 1
  {
    if n % 2 == 0 then Fixed(u, n) else Fixed(Low(u, n - 1), n - 1)
  }

  /** The text so far. */
  ghost predicate Text(buf: array<char>, p: nat, s: string)
    reads buf
  {
    p <= buf.Length && buf[..p] == s
  }

  /** out1. */
  method Out1(c: char, buf: array<char>, p: nat) returns (p': nat)
    requires p < buf.Length
    modifies buf
    ensures p' == p + 1 && buf[..p'] == old(buf[..p]) + [c]
  {
    buf[p] := c;
    return p + 1;
  }

  /** out2: a pair of digits from the table. */
  method Out2(d: nat, buf: array<char>, p: nat) returns (p': nat)
    requires p + 2 <= buf.Length && d < 100
    modifies buf
    ensures p' == p + 2 && buf[..p'] == old(buf[..p]) + Fixed(d, 2)
  {
    buf[p] := Digit(d / 10);
    buf[p + 1] := Digit(d % 10);
    TwoDigits(d);
    return p + 2;
  }

  lemma TwoDigits(d: nat)
    requires d < 100
    ensures Fixed(d, 2) == [Digit(d / 10), Digit(d % 10)]
  {
    assert Fixed(d / 10 / 10, 0) == "";
    assert Fixed(d / 10, 1) == Fixed(d / 10 / 10, 0) + [Digit(d / 10 % 10)];
    assert Fixed(d, 2) == Fixed(d / 10, 1) + [Digit(d % 10)];
  }

  /** One pair, and what is left of the number. */
  lemma PairOff(u: nat, k: nat)
    requires u < Pow(k + 2)
    ensures Top(u, k) == u / Pow(k) < 100 && u - Top(u, k) * Pow(k) == Low(u, k)
    ensures Fixed(u, k + 2) == Fixed(Top(u, k), 2) + Fixed(Low(u, k), k)
  {
    FixedSplit(u, 2, k);
    assert Pow(k + 2) == 10 * Pow(k + 1) && Pow(k + 1) == 10 * Pow(k);
    hide Fixed, Pow;
    Hundred(u, Pow(k));
  }

  lemma Hundred(u: nat, m: nat)
    requires m > 0 && u < 100 * m
    ensures u / m < 100 && u - u / m * m == u % m < m
  {
    var q, r := u / m, u % m;
    assert u == m * q + r && q * m == m * q;
    if q >= 100 { TimesMonotone(m, 100, q); }
  }

  /** The pairs from case n on, when the text in front ends with the digits above. */
  ghost predicate Going(buf: array<char>, p: nat, u: nat, k: nat, goal: string)
    reads buf
  {
    p + k < buf.Length && (k == 0 || u < Pow(k)) && buf[..p] + Fixed(u, k) == goal
  }

  /** d = u / unit; p = out2(d, p); u -= d * unit. */
  method Pair(u: nat, unit: nat, ghost k: nat, ghost goal: string, buf: array<char>, p: nat) returns (u': nat, p': nat)
    requires unit == Pow(k) && Going(buf, p, u, k + 2, goal)
    modifies buf
    ensures Going(buf, p', u', k, goal) && p' == p + 2
  {
    hide Top, Low, Pow, Fixed;
    PairOff(u, k);
    var d := u / unit;
    p' := Out2(d, buf, p);
    u' := u - d * unit;
  }

  /** itoa: the switch falls through from case n. */
  method Itoa(u0: nat, buf: array<char>, p0: nat, d: nat, n: nat) returns (p: nat)
    requires 1 <= n <= 10 && p0 + n / 2 * 2 < buf.Length
    requires if n % 2 == 0 then u0 < Pow(n) else d == Top(u0, n - 1)
    modifies buf
    ensures p < buf.Length && buf[..p] == old(buf[..p0]) + Rest(u0, n) && buf[p] == '\0'
  {
    hide Fixed, Pow, Going, Rest;
    Powers();
    var u := u0;
    p := p0;
    ghost var k := n / 2 * 2;
    ghost var goal := buf[..p] + Rest(u0, n);
    if n % 2 == 1 {
      // cases 9, 7, 5 and 3: the first digit goes
      FirstOff(u0, n - 1);
      if n == 9 {
        u := u - d * 100000000;
      } else if n == 7 {
        u := u - d * 1000000;
      } else if n == 5 {
        u := u - d * 10000;
      } else if n == 3 {
        u := u - d * 100;
      }
    }
    Entered(buf, p, u0, u, n, goal);
    if n >= 10 { u, p := Pair(u, 100000000, 8, goal, buf, p); k := 8; }
    if n >= 8 { u, p := Pair(u, 1000000, 6, goal, buf, p); k := 6; }
    if n >= 6 { u, p := Pair(u, 10000, 4, goal, buf, p); k := 4; }
    if n >= 4 { u, p := Pair(u, 100, 2, goal, buf, p); k := 2; }
    if n >= 2 { u, p := Pair(u, 1, 0, goal, buf, p); k := 0; }
    Arrived(buf, p, u, goal);
    buf[p] := '\0';
  }

  lemma Entered(buf: array<char>, p: nat, u0: nat, u: nat, n: nat, goal: string)
    requires 1 <= n && p + n / 2 * 2 < buf.Length && goal == buf[..p] + Rest(u0, n)
    requires if n % 2 == 0 then u == u0 < Pow(n) else n == 1 || u == Low(u0, n - 1)
    ensures Going(buf, p, u, n / 2 * 2, goal)
  {
    hide Fixed, Pow, Low;
    if n % 2 == 1 {
      assert n / 2 * 2 == n - 1;
      EnteredOdd(u0, u, n);
    } else {
      assert n / 2 * 2 == n;
    }
  }

  lemma EnteredOdd(u0: nat, u: nat, n: nat)
    requires n % 2 == 1 && (n == 1 || u == Low(u0, n - 1))
    ensures Rest(u0, n) == Fixed(u, n - 1) && (n == 1 || u < Pow(n - 1))
  {}

  lemma Arrived(buf: array<char>, p: nat, u: nat, goal: string)
    requires Going(buf, p, u, 0, goal)
    ensures p < buf.Length && buf[..p] == goal
  {
    assert buf[..p] + "" == buf[..p];
  }

  lemma FirstOff(u: nat, k: nat)
    ensures u - Top(u, k) * Pow(k) == Low(u, k) < Pow(k)
  {}

  /** digits: one digit first if there is an odd number of them. */
  method Digits(u: nat, k: nat, buf: array<char>, p0: nat, n0: nat) returns (d: nat, p: nat, n: nat)
    requires 0 < k <= u < 100 * k || (u < 100 && k == 1)
    requires n0 > 0 && p0 < buf.Length
    modifies buf
    ensures if u < k * 10 then d == u / k < 10 && n == n0 - 1 && p == p0 + 1 && buf[..p] == old(buf[..p0]) + [Digit(d)]
            else d == 0 && n == n0 && p == p0 && buf[..p] == old(buf[..p0])
  {
    d, p, n := 0, p0, n0;
    if u < k * 10 {
      BelowTen(u, k);
      d := u / k;
      p := Out1(Digit(d), buf, p);
      n := n - 1;
    }
  }

  lemma BelowTen(u: nat, k: nat)
    requires k > 0 && u < k * 10
    ensures u / k < 10
  {
    var q := u / k;
    assert u == k * q + u % k;
    if q >= 10 { TimesMonotone(k, 10, q); }
  }

  /** What itoa_u32 prints, one digit and pairs or pairs alone, is the numeral. */
  lemma OddOrEven(u: nat, m: nat)
    requires m >= 2 && u < Pow(m) && (m > 2 ==> Pow(m - 2) <= u)
    ensures u >= Pow(m - 1) ==> Numeral(u) == Fixed(u, m)
    ensures u < Pow(m - 1) ==>
      Top(u, m - 2) < 10 && Numeral(u) == [Digit(Top(u, m - 2))] + Fixed(Low(u, m - 2), m - 2)
  {
    assert Pow(m) == 10 * Pow(m - 1) && Pow(m - 1) == 10 * Pow(m - 2);
    if u >= Pow(m - 1) {
      NumeralIsFixed(u, m);
    } else {
      BelowTen(u, Pow(m - 2));
      if m == 2 {
        assert u % 1 == 0 && u / 1 == u;
        assert Fixed(0, 0) == "";
      } else {
        NumeralSplit(u, m - 2);
      }
    }
  }

  const U32: nat := 0x1_0000_0000
  const U64: nat := 0x1_0000_0000_0000_0000

  /** The number is one digit and m - 2 more, printed up to there, or m digits. */
  ghost predicate Started(u: nat, m: nat, d: nat, n: nat, first: string) {
    && 2 <= m <= 10 && m % 2 == 0
    && if n == m then u < Pow(m) && first == "" && Numeral(u) == Fixed(u, m)
       else n == m - 1 && d == Top(u, m - 2) && Numeral(u) == first + Fixed(Low(u, m - 2), m - 2)
  }

  /** The choice of itoa_u32. */
  method Start(u: nat, k: nat, ghost m: nat, buf: array<char>, p0: nat, n0: nat) returns (d: nat, p: nat, n: nat)
    requires 2 <= m == n0 <= 10 && m % 2 == 0 && k == Pow(m - 2) && u < Pow(m) && (m > 2 ==> k <= u)
    requires p0 + m < buf.Length
    modifies buf
    ensures p <= buf.Length && p + n / 2 * 2 < buf.Length && 1 <= n
    ensures exists first :: Started(u, m, d, n, first) && buf[..p] == old(buf[..p0]) + first
  {
    OddOrEven(u, m);
    assert Pow(m) == 10 * Pow(m - 1) && Pow(m - 1) == 10 * Pow(m - 2);
    if m == 2 { assert k == 1; }
    assert Top(u, m - 2) == u / k;
    hide Numeral, Fixed, Pow, Top, Low;
    d, p, n := Digits(u, k, buf, p0, n0);
    if n == m {
      assert Started(u, m, d, n, "");
      assert old(buf[..p0]) + "" == old(buf[..p0]);
    } else {
      assert Started(u, m, d, n, [Digit(d)]);
    }
  }

  /** itoa_u32. */
  method ItoaU32(u: nat, buf: array<char>, p0: nat) returns (p: nat)
    requires u < U32 && p0 + 10 < buf.Length
    modifies buf
    ensures p < buf.Length && buf[..p] == old(buf[..p0]) + Numeral(u) && buf[p] == '\0'
  {
    hide Pow, Fixed, Numeral, Started, Rest;
    Powers();
    var d, n;
    ghost var m;
    if u >= 100000000 {
      m := 10;
      d, p, n := Start(u, 100000000, m, buf, p0, 10);
    } else if u < 100 {
      m := 2;
      d, p, n := Start(u, 1, m, buf, p0, 2);
    } else if u < 10000 {
      m := 4;
      d, p, n := Start(u, 100, m, buf, p0, 4);
    } else if u < 1000000 {
      m := 6;
      d, p, n := Start(u, 10000, m, buf, p0, 6);
    } else {
      m := 8;
      d, p, n := Start(u, 1000000, m, buf, p0, 8);
    }
    ghost var first :| Started(u, m, d, n, first) && buf[..p] == old(buf[..p0]) + first;
    StartedRest(u, m, d, n, first);
    p := Itoa(u, buf, p, d, n);
    assert (old(buf[..p0]) + first) + Rest(u, n) == old(buf[..p0]) + (first + Rest(u, n));
  }

  lemma StartedRest(u: nat, m: nat, d: nat, n: nat, first: string)
    requires Started(u, m, d, n, first)
    ensures 1 <= n <= 10 && first + Rest(u, n) == Numeral(u)
    ensures if n % 2 == 0 then u < Pow(n) else d == Top(u, n - 1)
  {
    assert "" + Rest(u, n) == Rest(u, n);
  }

  /** The end of itoa_u64: the last nine digits. */
  method LastNine(lower: nat, buf: array<char>, p0: nat) returns (p: nat)
    requires lower < 1000000000 && p0 + 9 < buf.Length
    modifies buf
    ensures p < buf.Length && buf[..p] == old(buf[..p0]) + Fixed(lower, 9) && buf[p] == '\0'
  {
    hide Pow, Fixed, Top, Low, Rest;
    OneApart(lower);
    FixedSplit(lower, 1, 8);
    var d := lower / 100000000;
    OneDigit(d);
    p := Out1(Digit(d), buf, p0);
    NineDigits(lower);
    p := Itoa(lower, buf, p, d, 9);
  }

  /** itoa_u64: the upper digits first. */
  method ItoaU64(u: nat, buf: array<char>, p0: nat) returns (p: nat)
    requires u < U64 && p0 + 20 < buf.Length
    modifies buf
    ensures p < buf.Length && buf[..p] == old(buf[..p0]) + Numeral(u) && buf[p] == '\0'
  {
    hide Pow, Fixed, Numeral, Top, Low;
    var lower := u % U32;
    if lower == u {
      SmallWord(u);
      p := ItoaU32(lower, buf, p0);
      return;
    }
    LargeWord(u);
    NineApart(u);
    NumeralSplit(u, 9);
    var upper := u / 1000000000;
    NumeralBound(upper, 11);
    p := ItoaU64(upper, buf, p0);
    lower := u - upper * 1000000000;
    p := LastNine(lower, buf, p);
  }

  lemma SmallWord(u: nat)
    requires u % U32 == u
    ensures u < U32
  {}

  lemma LargeWord(u: nat)
    requires u % U32 != u
    ensures u >= U32
  {}

  lemma NineApart(u: nat)
    requires U32 <= u < U64
    ensures Top(u, 9) == u / 1000000000 && Low(u, 9) == u - u / 1000000000 * 1000000000
    ensures Pow(9) <= u && u / 1000000000 < 100000000000 && u / 1000000000 < u && Low(u, 9) < 1000000000
  {
    Powers();
  }

  lemma OneApart(u: nat)
    requires u < 1000000000
    ensures Top(u, 8) == u / 100000000 < 10
  {
    Powers();
  }

  lemma NineDigits(u: nat)
    ensures Rest(u, 9) == Fixed(Low(u, 8), 8)
  {}

  lemma OneDigit(d: nat)
    requires d < 10
    ensures Fixed(d, 1) == [Digit(d)]
  {
    assert Fixed(d / 10, 0) == "";
  }

  lemma {:induction false} NumeralBound(u: nat, k: nat)
    requires k >= 1 && (u < Pow(k) || (k == 11 && u < 100000000000))
    ensures |Numeral(u)| <= k
  {
    if k == 1 { assert Pow(1) == 10 * Pow(0); }
    if k == 11 { Powers(); }
    if u >= 10 {
      NumeralBound(u / 10, k - 1);
    }
  }

  /** The numeral of a signed number. */
  function Signed(i: int): string {
    if i < 0 then "-" + Numeral(-i) else Numeral(i)
  }

  /** A signed number as an unsigned word, and the negation of such a word. */
  function Unsigned(i: int, size: nat): (u: nat)
    requires size > 0
    ensures u < size
  {
    i % size
  }

  function Negate(u: nat, size: nat): (v: nat)
    requires u < size
    ensures v < size
  {
    (size - u) % size
  }

  /** The negation is the absolute value, the minimum's too. */
  lemma Negated(i: int, size: nat)
    requires size > 0 && 2 * i < size && size + 2 * i >= 0
    ensures i >= 0 ==> Unsigned(i, size) == i
    ensures i < 0 ==> Negate(Unsigned(i, size), size) == -i
  {
    if i < 0 {
      Reduced(i, size);
      Reduced(-i, size);
    } else {
      Reduced(i, size);
    }
  }

  lemma Reduced(i: int, size: nat)
    requires size > 0 && i < size && i + size > 0
    ensures i % size == if i < 0 then i + size else i
  {}

  /** itoa_64: the minimum value included. */
  method Itoa64(i: int, buf: array<char>, p0: nat) returns (p: nat)
    requires -0x8000_0000_0000_0000 <= i < 0x8000_0000_0000_0000 && p0 + 21 < buf.Length
    modifies buf
    ensures p < buf.Length && buf[..p] == old(buf[..p0]) + Signed(i) && buf[p] == '\0'
  {
    Negated(i, U64);
    hide Numeral, Unsigned, Negate;
    var u := Unsigned(i, U64);
    p := p0;
    if i < 0 {
      p := Out1('-', buf, p);
      u := Negate(u, U64);
    }
    p := ItoaU64(u, buf, p);
  }

  /** itoa_32. */
  method Itoa32(i: int, buf: array<char>, p0: nat) returns (p: nat)
    requires -0x8000_0000 <= i < 0x8000_0000 && p0 + 11 < buf.Length
    modifies buf
    ensures p < buf.Length && buf[..p] == old(buf[..p0]) + Signed(i) && buf[p] == '\0'
  {
    Negated(i, U32);
    hide Numeral, Unsigned, Negate;
    var u := Unsigned(i, U32);
    p := p0;
    if i < 0 {
      p := Out1('-', buf, p);
      u := Negate(u, U32);
    }
    p := ItoaU32(u, buf, p);
  }

  /** No number needs more than 20 characters. */
  lemma TwentyAreEnough(u: nat, i: int)
    requires u < U64 && -0x8000_0000_0000_0000 <= i < 0x8000_0000_0000_0000
    ensures |Numeral(u)| <= 20 && |Signed(i)| <= 20
  {
    Powers();
    assert Pow(11) == 10 * Pow(10) && Pow(12) == 10 * Pow(11) && Pow(13) == 10 * Pow(12) && Pow(14) == 10 * Pow(13);
    assert Pow(15) == 10 * Pow(14) && Pow(16) == 10 * Pow(15) && Pow(17) == 10 * Pow(16) && Pow(18) == 10 * Pow(17);
    assert Pow(19) == 10 * Pow(18) && Pow(20) == 10 * Pow(19);
    NumeralBound(u, 20);
    NumeralBound(if i < 0 then -i else i, 19);
  }
}

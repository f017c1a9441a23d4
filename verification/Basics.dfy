/** What several components share: bytes, optional values, addresses, sequences
without repetition, and division. */
module Basics {
  type Byte = x: int | 0 <= x < 256

  datatype Option<T> = None | Some(value: T)

  /** The address of an item, bundle or other record; 0 is the null pointer. */
  type Addr = nat

  const NULL: Addr := 0

  function Zeros(n: nat): (z: seq<Byte>)
    ensures |z| == n
  {
    seq(n, i => 0)
  }

  ghost predicate Distinct(s: seq<Addr>) {
    forall i, j :: 0 <= i < j < |s| ==> s[i] != s[j]
  }

  function IndexOf(s: seq<Addr>, a: Addr): (i: nat)
    ensures i <= |s| && (i < |s| <==> a in s) && (i < |s| ==> s[i] == a)
  {
    if s == [] then 0 else if s[0] == a then 0 else 1 + IndexOf(s[1..], a)
  }

  lemma IndexUnique(s: seq<Addr>, i: nat)
    requires Distinct(s) && i < |s|
    ensures IndexOf(s, s[i]) == i
  {}

  /** How often an address, or a number, occurs. */
  function Times(s: seq<nat>, a: nat): nat { multiset(s)[a] }

  lemma TimesIn(s: seq<nat>, a: nat)
    ensures Times(s, a) > 0 <==> a in s
  {}

  lemma TimesCons(s: seq<nat>, b: nat, a: nat)
    ensures Times([b] + s, a) == Times(s, a) + (if a == b then 1 else 0)
  {}

  lemma TimesSnoc(s: seq<nat>, b: nat, a: nat)
    ensures Times(s + [b], a) == Times(s, a) + (if a == b then 1 else 0)
  {}

  lemma TimesTail(s: seq<nat>, a: nat)
    requires s != []
    ensures Times(s, a) == Times(s[1..], a) + (if a == s[0] then 1 else 0)
  {
    assert s == [s[0]] + s[1..];
  }

  function Without(s: seq<Addr>, i: nat): (r: seq<Addr>)
    requires i < |s|
    ensures |r| == |s| - 1
    ensures forall j :: 0 <= j < |r| ==> r[j] == if j < i then s[j] else s[j + 1]
  {
    s[..i] + s[i + 1..]
  }

  lemma WithoutMembers(list: seq<Addr>, i: nat)
    requires Distinct(list) && i < |list|
    ensures Distinct(Without(list, i)) && list[i] !in Without(list, i)
    ensures forall b :: b != list[i] ==> (b in Without(list, i) <==> b in list)
  {
    var r := Without(list, i);
    forall b | b != list[i] && b in list ensures b in r {
      var k := IndexOf(list, b);
      assert r[if k < i then k else k - 1] == b;
    }
  }

  /** The sequence without the members of a set. */
  function Keep(s: seq<Addr>, out: set<Addr>): (k: seq<Addr>)
    ensures forall a :: a in k <==> a in s && a !in out
  {
    if s == [] then [] else (if s[0] in out then [] else [s[0]]) + Keep(s[1..], out)
  }

  lemma {:induction false} KeepConcat(s: seq<Addr>, t: seq<Addr>, out: set<Addr>)
    ensures Keep(s + t, out) == Keep(s, out) + Keep(t, out)
  {
    if s == [] {
      assert s + t == t;
    } else {
      assert (s + t)[1..] == s[1..] + t;
      KeepConcat(s[1..], t, out);
    }
  }

  lemma {:induction false} KeepTwice(s: seq<Addr>, out: set<Addr>, more: set<Addr>)
    ensures Keep(Keep(s, out), more) == Keep(s, out + more)
  {
    if s != [] {
      KeepTwice(s[1..], out, more);
      KeepConcat(if s[0] in out then [] else [s[0]], Keep(s[1..], out), more);
      assert [s[0]][1..] == [];
    }
  }

  lemma {:induction false} KeepSame(s: seq<Addr>, out: set<Addr>, out': set<Addr>)
    requires forall a :: a in s ==> (a in out <==> a in out')
    ensures Keep(s, out) == Keep(s, out')
  {
    if s != [] { KeepSame(s[1..], out, out'); }
  }

  lemma {:induction false} KeepAll(s: seq<Addr>, out: set<Addr>)
    requires forall a :: a in s ==> a !in out
    ensures Keep(s, out) == s
  {
    if s != [] { KeepAll(s[1..], out); }
  }

  lemma WithoutLater(s: seq<Addr>, i: nat)
    requires i + 1 < |s|
    ensures Without(s, i + 1) == [s[0]] + Without(s[1..], i)
  {}

  /** Taking out one member. */
  lemma {:induction false} KeepWithout(s: seq<Addr>, a: Addr)
    requires Distinct(s) && a in s
    ensures Without(s, IndexOf(s, a)) == Keep(s, {a})
  {
    if s[0] == a {
      KeepAll(s[1..], {a});
      assert Without(s, 0) == s[1..];
    } else {
      KeepWithout(s[1..], a);
      WithoutLater(s, IndexOf(s[1..], a));
    }
  }

  function Pow2(n: nat): (p: nat)
    ensures p > 0
  {
    if n == 0 then 1 else 2 * Pow2(n - 1)
  }

  lemma TimesMonotone(m: nat, a: int, b: int)
    requires a <= b
    ensures m * a <= m * b
  {}

  /** Quotient and remainder are unique. */
  lemma DivUnique(n: nat, m: nat, q: nat, r: nat)
    requires n == m * q + r && r < m
    ensures n / m == q && n % m == r
  {
    var q', r' := n / m, n % m;
    assert m * (q' - q) == r - r' && m * (q - q') == r' - r;
    if q' > q { TimesMonotone(m, 1, q' - q); }
    if q' < q { TimesMonotone(m, 1, q - q'); }
  }
}

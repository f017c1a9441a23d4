/** do_item_unlinktail_q without the list lock: lru_crawler_class_done is called so
when the client of a crawl is gone. Its four statements, and one link or unlink of
another thread, which does hold the lock, between two of them. */
module LruRace {
  import opened Basics
  import opened LruList

  /** The statements in their order: the head, the tail, the prev field of the item
  after the crawler, the next field of the item before it. */
  function Statement(l: List, c: Addr, n: nat): List
    requires c in l.next && c in l.prev
  {
    match n
    case 0 => l.(head := if l.head == c then l.next[c] else l.head)
    case 1 => l.(tail := if l.tail == c then l.prev[c] else l.tail)
    case 2 => if l.next[c] != NULL then l.(prev := l.prev[l.next[c] := l.prev[c]]) else l
    case _ => if l.prev[c] != NULL then l.(next := l.next[l.prev[c] := l.next[c]]) else l
  }

  /** The statements from number `first` on that are before number `end`. */
  function Statements(l: List, c: Addr, first: nat, end: nat): (r: List)
    requires c in l.next && c in l.prev
    ensures l.next.Keys <= r.next.Keys && l.prev.Keys <= r.prev.Keys
    decreases end
  {
    if end <= first then l else Statement(Statements(l, c, first, end - 1), c, end - 1)
  }

  /** What the other thread does to the list: it takes off the item at a place, or
  puts an item at the head. */
  datatype Op = Off(j: nat) | On(a: Addr)

  predicate Possible(s: seq<Addr>, i: nat, op: Op) {
    match op
    case Off(j) => j < |s| && j != i
    case On(a) => a != NULL && a !in s
  }

  function Do(l: List, s: seq<Addr>, op: Op): List
    requires op.Off? ==> op.j < |s| && s[op.j] in l.next && s[op.j] in l.prev
  {
    match op
    case Off(j) => Unlink(l, s[j])
    case On(a) => LinkHead(l, a)
  }

  /** The list that the two operations together should give. */
  function Meant(s: seq<Addr>, i: nat, op: Op): seq<Addr>
    requires i < |s| && Possible(s, i, op)
  {
    match op
    case Off(j) => Without(Without(s, i), if j < i then j else j - 1)
    case On(a) => [a] + Without(s, i)
  }

  /** The first k statements, the other thread, and the rest of the statements. */
  ghost function Raced(l: List, s: seq<Addr>, i: nat, k: nat, op: Op): (r: List)
    requires Dll(l, s) && i < |s| && k <= 4 && Possible(s, i, op)
  {
    KeysKept(l, s, i, k, op);
    Statements(Do(Statements(l, s[i], 0, k), s, op), s[i], k, 4)
  }

  lemma KeysKept(l: List, s: seq<Addr>, i: nat, k: nat, op: Op)
    requires Dll(l, s) && i < |s| && k <= 4 && Possible(s, i, op)
    ensures s[i] in l.next && s[i] in l.prev
    ensures var l1 := Statements(l, s[i], 0, k);
      && (op.Off? ==> s[op.j] in l1.next && s[op.j] in l1.prev)
      && s[i] in Do(l1, s, op).next && s[i] in Do(l1, s, op).prev
  {
    assert Node(l, s, i);
    if op.Off? { assert Node(l, s, op.j); }
  }

  /** Where the two get in each other's way. */
  predicate Clash(n: nat, i: nat, k: nat, op: Op) {
    match op
    case Off(j) =>
      (1 <= k <= 2 && i == 1 && j == 0) ||
      (k == 2 && j == i + 1 && j == n - 1) ||
      (k == 3 && j + 1 == i && !(i == n - 1 && j > 0)) ||
      (k == 3 && j == i + 1 && i > 0)
    case On(_) => i == 0 && (k == 1 || (k == 2 && n > 1))
  }

  /** The first k statements, and those from k to 3, one after the other. */
  lemma Unrolled(l: List, c: Addr, k: nat)
    requires c in l.next && c in l.prev && 1 <= k <= 3
    ensures Statements(l, c, 0, k) ==
      var a := Statement(l, c, 0);
      if k == 1 then a else if k == 2 then Statement(a, c, 1) else Statement(Statement(a, c, 1), c, 2)
    ensures Statements(l, c, k, 4) ==
      var a := if k == 1 then Statement(l, c, 1) else l;
      var b := if k <= 2 then Statement(a, c, 2) else a;
      Statement(b, c, 3)
  {
    assert Statements(l, c, 0, 1) == Statement(l, c, 0);
    assert Statements(l, c, 0, 2) == Statement(Statements(l, c, 0, 1), c, 1);
    assert Statements(l, c, 0, 3) == Statement(Statements(l, c, 0, 2), c, 2);
    var a := Statements(l, c, k, 2);
    var b := Statements(l, c, k, 3);
    assert a == if k == 1 then Statement(l, c, 1) else l;
    assert b == if k <= 2 then Statement(a, c, 2) else a;
    assert Statements(l, c, k, 4) == Statement(b, c, 3);
  }

  lemma FirstTwo(l: List, c: Addr)
    requires c in l.next && c in l.prev
    ensures Statement(Statement(l, c, 0), c, 1) ==
      l.(head := if l.head == c then l.next[c] else l.head, tail := if l.tail == c then l.prev[c] else l.tail)
  {}

  lemma LastTwo(l: List, c: Addr)
    requires c in l.next && c in l.prev && l.next[c] != c && l.prev[c] != c
    ensures Statement(Statement(l, c, 2), c, 3) ==
      l.(prev := if l.next[c] != NULL then l.prev[l.next[c] := l.prev[c]] else l.prev,
         next := if l.prev[c] != NULL then l.next[l.prev[c] := l.next[c]] else l.next)
  {}

  lemma UnlinkIs(l: List, c: Addr)
    requires c in l.next && c in l.prev
    ensures Unlink(l, c) ==
      List(if l.prev[c] != NULL then l.next[l.prev[c] := l.next[c]] else l.next,
           if l.next[c] != NULL then l.prev[l.next[c] := l.prev[c]] else l.prev,
           if l.head == c then l.next[c] else l.head, if l.tail == c then l.prev[c] else l.tail)
  {}

  /** Without another thread it is the unlink of do_item_unlinktail_q. */
  lemma AloneIsUnlink(l: List, c: Addr)
    requires c in l.next && c in l.prev && l.next[c] != c && l.prev[c] != c
    ensures Statements(l, c, 0, 4) == Unlink(l, c)
  {
    Unrolled(l, c, 3);
    assert Statements(l, c, 0, 4) == Statement(Statements(l, c, 0, 3), c, 3);
    hide Statements, Unlink, Statement;
    FirstTwo(l, c);
    LastTwo(Statement(Statement(l, c, 0), c, 1), c);
    UnlinkIs(l, c);
  }

  lemma {:induction false} StatementsJoin(l: List, c: Addr, k: nat, end: nat)
    requires c in l.next && c in l.prev && k <= end
    ensures Statements(Statements(l, c, 0, k), c, k, end) == Statements(l, c, 0, end)
  {
    hide Statement;
    if k < end { StatementsJoin(l, c, k, end - 1); }
  }

  /** The crawler and the other item are not neighbours. */
  predicate Far(l: List, c: Addr, x: Addr) {
    && c in l.next && c in l.prev && x in l.next && x in l.prev && c != x
    && l.next[c] != x && l.prev[c] != x && l.next[x] != c && l.prev[x] != c
    && (l.next[c] == l.next[x] ==> l.next[c] == NULL) && (l.prev[c] == l.prev[x] ==> l.prev[c] == NULL)
  }

  lemma FarEnds(l: List, c: Addr, x: Addr, n: nat)
    requires Far(l, c, x) && n <= 1
    ensures Far(Statement(l, c, n), c, x) && Unlink(Statement(l, c, n), x) == Statement(Unlink(l, x), c, n)
  {}

  lemma FarPrev(l: List, c: Addr, x: Addr, n: nat)
    requires Far(l, c, x) && n == 2
    ensures Far(Statement(l, c, n), c, x) && Unlink(Statement(l, c, n), x) == Statement(Unlink(l, x), c, n)
  {}

  lemma FarNext(l: List, c: Addr, x: Addr, n: nat)
    requires Far(l, c, x) && n >= 3
    ensures Far(Statement(l, c, n), c, x) && Unlink(Statement(l, c, n), x) == Statement(Unlink(l, x), c, n)
  {}

  lemma FarStep(l: List, c: Addr, x: Addr, n: nat)
    requires Far(l, c, x)
    ensures Far(Statement(l, c, n), c, x) && c in Unlink(l, x).next && c in Unlink(l, x).prev
    ensures Unlink(Statement(l, c, n), x) == Statement(Unlink(l, x), c, n)
  {
    FarKeys(l, c, x);
    hide Far, Statement, Unlink;
    if n <= 1 {
      FarEnds(l, c, x, n);
    } else if n == 2 {
      FarPrev(l, c, x, n);
    } else {
      FarNext(l, c, x, n);
    }
  }

  /** Then each statement may as well come after the unlink. */
  lemma {:induction false} FarCommutes(l: List, c: Addr, x: Addr, k: nat)
    requires Far(l, c, x)
    ensures Far(Statements(l, c, 0, k), c, x) && c in Unlink(l, x).next && c in Unlink(l, x).prev
    ensures Unlink(Statements(l, c, 0, k), x) == Statements(Unlink(l, x), c, 0, k)
  {
    hide Statement, Unlink, Far;
    FarKeys(l, c, x);
    if k > 0 {
      FarCommutes(l, c, x, k - 1);
      FarStep(Statements(l, c, 0, k - 1), c, x, k - 1);
    }
  }

  lemma FarKeys(l: List, c: Addr, x: Addr)
    requires Far(l, c, x)
    ensures c in l.next && c in l.prev && x in l.next && x in l.prev
    ensures c in Unlink(l, x).next && c in Unlink(l, x).prev
  {}

  lemma FarInList(l: List, s: seq<Addr>, i: nat, j: nat)
    requires Dll(l, s) && i < |s| && j < |s| && i != j && j != i + 1 && i != j + 1
    ensures Far(l, s[i], s[j])
  {
    assert Node(l, s, i) && Node(l, s, j);
  }

  lemma WithoutTwice(s: seq<Addr>, i: nat, j: nat)
    requires i < |s| && j < |s| && i != j
    ensures Without(Without(s, i), if j < i then j else j - 1) == Without(Without(s, j), if i < j then i else i - 1)
  {}

  lemma FarRaced(l: List, c: Addr, x: Addr, k: nat)
    requires Far(l, c, x) && k <= 4 && UnlinkAsserts(Unlink(l, x), c)
    ensures x in Statements(l, c, 0, k).next && x in Statements(l, c, 0, k).prev
    ensures Statements(Unlink(Statements(l, c, 0, k), x), c, k, 4) == Unlink(Unlink(l, x), c)
  {
    hide Statement, Unlink;
    FarCommutes(l, c, x, k);
    StatementsJoin(Unlink(l, x), c, k, 4);
    AloneIsUnlink(Unlink(l, x), c);
    FarKeys(Statements(l, c, 0, k), c, x);
  }

  /** An item that is not next to the crawler does not get in its way. */
  lemma FarIsSafe(l: List, s: seq<Addr>, i: nat, k: nat, j: nat)
    requires Dll(l, s) && i < |s| && j < |s| && i != j && j != i + 1 && i != j + 1 && k <= 4
    ensures Dll(Raced(l, s, i, k, Off(j)), Meant(s, i, Off(j)))
  {
    hide Far, Statement, Statements, Dll, Unlink, UnlinkAsserts, Distinct, Node;
    FarInList(l, s, i, j);
    var i' := if i < j then i else i - 1;
    DllUnlink(l, s, j);
    UnlinkAssertsHold(Unlink(l, s[j]), Without(s, j), i');
    FarRaced(l, s[i], s[j], k);
    DllUnlink(Unlink(l, s[j]), Without(s, j), i');
    WithoutTwice(s, i, j);
    KeysKept(l, s, i, k, Off(j));
  }

  /** Away from two items c and x and their neighbours p and y nothing changes. */
  ghost predicate Framed(l: List, f: List, c: Addr, x: Addr, p: Addr, y: Addr) {
    && (forall a :: a in l.next && a != c && a != x && a != p ==> a in f.next && f.next[a] == l.next[a])
    && (forall a :: a in l.prev && a != c && a != x && a != y ==> a in f.prev && f.prev[a] == l.prev[a])
    && (p != NULL ==> p in f.next) && (y != NULL ==> y in f.prev)
  }

  /** The neighbours point past c and x. */
  predicate Closed(l: List, f: List, p: Addr, y: Addr)
    requires (p != NULL ==> p in f.next) && (y != NULL ==> y in f.prev)
  {
    && f.head == (if p == NULL then y else l.head) && f.tail == (if y == NULL then p else l.tail)
    && (p != NULL ==> f.next[p] == y) && (y != NULL ==> f.prev[y] == p)
  }

  function Neighbour(s: seq<Addr>, i: int): Addr { if 0 <= i < |s| then s[i] else NULL }

  function WithoutPair(s: seq<Addr>, lo: nat): (r: seq<Addr>)
    requires lo + 1 < |s|
    ensures |r| == |s| - 2 && forall m :: 0 <= m < |r| ==> r[m] == s[if m < lo then m else m + 2]
  {
    s[..lo] + s[lo + 2..]
  }

  lemma PairEnds(l: List, s: seq<Addr>, lo: nat)
    requires Dll(l, s) && lo + 1 < |s|
    ensures Distinct(WithoutPair(s, lo))
    ensures var r := WithoutPair(s, lo);
      && (r == [] <==> Neighbour(s, lo - 1) == NULL && Neighbour(s, lo + 2) == NULL)
      && (r != [] ==> r[0] == if lo == 0 then Neighbour(s, lo + 2) else l.head)
      && (r != [] ==> r[|r| - 1] == if lo + 2 == |s| then Neighbour(s, lo - 1) else l.tail)
      && (lo == 0 <==> Neighbour(s, lo - 1) == NULL) && (lo + 2 == |s| <==> Neighbour(s, lo + 2) == NULL)
  {
    if lo > 0 { assert Node(l, s, lo - 1); }
    if lo + 2 < |s| { assert Node(l, s, lo + 2); }
  }

  lemma PairNode(l: List, f: List, s: seq<Addr>, lo: nat, m: nat)
    requires Dll(l, s) && lo + 1 < |s| && Framed(l, f, s[lo], s[lo + 1], Neighbour(s, lo - 1), Neighbour(s, lo + 2))
    requires m < |s| - 2
    requires Closed(l, f, Neighbour(s, lo - 1), Neighbour(s, lo + 2))
    ensures Node(f, WithoutPair(s, lo), m)
  {
    assert Node(l, s, if m < lo then m else m + 2);
  }

  /** Two neighbours are out of a list exactly when those around them say so. */
  lemma PairIff(l: List, f: List, s: seq<Addr>, lo: nat)
    requires Dll(l, s) && lo + 1 < |s| && Framed(l, f, s[lo], s[lo + 1], Neighbour(s, lo - 1), Neighbour(s, lo + 2))
    ensures Dll(f, WithoutPair(s, lo)) <==> Closed(l, f, Neighbour(s, lo - 1), Neighbour(s, lo + 2))
  {
    var r := WithoutPair(s, lo);
    PairEnds(l, s, lo);
    if Closed(l, f, Neighbour(s, lo - 1), Neighbour(s, lo + 2)) {
      hide Framed, Distinct, Node;
      forall m | 0 <= m < |r| ensures Node(f, r, m) { PairNode(l, f, s, lo, m); }
    }
    if Dll(f, r) {
      hide Framed, Distinct;
      assert lo > 0 ==> Node(f, r, lo - 1);
      assert lo < |r| ==> Node(f, r, lo);
    }
  }

  /** c and x are next to each other, x behind c or before it. */
  predicate Pair(l: List, a: Addr, b: Addr, p: Addr, y: Addr) {
    && a in l.next && a in l.prev && b in l.next && b in l.prev && a != b && a != NULL && b != NULL
    && l.next[a] == b && l.prev[b] == a && l.prev[a] == p && l.next[b] == y
    && p != a && p != b && y != a && y != b && (p == y ==> p == NULL)
    && (l.head == a <==> p == NULL) && (l.tail == b <==> y == NULL) && l.head != b && l.tail != a
    && (p != NULL ==> p in l.next) && (y != NULL ==> y in l.prev)
  }

  /** Statements `k` to 3 after the unlink of x, which came after the first k. */
  function Passed(l: List, c: Addr, x: Addr, k: nat): List
    requires c in l.next && c in l.prev && x in l.next && x in l.prev
  {
    Statements(Unlink(Statements(l, c, 0, k), x), c, k, 4)
  }

  lemma PairInList(l: List, s: seq<Addr>, lo: nat)
    requires Dll(l, s) && lo + 1 < |s|
    ensures Pair(l, s[lo], s[lo + 1], Neighbour(s, lo - 1), Neighbour(s, lo + 2))
  {
    assert Node(l, s, lo) && Node(l, s, lo + 1) && Node(l, s, 0) && Node(l, s, |s| - 1);
    if lo > 0 { assert Node(l, s, lo - 1); }
    if lo + 2 < |s| { assert Node(l, s, lo + 2); }
  }

  /** The other item behind the crawler, after one, two and three statements. */
  lemma BehindOnce(l: List, c: Addr, x: Addr, p: Addr, y: Addr)
    requires Pair(l, c, x, p, y)
    ensures Framed(l, Passed(l, c, x, 1), c, x, p, y) && Closed(l, Passed(l, c, x, 1), p, y)
  {
    Unrolled(l, c, 1);
    var l1 := Statement(l, c, 0);
    var l2 := Unlink(l1, x);
    Unrolled(l2, c, 1);
    hide Statements;
    var l3 := Statement(l2, c, 1);
    var l4 := Statement(l3, c, 2);
    assert l2.next[c] == y && l2.prev[c] == p;
  }

  lemma BehindTwice(l: List, c: Addr, x: Addr, p: Addr, y: Addr)
    requires Pair(l, c, x, p, y)
    ensures Framed(l, Passed(l, c, x, 2), c, x, p, y) && (Closed(l, Passed(l, c, x, 2), p, y) <==> y != NULL)
  {
    Unrolled(l, c, 2);
    var l1 := Statement(l, c, 0);
    var l2 := Statement(l1, c, 1);
    var l3 := Unlink(l2, x);
    Unrolled(l3, c, 2);
    hide Statements;
    var l4 := Statement(l3, c, 2);
    assert l3.next[c] == y && l3.prev[c] == p;
  }

  lemma BehindThrice(l: List, c: Addr, x: Addr, p: Addr, y: Addr)
    requires Pair(l, c, x, p, y)
    ensures Framed(l, Passed(l, c, x, 3), c, x, p, y) && (Closed(l, Passed(l, c, x, 3), p, y) <==> p == NULL)
  {
    Unrolled(l, c, 3);
    var l1 := Statement(l, c, 0);
    var l2 := Statement(l1, c, 1);
    var l3 := Statement(l2, c, 2);
    var l4 := Unlink(l3, x);
    Unrolled(l4, c, 3);
    hide Statements;
    assert l4.next[c] == x && l4.prev[c] == p;
  }

  /** And before it. */
  lemma BeforeOnceFramed(l: List, c: Addr, x: Addr, p: Addr, y: Addr)
    requires Pair(l, x, c, p, y)
    ensures Framed(l, Passed(l, c, x, 1), c, x, p, y)
  {
    Unrolled(l, c, 1);
    var l1 := Statement(l, c, 0);
    var l2 := Unlink(l1, x);
    Unrolled(l2, c, 1);
    hide Statements;
    var l3 := Statement(l2, c, 1);
    var l4 := Statement(l3, c, 2);
    assert l2.next[c] == y && l2.prev[c] == p;
  }

  lemma BeforeOnce(l: List, c: Addr, x: Addr, p: Addr, y: Addr)
    requires Pair(l, x, c, p, y)
    ensures Framed(l, Passed(l, c, x, 1), c, x, p, y) && (Closed(l, Passed(l, c, x, 1), p, y) <==> p != NULL)
  {
    BeforeOnceFramed(l, c, x, p, y);
    hide Framed;
    Unrolled(l, c, 1);
    var l1 := Statement(l, c, 0);
    var l2 := Unlink(l1, x);
    Unrolled(l2, c, 1);
    hide Statements;
    var l3 := Statement(l2, c, 1);
    var l4 := Statement(l3, c, 2);
    assert l2.next[c] == y && l2.prev[c] == p;
  }

  lemma BeforeTwice(l: List, c: Addr, x: Addr, p: Addr, y: Addr)
    requires Pair(l, x, c, p, y)
    ensures Framed(l, Passed(l, c, x, 2), c, x, p, y) && (Closed(l, Passed(l, c, x, 2), p, y) <==> p != NULL)
  {
    Unrolled(l, c, 2);
    var l1 := Statement(l, c, 0);
    var l2 := Statement(l1, c, 1);
    var l3 := Unlink(l2, x);
    Unrolled(l3, c, 2);
    hide Statements;
    var l4 := Statement(l3, c, 2);
    assert l3.next[c] == y && l3.prev[c] == p;
  }

  lemma BeforeThrice(l: List, c: Addr, x: Addr, p: Addr, y: Addr)
    requires Pair(l, x, c, p, y)
    ensures Framed(l, Passed(l, c, x, 3), c, x, p, y)
    ensures (Closed(l, Passed(l, c, x, 3), p, y) <==> p != NULL && y == NULL)
  {
    Unrolled(l, c, 3);
    var l1 := Statement(l, c, 0);
    var l2 := Statement(l1, c, 1);
    var l3 := Statement(l2, c, 2);
    var l4 := Unlink(l3, x);
    Unrolled(l4, c, 3);
    hide Statements;
    assert l4.next[c] == y && l4.prev[c] == p;
  }

  lemma MeantPair(s: seq<Addr>, i: nat, j: nat)
    requires i < |s| && j < |s| && (j == i + 1 || i == j + 1)
    ensures Meant(s, i, Off(j)) == WithoutPair(s, if i < j then i else j)
  {
    var a, b := Meant(s, i, Off(j)), WithoutPair(s, if i < j then i else j);
    hide WithoutPair;
    assert |a| == |b|;
    forall m | 0 <= m < |a| ensures a[m] == b[m] {}
  }

  /** When a neighbour that goes in between is in the crawler's way. */
  predicate Collides(behind: bool, k: nat, p: Addr, y: Addr) {
    if behind then (k == 2 && y == NULL) || (k == 3 && p != NULL) else p == NULL || (k == 3 && y != NULL)
  }

  lemma PassedIff(l: List, c: Addr, x: Addr, p: Addr, y: Addr, k: nat, behind: bool)
    requires Pair(l, if behind then c else x, if behind then x else c, p, y) && 1 <= k <= 3
    ensures Framed(l, Passed(l, c, x, k), c, x, p, y)
    ensures Closed(l, Passed(l, c, x, k), p, y) <==> !Collides(behind, k, p, y)
  {
    hide Pair, Framed, Closed, Passed;
    if behind {
      match k
      case 1 => BehindOnce(l, c, x, p, y);
      case 2 => BehindTwice(l, c, x, p, y);
      case _ => BehindThrice(l, c, x, p, y);
    } else {
      match k
      case 1 => BeforeOnce(l, c, x, p, y);
      case 2 => BeforeTwice(l, c, x, p, y);
      case _ => BeforeThrice(l, c, x, p, y);
    }
  }

  lemma RacedPassed(l: List, s: seq<Addr>, i: nat, k: nat, j: nat)
    requires Dll(l, s) && i < |s| && k <= 4 && j < |s| && i != j
    ensures s[i] in l.next && s[i] in l.prev && s[j] in l.next && s[j] in l.prev
    ensures Raced(l, s, i, k, Off(j)) == Passed(l, s[i], s[j], k)
  {
    hide Statement, Unlink;
    KeysKept(l, s, i, k, Off(j));
    assert Node(l, s, j);
  }

  lemma NeighbourIff(l: List, s: seq<Addr>, i: nat, k: nat, j: nat)
    requires Dll(l, s) && i < |s| && j < |s| && (j == i + 1 || i == j + 1) && 1 <= k <= 3
    ensures Dll(Raced(l, s, i, k, Off(j)), Meant(s, i, Off(j))) <==> !Clash(|s|, i, k, Off(j))
  {
    var lo := if i < j then i else j;
    hide Dll, Pair, Framed, Closed, Passed, Raced, WithoutPair, Meant, Distinct;
    PairInList(l, s, lo);
    MeantPair(s, i, j);
    PairEnds(l, s, lo);
    PassedIff(l, s[i], s[j], Neighbour(s, lo - 1), Neighbour(s, lo + 2), k, i < j);
    RacedPassed(l, s, i, k, j);
    FramedSame(l, Passed(l, s[i], s[j], k), s[lo], s[lo + 1], Neighbour(s, lo - 1), Neighbour(s, lo + 2));
    PairIff(l, Passed(l, s[i], s[j], k), s, lo);
  }

  lemma FramedSame(l: List, f: List, a: Addr, b: Addr, p: Addr, y: Addr)
    ensures Framed(l, f, a, b, p, y) <==> Framed(l, f, b, a, p, y)
  {}

  /** The other thread puts an item at the head, and the crawler is not there. */
  predicate Clear(l: List, c: Addr, a: Addr) {
    && c in l.next && c in l.prev && l.head != c && l.head != NULL && l.tail != NULL && l.prev[c] != NULL
    && a != c && a != NULL && l.next[c] != a && l.prev[c] != a && l.next[c] != l.head
  }

  lemma ClearEnds(l: List, c: Addr, a: Addr, n: nat)
    requires Clear(l, c, a) && n <= 1
    ensures Clear(Statement(l, c, n), c, a) && LinkHead(Statement(l, c, n), a) == Statement(LinkHead(l, a), c, n)
  {}

  lemma ClearPrev(l: List, c: Addr, a: Addr, n: nat)
    requires Clear(l, c, a) && n == 2
    ensures Clear(Statement(l, c, n), c, a) && LinkHead(Statement(l, c, n), a) == Statement(LinkHead(l, a), c, n)
  {}

  lemma ClearNext(l: List, c: Addr, a: Addr, n: nat)
    requires Clear(l, c, a) && n >= 3
    ensures Clear(Statement(l, c, n), c, a) && LinkHead(Statement(l, c, n), a) == Statement(LinkHead(l, a), c, n)
  {}

  lemma ClearStep(l: List, c: Addr, a: Addr, n: nat)
    requires Clear(l, c, a)
    ensures Clear(Statement(l, c, n), c, a) && c in LinkHead(l, a).next && c in LinkHead(l, a).prev
    ensures LinkHead(Statement(l, c, n), a) == Statement(LinkHead(l, a), c, n)
  {
    ClearKeys(l, c, a);
    hide Clear, Statement, LinkHead;
    if n <= 1 {
      ClearEnds(l, c, a, n);
    } else if n == 2 {
      ClearPrev(l, c, a, n);
    } else {
      ClearNext(l, c, a, n);
    }
  }

  lemma ClearKeys(l: List, c: Addr, a: Addr)
    requires Clear(l, c, a)
    ensures c in l.next && c in l.prev && c in LinkHead(l, a).next && c in LinkHead(l, a).prev
  {}

  lemma {:induction false} ClearCommutes(l: List, c: Addr, a: Addr, k: nat)
    requires Clear(l, c, a)
    ensures c in l.next && c in l.prev && Clear(Statements(l, c, 0, k), c, a)
    ensures c in LinkHead(l, a).next && c in LinkHead(l, a).prev
    ensures LinkHead(Statements(l, c, 0, k), a) == Statements(LinkHead(l, a), c, 0, k)
  {
    ClearStep(l, c, a, 0);
    hide Statement, LinkHead;
    if k > 0 {
      ClearCommutes(l, c, a, k - 1);
      ClearStep(Statements(l, c, 0, k - 1), c, a, k - 1);
    }
  }

  lemma ClearInList(l: List, s: seq<Addr>, i: nat, a: Addr)
    requires Dll(l, s) && 0 < i < |s| && a != NULL && a !in s
    ensures Clear(l, s[i], a)
  {
    assert Node(l, s, i) && Node(l, s, i - 1) && Node(l, s, 0) && Node(l, s, |s| - 1) && s[i] in s && s[i - 1] in s;
    if i + 1 < |s| { assert s[i + 1] in s; }
  }

  lemma ClearRaced(l: List, c: Addr, a: Addr, k: nat)
    requires Clear(l, c, a) && k <= 4 && UnlinkAsserts(LinkHead(l, a), c)
    ensures c in l.next && c in l.prev
    ensures c in LinkHead(Statements(l, c, 0, k), a).next && c in LinkHead(Statements(l, c, 0, k), a).prev
    ensures Statements(LinkHead(Statements(l, c, 0, k), a), c, k, 4) == Unlink(LinkHead(l, a), c)
  {
    hide Statement, Unlink, LinkHead;
    ClearCommutes(l, c, a, k);
    StatementsJoin(LinkHead(l, a), c, k, 4);
    AloneIsUnlink(LinkHead(l, a), c);
  }

  lemma HeadIsClear(l: List, s: seq<Addr>, i: nat, k: nat, a: Addr)
    requires Dll(l, s) && 0 < i < |s| && a != NULL && a !in s && k <= 4
    ensures Dll(Raced(l, s, i, k, On(a)), Meant(s, i, On(a)))
  {
    hide Statement, Statements, Dll, LinkHead, Unlink, Clear;
    ClearInList(l, s, i, a);
    DllLinkHead(l, a, s);
    var s' := [a] + s;
    assert s'[i + 1] == s[i];
    UnlinkAssertsHold(LinkHead(l, a), s', i + 1);
    ClearRaced(l, s[i], a, k);
    DllUnlink(LinkHead(l, a), s', i + 1);
    assert Without(s', i + 1) == [a] + Without(s, i);
    KeysKept(l, s, i, k, On(a));
  }

  lemma HeadClashes(l: List, s: seq<Addr>, k: nat, a: Addr)
    requires Dll(l, s) && s != [] && a != NULL && a !in s && 1 <= k <= 3 && Clash(|s|, 0, k, On(a))
    ensures !Dll(Raced(l, s, 0, k, On(a)), Meant(s, 0, On(a)))
  {
    var c := s[0];
    assert Node(l, s, 0);
    if |s| > 1 { assert Node(l, s, 1) && s[1] in s; }
    KeysKept(l, s, 0, k, On(a));
    Unrolled(l, c, k);
    Unrolled(LinkHead(Statements(l, c, 0, k), a), c, k);
    var r := Meant(s, 0, On(a));
    var f := Raced(l, s, 0, k, On(a));
    hide Statements, Dll;
    if |s| > 1 {
      assert r[1] == s[1];
      assert !Node(f, r, 1);
      NotDll(f, r, 1);
    } else {
      assert f.tail == NULL;
      hide Raced;
      NoTail(f, r);
    }
  }

  lemma NotDll(f: List, r: seq<Addr>, m: nat)
    requires m < |r| && !Node(f, r, m)
    ensures !Dll(f, r)
  {}

  lemma NoTail(f: List, r: seq<Addr>)
    ensures Dll(f, r) && r != [] ==> f.tail != NULL
  {
    if Dll(f, r) && r != [] { assert Node(f, r, |r| - 1); }
  }

  /** The statements that are left have nothing to do. */
  lemma HeadMetEarly(l: List, c: Addr, k: nat, a: Addr)
    requires c in l.next && c in l.prev && l.prev[c] == NULL && a != c && l.next[c] != c
    requires k == 3 || (k == 2 && l.next[c] == NULL && l.head == c)
    ensures Statements(l, c, 0, k) == Unlink(l, c) && c in LinkHead(Unlink(l, c), a).next
    ensures c in LinkHead(Unlink(l, c), a).prev
    ensures l.head == c && l.head != NULL ==>
      Statements(LinkHead(Unlink(l, c), a), c, k, 4) == LinkHead(Unlink(l, c), a)
  {
    Unrolled(l, c, k);
    Unrolled(LinkHead(Unlink(l, c), a), c, k);
    hide Statements;
  }

  lemma HeadIsMet(l: List, s: seq<Addr>, k: nat, a: Addr)
    requires Dll(l, s) && s != [] && a != NULL && a !in s && 1 <= k <= 3 && !Clash(|s|, 0, k, On(a))
    ensures Dll(Raced(l, s, 0, k, On(a)), Meant(s, 0, On(a)))
  {
    assert Node(l, s, 0) && s[0] in s;
    KeysKept(l, s, 0, k, On(a));
    DllUnlink(l, s, 0);
    WithoutMembers(s, 0);
    hide Dll, Statements, Statement, LinkHead, Unlink;
    DllHead(l, s);
    HeadMetEarly(l, s[0], k, a);
    DllLinkHead(Unlink(l, s[0]), a, Without(s, 0));
  }

  lemma DllHead(l: List, s: seq<Addr>)
    requires Dll(l, s) && s != []
    ensures l.head == s[0] && (|s| > 1 ==> s[1] != s[0])
  {}

  /** The exact condition, for every list, place of the crawler, operation of the
  other thread and moment between two statements: the list is what the two
  operations together should give, unless they clash. */
  lemma RaceIff(l: List, s: seq<Addr>, i: nat, k: nat, op: Op)
    requires Dll(l, s) && i < |s| && 1 <= k <= 3 && Possible(s, i, op)
    ensures Dll(Raced(l, s, i, k, op), Meant(s, i, op)) <==> !Clash(|s|, i, k, op)
  {
    hide Dll, Raced, Meant;
    match op
    case Off(j) =>
      if j == i + 1 || i == j + 1 { NeighbourIff(l, s, i, k, j); } else { FarIsSafe(l, s, i, k, j); }
    case On(a) =>
      if i > 0 {
        HeadIsClear(l, s, i, k, a);
      } else if Clash(|s|, i, k, op) {
        HeadClashes(l, s, k, a);
      } else {
        HeadIsMet(l, s, k, a);
      }
  }
}

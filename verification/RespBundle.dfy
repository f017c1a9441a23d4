/** The response objects of a thread: slots in bundles, and the list of bundles
that still have a free slot, pointer by pointer. */
module RespBundle {
  import opened Basics

  /** mc_resp_bundle; used[x] is the negation of r[x].free. */
  datatype Bundle = Bundle(refcount: nat, nextCheck: nat, next: Addr, prev: Addr, used: seq<bool>)

  type Memory = map<Addr, Bundle>

  /** The bundles of a thread's cache, and th->open_bundle. */
  datatype State = State(max: nat, m: Memory, open: Addr)

  function Used(slots: seq<bool>): nat {
    if slots == [] then 0 else (if slots[0] then 1 else 0) + Used(slots[1..])
  }

  lemma {:induction false} UsedUpdate(slots: seq<bool>, x: nat, b: bool)
    requires x < |slots|
    ensures Used(slots[x := b]) == Used(slots) + (if b then 1 else 0) - (if slots[x] then 1 else 0)
    ensures slots[x] ==> Used(slots) > 0
    ensures !slots[x] ==> Used(slots) < |slots|
    ensures Used(slots) <= |slots|
  {
    if x == 0 {
      assert slots[0 := b][1..] == slots[1..];
      UsedBound(slots[1..]);
    } else {
      assert slots[x := b][1..] == slots[1..][x - 1 := b];
      UsedUpdate(slots[1..], x - 1, b);
    }
  }

  lemma {:induction false} UsedBound(slots: seq<bool>)
    ensures Used(slots) <= |slots|
  {
    if slots != [] { UsedBound(slots[1..]); }
  }

  lemma {:induction false} SomeFree(slots: seq<bool>) returns (x: nat)
    requires Used(slots) < |slots|
    ensures x < |slots| && !slots[x]
  {
    if !slots[0] {
      x := 0;
    } else {
      var y := SomeFree(slots[1..]);
      x := y + 1;
    }
  }

  lemma {:induction false} NoneUsed(n: nat)
    ensures Used(seq(n, i => false)) == 0
  {
    if n > 0 {
      NoneUsed(n - 1);
      assert seq(n, i => false)[1..] == seq(n - 1, i => false);
    }
  }

  /** The slot that is checked i-th, starting from `start`. */
  function Slot(start: nat, i: nat, max: nat): (x: nat)
    requires max > 0
    ensures x < max
  {
    (i + start) % max
  }

  /** Every slot is checked. */
  lemma SlotChecked(start: nat, max: nat, x: nat) returns (i: nat)
    requires start <= max && x < max
    ensures i < max && Slot(start, i, max) == x
  {
    var s := if start == max then 0 else start;
    i := if x >= s then x - s else x + max - s;
    Around(i + start, max);
  }

  lemma Around(n: nat, max: nat)
    requires n < 2 * max
    ensures n % max == if n >= max then n - max else n
  {
    if n >= max { assert n == max * 1 + (n - max); }
  }

  ghost predicate Node(m: Memory, list: seq<Addr>, i: nat)
    requires i < |list|
  {
    && list[i] in m && list[i] != NULL
    && m[list[i]].prev == (if i == 0 then NULL else list[i - 1])
    && m[list[i]].next == (if i + 1 == |list| then NULL else list[i + 1])
  }

  ghost predicate IsList(m: Memory, head: Addr, list: seq<Addr>) {
    && head == (if list == [] then NULL else list[0]) && Distinct(list)
    && forall i :: 0 <= i < |list| ==> Node(m, list, i)
  }

  /** A bundle is in the open list exactly while it has a free slot, its count is
  the number of slots in use, and if it is empty it is the last of the list. */
  ghost predicate BundleOk(s: State, list: seq<Addr>, a: Addr)
    requires a in s.m
  {
    var b := s.m[a];
    && a != NULL && |b.used| == s.max && b.refcount == Used(b.used) && b.nextCheck <= s.max
    && (a in list <==> b.refcount < s.max)
    && (a !in list ==> b.next == NULL && b.prev == NULL)
    && (b.refcount == 0 ==> list != [] && list[|list| - 1] == a)
  }

  ghost predicate Ok(s: State, list: seq<Addr>) {
    s.max >= 2 && IsList(s.m, s.open, list) && forall a :: a in s.m ==> BundleOk(s, list, a)
  }

  /** The slots that are handed out. */
  predicate InUse(s: State, a: Addr, x: nat) {
    a in s.m && x < |s.m[a].used| && s.m[a].used[x]
  }

  /** A bundle none of whose slots is in use. */
  predicate Empty(s: State, a: Addr) { a in s.m && s.m[a].refcount == 0 }

  /** At most one bundle is wholly empty. */
  lemma OneEmpty(s: State, list: seq<Addr>)
    requires Ok(s, list)
    ensures forall a, b :: Empty(s, a) && Empty(s, b) ==> a == b
  {
    forall a, b | Empty(s, a) && Empty(s, b) ensures a == b {
      assert BundleOk(s, list, a) && BundleOk(s, list, b);
    }
  }

  /** Taking slot x of the head of the list; a bundle that is full leaves it. */
  function TakeSlot(s: State, x: nat): State
    requires s.open in s.m && x < |s.m[s.open].used|
  {
    var b := s.m[s.open];
    var b1 := b.(nextCheck := x + 1, refcount := b.refcount + 1, used := b.used[x := true]);
    if b1.refcount != s.max then s.(m := s.m[s.open := b1])
    else
      var m1 := s.m[s.open := b1.(next := NULL)];
      s.(open := b.next, m := if b.next != NULL && b.next in m1 then m1[b.next := m1[b.next].(prev := NULL)] else m1)
  }

  lemma TakeSlotOk(s: State, list: seq<Addr>, x: nat)
    requires Ok(s, list) && s.open != NULL && s.open in s.m && x < |s.m[s.open].used| && !s.m[s.open].used[x]
    ensures Ok(TakeSlot(s, x), if s.m[s.open].refcount + 1 == s.max then list[1..] else list)
  {
    hide Node, BundleOk, TakeSlot, Distinct;
    var head := s.open;
    assert BundleOk(s, list, head);
    HeadOpen(s, list);
    if s.m[head].refcount + 1 == s.max { TakeLast(s, list, x); } else { TakeMore(s, list, x); }
  }

  lemma HeadOpen(s: State, list: seq<Addr>)
    requires IsList(s.m, s.open, list) && s.open != NULL
    ensures list != [] && list[0] == s.open
  {}

  /** With slots left the bundle stays where it is. */
  lemma TakeMore(s: State, list: seq<Addr>, x: nat)
    requires Ok(s, list) && list != [] && list[0] == s.open && s.open in s.m && x < |s.m[s.open].used|
    requires !s.m[s.open].used[x]
    requires s.m[s.open].refcount + 1 != s.max
    ensures Ok(TakeSlot(s, x), list)
  {
    var s', head := TakeSlot(s, x), s.open;
    UsedUpdate(s.m[head].used, x, true);
    hide Distinct;
    forall i | 0 <= i < |list| ensures Node(s'.m, list, i) { assert Node(s.m, list, i); }
    assert BundleOk(s, list, head);
    forall a | a in s'.m ensures BundleOk(s', list, a) { assert BundleOk(s, list, a); }
  }

  /** The last slot taken, the bundle leaves the list. */
  lemma TakeLast(s: State, list: seq<Addr>, x: nat)
    requires Ok(s, list) && list != [] && list[0] == s.open && s.open in s.m && x < |s.m[s.open].used|
    requires !s.m[s.open].used[x]
    requires s.m[s.open].refcount + 1 == s.max
    ensures Ok(TakeSlot(s, x), list[1..])
  {
    var s', list' := TakeSlot(s, x), list[1..];
    TakeLastList(s, list, x);
    forall a | a in s'.m ensures BundleOk(s', list', a) {
      assert BundleOk(s, list, a) && BundleOk(s, list, s.open);
      TakeLastBundle(s, list, x, a);
    }
    hide BundleOk, Node, TakeSlot;
  }

  lemma TakeLastList(s: State, list: seq<Addr>, x: nat)
    requires IsList(s.m, s.open, list) && list != [] && s.open in s.m && x < |s.m[s.open].used|
    requires s.m[s.open].refcount + 1 == s.max
    ensures IsList(TakeSlot(s, x).m, TakeSlot(s, x).open, list[1..])
  {
    var s' := TakeSlot(s, x);
    assert Node(s.m, list, 0);
    if |list| > 1 { assert Node(s.m, list, 1); }
    forall i | 0 <= i < |list| - 1 ensures Node(s'.m, list[1..], i) { assert Node(s.m, list, i + 1); }
  }

  lemma TakeLastBundle(s: State, list: seq<Addr>, x: nat, a: Addr)
    requires IsList(s.m, s.open, list) && list != [] && s.open in s.m && x < |s.m[s.open].used| && !s.m[s.open].used[x]
    requires s.m[s.open].refcount + 1 == s.max && s.max >= 2 && a in TakeSlot(s, x).m
    requires a in s.m && BundleOk(s, list, a) && BundleOk(s, list, s.open)
    ensures BundleOk(TakeSlot(s, x), list[1..], a)
  {
    UsedUpdate(s.m[s.open].used, x, true);
    assert Node(s.m, list, 0);
    if |list| > 1 { assert Node(s.m, list, 1); }
    assert list == [list[0]] + list[1..];
  }

  /** A new bundle from the cache, with its first slot taken. */
  function NewBundle(s: State, a: Addr): State
    requires s.max > 0
  {
    s.(m := s.m[a := Bundle(1, 1, NULL, NULL, seq(s.max, i => false)[0 := true])], open := a)
  }

  lemma NewBundleOk(s: State, a: Addr)
    requires Ok(s, []) && a != NULL && a !in s.m
    ensures Ok(NewBundle(s, a), [a])
  {
    NoneUsed(s.max);
    UsedUpdate(seq(s.max, i => false), 0, true);
    var s' := NewBundle(s, a);
    assert Node(s'.m, [a], 0);
    forall b | b in s'.m ensures BundleOk(s', [a], b) {
      if b != a { assert BundleOk(s, [], b); }
    }
  }

  /** Taking bundle a out of the list and giving it back to the cache. */
  function Release(s: State, a: Addr): State
    requires a in s.m
  {
    var n, p := s.m[a].next, s.m[a].prev;
    var m1 := if n != NULL && n in s.m then s.m[n := s.m[n].(prev := p)] else s.m;
    var m2 := if p != NULL && p in m1 then m1[p := m1[p].(next := n)] else m1;
    s.(open := if s.open == a then n else s.open, m := m2 - {a})
  }

  /** Putting bundle a at the head of the list. */
  function LinkHead(s: State, a: Addr): State
    requires a in s.m
  {
    var m1 := s.m[a := s.m[a].(prev := NULL, next := s.open)];
    s.(m := if s.open != NULL && s.open in m1 then m1[s.open := m1[s.open].(prev := a)] else m1, open := a)
  }

  function GiveBack(s: State, a: Addr, x: nat): State
    requires a in s.m && x < |s.m[a].used| && s.m[a].refcount > 0
  {
    s.(m := s.m[a := s.m[a].(refcount := s.m[a].refcount - 1, used := s.m[a].used[x := false])])
  }

  /** resp_free. */
  function FreeSlot(s: State, a: Addr, x: nat): State
    requires a in s.m && x < |s.m[a].used| && s.m[a].refcount > 0
  {
    var s1 := GiveBack(s, a, x);
    var b := s1.m[a];
    if b.refcount == 0 then
      if a == s1.open && b.next == NULL then s1.(m := s1.m[a := b.(nextCheck := 0)])
      else Release(s1, a)
    else if a == s1.open || b.prev != NULL || b.next != NULL then s1
    else LinkHead(s1, a)
  }

  /** The list after resp_free. */
  function FreedList(s: State, list: seq<Addr>, a: Addr): seq<Addr>
    requires a in s.m
  {
    if s.m[a].refcount == 1 then
      if list == [a] || a !in list then list else Without(list, IndexOf(list, a))
    else if a in list then list else [a] + list
  }

  /** A used slot is in a bundle with a positive count. */
  lemma UsedCounts(s: State, list: seq<Addr>, a: Addr, x: nat)
    requires Ok(s, list) && InUse(s, a, x)
    ensures s.m[a].refcount > 0 && Used(s.m[a].used[x := false]) == s.m[a].refcount - 1
    ensures a in list <==> s.m[a].refcount < s.max
    ensures s.m[a].refcount <= s.max && s.max >= 2
  {
    assert BundleOk(s, list, a);
    UsedUpdate(s.m[a].used, x, false);
  }

  /** Where a bundle is in the list shows in its pointers. */
  lemma PointersShow(s: State, list: seq<Addr>, a: Addr)
    requires Ok(s, list) && a in s.m
    ensures a in list <==> (a == s.open || s.m[a].prev != NULL || s.m[a].next != NULL)
    ensures list == [a] <==> (a == s.open && s.m[a].next == NULL)
    ensures a == s.open ==> s.m[a].prev == NULL
    ensures a in list ==> s.m[a].next != a && s.m[a].prev != a
  {
    assert BundleOk(s, list, a);
    if a in list {
      var i := IndexOf(list, a);
      assert Node(s.m, list, i);
      if i > 0 { assert Node(s.m, list, i - 1); }
      if i + 1 < |list| { assert Node(s.m, list, i + 1); }
    }
    if list != [] { assert Node(s.m, list, 0) && list[0] in list; }
  }

  /** Freeing a slot of a bundle that stays in the list. */
  lemma StayOk(s: State, list: seq<Addr>, a: Addr, x: nat)
    requires Ok(s, list) && InUse(s, a, x) && a in list && (s.m[a].refcount > 1 || list == [a])
    ensures s.m[a].refcount > 0 && Ok(FreeSlot(s, a, x), list)
  {
    UsedCounts(s, list, a, x);
    PointersShow(s, list, a);
    var s' := FreeSlot(s, a, x);
    forall i | 0 <= i < |list| ensures Node(s'.m, list, i) {
      assert Node(s.m, list, i);
    }
    forall b | b in s'.m ensures BundleOk(s', list, b) {
      assert BundleOk(s, list, b);
    }
  }

  /** A full bundle that gets a free slot joins the list at the head. */
  lemma JoinOk(s: State, list: seq<Addr>, a: Addr, x: nat)
    requires Ok(s, list) && InUse(s, a, x) && a !in list
    ensures s.m[a].refcount > 0 && Ok(FreeSlot(s, a, x), [a] + list)
  {
    UsedCounts(s, list, a, x);
    PointersShow(s, list, a);
    var s', list' := FreeSlot(s, a, x), [a] + list;
    JoinList(s, list, a, x);
    hide Node;
    forall b | b in s'.m ensures BundleOk(s', list', b) {
      assert BundleOk(s, list, b);
      JoinBundle(s, list, a, x, b);
    }
    hide BundleOk, FreeSlot;
  }

  lemma JoinList(s: State, list: seq<Addr>, a: Addr, x: nat)
    requires Ok(s, list) && InUse(s, a, x) && a !in list && s.m[a].refcount > 0 && s.m[a].refcount == s.max >= 2
    requires a != s.open && s.m[a].prev == NULL && s.m[a].next == NULL && a != NULL
    ensures IsList(FreeSlot(s, a, x).m, FreeSlot(s, a, x).open, [a] + list)
  {
    hide BundleOk;
    var s', list' := FreeSlot(s, a, x), [a] + list;
    if list != [] { assert Node(s.m, list, 0); }
    forall i | 0 <= i < |list'| ensures Node(s'.m, list', i) {
      if i > 0 { assert Node(s.m, list, i - 1); }
    }
  }

  lemma JoinBundle(s: State, list: seq<Addr>, a: Addr, x: nat, b: Addr)
    requires Ok(s, list) && InUse(s, a, x) && a !in list && s.m[a].refcount > 0 && s.m[a].refcount == s.max >= 2
    requires a != s.open && s.m[a].prev == NULL && s.m[a].next == NULL
    requires Used(s.m[a].used[x := false]) == s.m[a].refcount - 1
    requires b in FreeSlot(s, a, x).m && b in s.m && BundleOk(s, list, b)
    ensures BundleOk(FreeSlot(s, a, x), [a] + list, b)
  {
    if list != [] { assert Node(s.m, list, 0); }
    assert BundleOk(s, list, a);
    hide Distinct, Used;
  }

  lemma ReleaseNodes(s: State, list: seq<Addr>, i: nat)
    requires IsList(s.m, s.open, list) && i < |list|
    ensures list[i] in s.m && IsList(Release(s, list[i]).m, Release(s, list[i]).open, Without(list, i))
    ensures forall b :: b in s.m && b !in list ==> b in Release(s, list[i]).m && Release(s, list[i]).m[b] == s.m[b]
  {
    assert Node(s.m, list, i);
    var s', list' := Release(s, list[i]), Without(list, i);
    WithoutMembers(list, i);
    if i > 0 { assert Node(s.m, list, i - 1) && list[i - 1] in list; }
    if i + 1 < |list| { assert Node(s.m, list, i + 1) && list[i + 1] in list; }
    hide Without, Distinct;
    forall j | 0 <= j < |list'| ensures Node(s'.m, list', j) { ReleaseNode(s, list, i, j); }
  }

  lemma ReleaseNode(s: State, list: seq<Addr>, i: nat, j: nat)
    requires IsList(s.m, s.open, list) && i < |list| && list[i] in s.m && j < |list| - 1
    ensures Node(Release(s, list[i]).m, Without(list, i), j)
  {
    assert Node(s.m, list, i) && Node(s.m, list, if j < i then j else j + 1);
    if i > 0 { assert Node(s.m, list, i - 1); }
    if i + 1 < |list| { assert Node(s.m, list, i + 1); }
  }

  /** Releasing keeps the fields of other bundles, but for their pointers. */
  lemma ReleaseFields(s: State, a: Addr)
    requires a in s.m
    ensures Release(s, a).m.Keys == s.m.Keys - {a}
    ensures forall b :: b in Release(s, a).m ==>
      Release(s, a).m[b] == s.m[b].(next := Release(s, a).m[b].next, prev := Release(s, a).m[b].prev)
  {}

  /** A bundle that becomes empty while others are open goes back to the cache. */
  lemma LeaveOk(s: State, list: seq<Addr>, a: Addr, x: nat)
    requires Ok(s, list) && InUse(s, a, x) && a in list && s.m[a].refcount == 1 && list != [a]
    ensures Ok(FreeSlot(s, a, x), Without(list, IndexOf(list, a)))
  {
    UsedCounts(s, list, a, x);
    PointersShow(s, list, a);
    var i := IndexOf(list, a);
    var s1 := GiveBack(s, a, x);
    forall j | 0 <= j < |list| ensures Node(s1.m, list, j) {
      assert Node(s.m, list, j);
    }
    ReleaseNodes(s1, list, i);
    ReleaseFields(s1, a);
    WithoutMembers(list, i);
    var s', list' := FreeSlot(s, a, x), Without(list, i);
    hide Release, Without, GiveBack, IsList;
    forall b | b in s'.m ensures BundleOk(s', list', b) {
      assert BundleOk(s, list, b);
      OtherStays(s, s', list, i, b);
    }
  }

  lemma OtherStays(s: State, s': State, list: seq<Addr>, i: nat, b: Addr)
    requires i < |list| && b in s.m && b in s'.m && b != list[i] && BundleOk(s, list, b) && s'.max == s.max
    requires s'.m[b] == s.m[b].(next := s'.m[b].next, prev := s'.m[b].prev)
    requires b in Without(list, i) <==> b in list
    requires b !in list ==> s'.m[b] == s.m[b]
    ensures BundleOk(s', Without(list, i), b)
  {
    var r := Without(list, i);
    if s.m[b].refcount == 0 { assert r[|list| - 2] == b; }
  }

  /** resp_free keeps everything. */
  lemma FreeSlotOk(s: State, list: seq<Addr>, a: Addr, x: nat)
    requires Ok(s, list) && InUse(s, a, x)
    ensures s.m[a].refcount > 0 && Ok(FreeSlot(s, a, x), FreedList(s, list, a))
  {
    UsedCounts(s, list, a, x);
    if a !in list {
      JoinOk(s, list, a, x);
    } else if s.m[a].refcount > 1 || list == [a] {
      StayOk(s, list, a, x);
    } else {
      LeaveOk(s, list, a, x);
    }
  }

  /** Exactly one slot changes hands. */
  ghost predicate OnlySlot(s: State, s': State, a: Addr, x: nat) {
    forall b: Addr, y: nat :: (b, y) != (a, x) ==> (InUse(s', b, y) <==> InUse(s, b, y))
  }

  lemma TakeSlotUse(s: State, list: seq<Addr>, x: nat)
    requires Ok(s, list) && s.open in s.m && x < |s.m[s.open].used| && !s.m[s.open].used[x]
    ensures !InUse(s, s.open, x) && InUse(TakeSlot(s, x), s.open, x) && OnlySlot(s, TakeSlot(s, x), s.open, x)
  {
    hide IsList, Node, Distinct;
    HeadSlots(s, list);
  }

  /** The head is linked to another bundle, or to none. */
  lemma HeadSlots(s: State, list: seq<Addr>)
    requires Ok(s, list) && s.open in s.m
    ensures |s.m[s.open].used| == s.max && s.m[s.open].next != s.open
    ensures s.m[s.open].next in s.m ==> |s.m[s.m[s.open].next].used| == s.max
  {
    assert BundleOk(s, list, s.open);
    PointersShow(s, list, s.open);
    if s.m[s.open].next in s.m { assert BundleOk(s, list, s.m[s.open].next); }
  }

  lemma NewBundleUse(s: State, a: Addr)
    requires s.max > 0 && a !in s.m
    ensures !InUse(s, a, 0) && InUse(NewBundle(s, a), a, 0) && OnlySlot(s, NewBundle(s, a), a, 0)
  {}

  lemma FreeSlotUse(s: State, list: seq<Addr>, a: Addr, x: nat)
    requires Ok(s, list) && InUse(s, a, x) && s.m[a].refcount > 0
    ensures !InUse(FreeSlot(s, a, x), a, x) && OnlySlot(s, FreeSlot(s, a, x), a, x)
  {
    var s1 := GiveBack(s, a, x);
    UsedCounts(s, list, a, x);
    assert OnlySlot(s, s1, a, x);
    hide Ok;
    if s1.m[a].refcount == 0 {
      forall y: nat ensures !InUse(s1, a, y) {
        if y < |s1.m[a].used| { UsedUpdate(s1.m[a].used, y, false); }
      }
      ReleaseFields(s1, a);
      hide Release;
    }
  }

  /** The search of resp_allocate, from the slot most likely to be free. */
  method FindFree(b: Bundle, max: nat) returns (x: nat)
    requires |b.used| == max && Used(b.used) < max && b.nextCheck <= max
    ensures x < max && !b.used[x]
  {
    ghost var f := SomeFree(b.used);
    ghost var last := SlotChecked(b.nextCheck, max, f);
    var i := 0;
    while i < max
      invariant 0 <= i <= max
      invariant forall j: nat :: j < i ==> b.used[Slot(b.nextCheck, j, max)]
    {
      x := Slot(b.nextCheck, i, max);
      if !b.used[x] {
        return;
      }
      i := i + 1;
    }
  }

  class Thread {
    var s: State
    ghost var list: seq<Addr>

    ghost predicate Valid()
      reads this
    {
      Ok(s, list)
    }

    constructor (max: nat)
      requires max >= 2
      ensures Valid() && s == State(max, map[], NULL)
    {
      s := State(max, map[], NULL);
      list := [];
    }

    /** resp_allocate: `spare` is what do_cache_alloc would return. The slot that
    is handed out was free, and no other slot changes; without memory there is no
    slot only if none was free. */
    method Allocate(spare: Addr) returns (a: Addr, x: nat)
      requires Valid() && spare !in s.m
      modifies this
      ensures Valid()
      ensures a != NULL ==> !InUse(old(s), a, x) && InUse(s, a, x) && OnlySlot(old(s), s, a, x)
      ensures a == NULL ==> s == old(s) && spare == NULL && forall b :: b in s.m ==> s.m[b].refcount == s.max
      ensures a != NULL && a !in old(s).m ==> forall b :: b in old(s).m ==> old(s).m[b].refcount == old(s).max
    {
      hide Ok, TakeSlot, NewBundle, InUse;
      a, x := NULL, 0;
      HeadKnown(s, list);
      if s.open != NULL {
        x := FindFree(s.m[s.open], s.max);
        a := s.open;
        TakeSlotOk(s, list, x);
        TakeSlotUse(s, list, x);
        list := if s.m[a].refcount + 1 == s.max then list[1..] else list;
        TakeHead(x);
      } else if spare != NULL {
        NewBundleOk(s, spare);
        NewBundleUse(s, spare);
        StartBundle(spare);
        list := [spare];
        a, x := spare, 0;
      }
    }

    /** Slot x of the head bundle is taken. */
    method TakeHead(x: nat)
      requires s.open in s.m && x < |s.m[s.open].used| && s.m[s.open].prev == NULL && s.m[s.open].next != s.open
      requires s.m[s.open].next != NULL ==> s.m[s.open].next in s.m
      modifies this`s
      ensures s == TakeSlot(old(s), x)
    {
      var a := s.open;
      var b := s.m[a];
      b := b.(nextCheck := x + 1);
      b := b.(refcount := b.refcount + 1, used := b.used[x := true]);
      s := s.(m := s.m[a := b]);
      if b.refcount == s.max {
        assert b.prev == NULL;
        s := s.(open := b.next);
        if b.next != NULL {
          s := s.(m := s.m[b.next := s.m[b.next].(prev := NULL)]);
          s := s.(m := s.m[a := b.(next := NULL)]);
        }
      }
      assert s.m == TakeSlot(old(s), x).m;
    }

    /** The bundle that do_cache_alloc returned, with its first slot taken. */
    method StartBundle(a: Addr)
      requires s.max > 0
      modifies this`s
      ensures s == NewBundle(old(s), a)
    {
      s := s.(m := s.m[a := Bundle(1, 1, NULL, NULL, seq(s.max, i => false))]);
      s := s.(open := a);
      s := s.(m := s.m[a := s.m[a].(used := s.m[a].used[0 := true])]);
    }

    /** resp_free: the slot is free again, and no other slot changes. */
    method Free(a: Addr, x: nat)
      requires Valid() && InUse(s, a, x)
      modifies this
      ensures Valid() && !InUse(s, a, x) && OnlySlot(old(s), s, a, x)
      ensures forall b, c :: Empty(s, b) && Empty(s, c) ==> b == c
    {
      hide Ok, OnlySlot, FreedList, Release, LinkHead, Used;
      UsedCounts(s, list, a, x);
      FreeSlotOk(s, list, a, x);
      FreeSlotUse(s, list, a, x);
      PointersShow(s, list, a);
      NeighboursKnown(s, list, a);
      ghost var next := FreeSlot(s, a, x);
      list := FreedList(s, list, a);
      var b := s.m[a];
      b := b.(used := b.used[x := false]);
      b := b.(refcount := b.refcount - 1);
      s := s.(m := s.m[a := b]);
      if b.refcount == 0 {
        if a == s.open && b.next == NULL {
          assert b.prev == NULL;
          s := s.(m := s.m[a := b.(nextCheck := 0)]);
        } else {
          assert b.next != NULL || b.prev != NULL || a == s.open;
          assert b.next != a && b.prev != a;
          ReleaseBundle(a);
        }
      } else {
        if a == s.open || b.prev != NULL || b.next != NULL {
          // already linked: it stays where it is
        } else {
          LinkBundle(a);
        }
      }
      OneEmpty(s, list);
    }

    /** Unlinks an empty bundle and gives it back to the cache. */
    method ReleaseBundle(a: Addr)
      requires a in s.m && s.m[a].next != a && s.m[a].prev != a
      requires (s.m[a].next != NULL ==> s.m[a].next in s.m) && (s.m[a].prev != NULL ==> s.m[a].prev in s.m)
      modifies this`s
      ensures s == Release(old(s), a)
    {
      var b := s.m[a];
      if s.open == a {
        s := s.(open := b.next);
      }
      if b.next != NULL {
        s := s.(m := s.m[b.next := s.m[b.next].(prev := b.prev)]);
      }
      if b.prev != NULL {
        s := s.(m := s.m[b.prev := s.m[b.prev].(next := b.next)]);
      }
      s := s.(m := s.m - {a});
    }

    /** Links a bundle that has a free slot again, at the head. */
    method LinkBundle(a: Addr)
      requires a in s.m && (s.open != NULL ==> s.open in s.m)
      modifies this`s
      ensures s == LinkHead(old(s), a)
    {
      var b := s.m[a];
      b := b.(prev := NULL);
      b := b.(next := s.open);
      s := s.(m := s.m[a := b]);
      if b.next != NULL {
        s := s.(m := s.m[b.next := s.m[b.next].(prev := a)]);
      }
      s := s.(open := a);
    }
  }

  /** The head of the list has a free slot; without a list every bundle is full. */
  lemma HeadKnown(s: State, list: seq<Addr>)
    requires Ok(s, list)
    ensures s.open != NULL ==> (
      list != [] && s.open in s.m && |s.m[s.open].used| == s.max && Used(s.m[s.open].used) < s.max &&
          s.m[s.open].nextCheck <= s.max &&
      s.m[s.open].prev == NULL && s.m[s.open].next != s.open &&
      (s.m[s.open].next != NULL ==> s.m[s.open].next in s.m))
    ensures s.open == NULL ==> list == [] && forall b :: b in s.m ==> s.m[b].refcount == s.max
    ensures s.max > 0
  {
    if list != [] { assert Node(s.m, list, 0) && list[0] in list; }
    if s.open != NULL {
      assert BundleOk(s, list, s.open);
      if |list| > 1 { assert Node(s.m, list, 1); }
    } else {
      forall b | b in s.m ensures s.m[b].refcount == s.max {
        assert BundleOk(s, list, b);
        UsedBound(s.m[b].used);
      }
    }
  }

  lemma NeighboursKnown(s: State, list: seq<Addr>, a: Addr)
    requires Ok(s, list) && a in s.m
    ensures s.open != NULL ==> s.open in s.m
    ensures s.m[a].next != NULL ==> s.m[a].next in s.m
    ensures s.m[a].prev != NULL ==> s.m[a].prev in s.m
    ensures a in list ==> s.m[a].next != a && s.m[a].prev != a
  {
    assert BundleOk(s, list, a);
    if list != [] { assert Node(s.m, list, 0); }
    if a in list {
      var i := IndexOf(list, a);
      assert Node(s.m, list, i);
      if i > 0 { assert Node(s.m, list, i - 1); }
      if i + 1 < |list| { assert Node(s.m, list, i + 1); }
    }
  }
}

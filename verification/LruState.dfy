/** The state of items.c as values: all the class lists over one set of items,
their sizes, and the reference counts; and what each primitive step does to it. */
module LruState {
  import opened Basics
  import opened LruList

  /** POWER_LARGEST: 64 slab classes, four segments each. */
  const CLASSES: nat := 256

  /** The crawler pseudo-items are the first addresses, one per class list. */
  predicate IsCrawler(a: Addr) { 1 <= a <= CLASSES }

  function CrawlerOf(id: nat): Addr { id + 1 }

  /** The fields of an item that its life cycle changes. */
  datatype Meta = Meta(refcount: nat, linked: bool, active: bool, fetched: bool, time: int, exptime: int)

  datatype State = State(
    next: Ptrs, prev: Ptrs, clsid: map<Addr, nat>, ntotal: map<Addr, nat>, meta: map<Addr, Meta>,
    heads: seq<Addr>, tails: seq<Addr>, sizes: seq<int>, bytes: seq<int>)
  {
    predicate Shaped() { |heads| == |tails| == |sizes| == |bytes| == CLASSES }

    function At(id: nat): List
      requires Shaped() && id < CLASSES
    {
      List(next, prev, heads[id], tails[id])
    }

    function SetList(id: nat, l: List): State
      requires Shaped() && id < CLASSES
    {
      this.(next := l.next, prev := l.prev, heads := heads[id := l.head], tails := tails[id := l.tail])
    }

    /** The class list an address belongs to. */
    function Owner(a: Addr): nat {
      if IsCrawler(a) then a - 1 else if a in clsid then clsid[a] else CLASSES
    }
  }

  type Lists = seq<seq<Addr>>

  /** The number of real items. */
  function Count(s: seq<Addr>): int {
    if s == [] then 0 else (if IsCrawler(s[0]) then 0 else 1) + Count(s[1..])
  }

  function Size(ntotal: map<Addr, nat>, a: Addr): int {
    if !IsCrawler(a) && a in ntotal then ntotal[a] else 0
  }

  function Bytes(ntotal: map<Addr, nat>, s: seq<Addr>): int {
    if s == [] then 0 else Size(ntotal, s[0]) + Bytes(ntotal, s[1..])
  }

  lemma {:induction false} SumsConcat(ntotal: map<Addr, nat>, s: seq<Addr>, t: seq<Addr>)
    ensures Count(s + t) == Count(s) + Count(t) && Bytes(ntotal, s + t) == Bytes(ntotal, s) + Bytes(ntotal, t)
  {
    if s == [] {
      assert s + t == t;
    } else {
      assert (s + t)[1..] == s[1..] + t;
      SumsConcat(ntotal, s[1..], t);
    }
  }

  lemma SumsOne(ntotal: map<Addr, nat>, a: Addr)
    ensures Count([a]) == (if IsCrawler(a) then 0 else 1) && Bytes(ntotal, [a]) == Size(ntotal, a)
  {
    assert [a][1..] == [];
  }

  lemma SumsWithout(ntotal: map<Addr, nat>, s: seq<Addr>, i: nat)
    requires i < |s|
    ensures Count(Without(s, i)) == Count(s) - (if IsCrawler(s[i]) then 0 else 1)
    ensures Bytes(ntotal, Without(s, i)) == Bytes(ntotal, s) - Size(ntotal, s[i])
  {
    assert s == s[..i] + [s[i]] + s[i + 1..];
    SumsConcat(ntotal, s[..i] + [s[i]], s[i + 1..]);
    SumsConcat(ntotal, s[..i], [s[i]]);
    SumsOne(ntotal, s[i]);
    SumsConcat(ntotal, s[..i], s[i + 1..]);
  }

  lemma SumsSwapped(ntotal: map<Addr, nat>, s: seq<Addr>, i: nat)
    requires 0 < i < |s|
    ensures Count(Swapped(s, i)) == Count(s) && Bytes(ntotal, Swapped(s, i)) == Bytes(ntotal, s)
  {
    var a, b := s[i - 1], s[i];
    assert s == s[..i - 1] + [a] + [b] + s[i + 1..];
    assert Swapped(s, i) == s[..i - 1] + [b] + [a] + s[i + 1..];
    SumsConcat(ntotal, s[..i - 1] + [a] + [b], s[i + 1..]);
    SumsConcat(ntotal, s[..i - 1] + [a], [b]);
    SumsConcat(ntotal, s[..i - 1], [a]);
    SumsConcat(ntotal, s[..i - 1] + [b] + [a], s[i + 1..]);
    SumsConcat(ntotal, s[..i - 1] + [b], [a]);
    SumsConcat(ntotal, s[..i - 1], [b]);
  }

  /** Class list id: its pointers spell out lists[id], everything in it belongs
  to it, and its size counters are the count and the bytes of its items. */
  ghost predicate ListOk(s: State, lists: Lists, id: nat)
    requires s.Shaped() && |lists| == CLASSES && id < CLASSES
  {
    && Dll(s.At(id), lists[id])
    && (forall a :: a in lists[id] ==> s.Owner(a) == id)
    && s.sizes[id] == Count(lists[id])
    && s.bytes[id] == Bytes(s.ntotal, lists[id])
  }

  ghost predicate ListsOk(s: State, lists: Lists) {
    s.Shaped() && |lists| == CLASSES && forall id :: 0 <= id < CLASSES ==> ListOk(s, lists, id)
  }

  /** The address is in the list of its class. */
  predicate InList(s: State, lists: Lists, a: Addr) {
    s.Owner(a) < |lists| && a in lists[s.Owner(a)]
  }

  /** An item is in the list named by its slabs_clsid exactly when ITEM_LINKED is
  set. For an item in transit, whose lock is held by a thread between setting the
  flag and linking, between clearing it and unlinking, or between two lists, it is
  the other way round. */
  ghost predicate FlagOk(s: State, lists: Lists, transit: set<Addr>, a: Addr)
    requires a in s.meta
  {
    && !IsCrawler(a) && a != NULL && a in s.clsid && s.clsid[a] < CLASSES && a in s.ntotal
    && (InList(s, lists, a) <==> s.meta[a].linked != (a in transit))
  }

  /** Lists hold crawlers and existing items, nothing else. */
  ghost predicate Known(s: State, list: seq<Addr>) {
    forall a :: a in list && !IsCrawler(a) ==> a in s.meta
  }

  ghost predicate FlagsOk(s: State, lists: Lists, transit: set<Addr>) {
    && (forall a :: a in s.meta ==> FlagOk(s, lists, transit, a))
    && (forall id :: 0 <= id < |lists| ==> Known(s, lists[id]))
  }

  /** The reference count is one for being linked plus one per holder, and an
  item exists exactly while its count is positive. */
  ghost predicate RefOk(s: State, held: map<Addr, nat>, a: Addr)
    requires a in s.meta && a in held
  {
    s.meta[a].refcount == held[a] + (if s.meta[a].linked then 1 else 0) && s.meta[a].refcount > 0
  }

  ghost predicate RefsOk(s: State, held: map<Addr, nat>) {
    held.Keys == s.meta.Keys && forall a :: a in s.meta ==> RefOk(s, held, a)
  }

  ghost predicate Ok(s: State, lists: Lists, held: map<Addr, nat>, transit: set<Addr>) {
    ListsOk(s, lists) && FlagsOk(s, lists, transit) && RefsOk(s, held)
  }

  /** do_item_link_q. */
  function LinkQ(s: State, a: Addr): State
    requires s.Shaped() && s.Owner(a) < CLASSES
  {
    var id := s.Owner(a);
    s.SetList(id, LinkHead(s.At(id), a))
     .(sizes := s.sizes[id := s.sizes[id] + 1], bytes := s.bytes[id := s.bytes[id] + Size(s.ntotal, a)])
  }

  /** do_item_unlink_q. */
  function UnlinkQ(s: State, a: Addr): State
    requires s.Shaped() && s.Owner(a) < CLASSES && a in s.next && a in s.prev
  {
    var id := s.Owner(a);
    s.SetList(id, Unlink(s.At(id), a))
     .(sizes := s.sizes[id := s.sizes[id] - 1], bytes := s.bytes[id := s.bytes[id] - Size(s.ntotal, a)])
  }

  /** A primitive that rewrites one list and stays inside it keeps the others. */
  lemma OneListChanged(s: State, lists: Lists, id: nat, l: List, size: int, bytes: int, list: seq<Addr>)
    requires ListsOk(s, lists) && id < CLASSES
    requires Dll(l, list) && (forall a :: a in list ==> s.Owner(a) == id)
    requires size == Count(list) && bytes == Bytes(s.ntotal, list)
    requires forall j :: 0 <= j < CLASSES && j != id ==> SameOn(s.At(id), l, lists[j])
    ensures ListsOk(s.SetList(id, l).(sizes := s.sizes[id := size], bytes := s.bytes[id := bytes]), lists[id := list])
  {
    var s' := s.SetList(id, l).(sizes := s.sizes[id := size], bytes := s.bytes[id := bytes]);
    var lists' := lists[id := list];
    forall j | 0 <= j < CLASSES ensures ListOk(s', lists', j) {
      assert ListOk(s, lists, j);
      assert forall a :: s'.Owner(a) == s.Owner(a);
      if j != id {
        DllFrame(s.At(j), s'.At(j), lists[j]);
      }
    }
  }

  /** Different class lists share no address. */
  lemma ListsDisjoint(s: State, lists: Lists, i: nat, j: nat)
    requires ListsOk(s, lists) && i < CLASSES && j < CLASSES && i != j
    ensures forall a :: a in lists[i] ==> a !in lists[j]
  {
    assert ListOk(s, lists, i) && ListOk(s, lists, j);
  }

  lemma LinkQOk(s: State, lists: Lists, a: Addr)
    requires ListsOk(s, lists) && s.Owner(a) < CLASSES && a != NULL && !IsCrawler(a) && !InList(s, lists, a)
    ensures ListsOk(LinkQ(s, a), lists[s.Owner(a) := [a] + lists[s.Owner(a)]])
  {
    var id := s.Owner(a);
    assert ListOk(s, lists, id);
    DllLinkHead(s.At(id), a, lists[id]);
    SumsConcat(s.ntotal, [a], lists[id]);
    SumsOne(s.ntotal, a);
    forall j | 0 <= j < CLASSES && j != id ensures SameOn(s.At(id), LinkHead(s.At(id), a), lists[j]) {
      assert ListOk(s, lists, j);
      ListsDisjoint(s, lists, id, j);
      OpsStayInside(s.At(id), lists[id], a, lists[j]);
    }
    OneListChanged(s, lists, id, LinkHead(s.At(id), a), s.sizes[id] + 1, s.bytes[id] + Size(s.ntotal, a),
        [a] + lists[id]);
  }

  lemma UnlinkQOk(s: State, lists: Lists, a: Addr, i: nat)
    requires ListsOk(s, lists) && s.Owner(a) < CLASSES && !IsCrawler(a)
    requires i < |lists[s.Owner(a)]| && lists[s.Owner(a)][i] == a
    ensures a in s.next && a in s.prev
    ensures ListsOk(UnlinkQ(s, a), lists[s.Owner(a) := Without(lists[s.Owner(a)], i)])
  {
    var id := s.Owner(a);
    assert ListOk(s, lists, id);
    DllUnlink(s.At(id), lists[id], i);
    SumsWithout(s.ntotal, lists[id], i);
    forall j | 0 <= j < CLASSES && j != id ensures SameOn(s.At(id), Unlink(s.At(id), a), lists[j]) {
      ListsDisjoint(s, lists, id, j);
      OpsStayInside(s.At(id), lists[id], NULL, lists[j]) by { NullNotIn(s, lists, j); }
    }
    OneListChanged(s, lists, id, Unlink(s.At(id), a), s.sizes[id] - 1, s.bytes[id] - Size(s.ntotal, a),
        Without(lists[id], i));
  }

  lemma NullNotIn(s: State, lists: Lists, j: nat)
    requires ListsOk(s, lists) && j < CLASSES
    ensures NULL !in lists[j]
  {
    assert ListOk(s, lists, j);
    forall i | 0 <= i < |lists[j]| ensures lists[j][i] != NULL {
      assert Node(s.At(j), lists[j], i);
    }
  }

  /** The crawler joins its list at the tail; the size counters do not see it. */
  lemma CrawlerJoins(s: State, lists: Lists, id: nat)
    requires ListsOk(s, lists) && id < CLASSES && CrawlerOf(id) !in lists[id]
    ensures ListsOk(s.SetList(id, LinkTail(s.At(id), CrawlerOf(id))), lists[id := lists[id] + [CrawlerOf(id)]])
  {
    var c := CrawlerOf(id);
    assert ListOk(s, lists, id);
    DllLinkTail(s.At(id), c, lists[id]);
    SumsConcat(s.ntotal, lists[id], [c]);
    SumsOne(s.ntotal, c);
    forall j | 0 <= j < CLASSES && j != id ensures SameOn(s.At(id), LinkTail(s.At(id), c), lists[j]) {
      assert ListOk(s, lists, j);
      ListsDisjoint(s, lists, id, j);
      OpsStayInside(s.At(id), lists[id], c, lists[j]);
    }
    OneListChanged(s, lists, id, LinkTail(s.At(id), c), s.sizes[id], s.bytes[id], lists[id] + [c]);
    KeepsSizes(s, LinkTail(s.At(id), c), id);
  }

  lemma KeepsSizes(s: State, l: List, id: nat)
    requires s.Shaped() && id < CLASSES
    ensures s.SetList(id, l).(sizes := s.sizes[id := s.sizes[id]], bytes := s.bytes[id := s.bytes[id]]) ==
        s.SetList(id, l)
  {
    assert s.sizes[id := s.sizes[id]] == s.sizes && s.bytes[id := s.bytes[id]] == s.bytes;
  }

  /** One crawl step: the crawler and the item before it change places. */
  lemma CrawlerSteps(s: State, lists: Lists, id: nat, i: nat)
    requires ListsOk(s, lists) && id < CLASSES && 0 < i < |lists[id]| && lists[id][i] == CrawlerOf(id)
    ensures var c := CrawlerOf(id);
      && c in s.next && c in s.prev && s.prev[c] == lists[id][i - 1] && s.prev[c] != NULL && s.prev[c] in s.prev
      && Crawl(s.At(id), c).1 == lists[id][i - 1] && !IsCrawler(lists[id][i - 1])
      && ListsOk(s.SetList(id, Crawl(s.At(id), c).0), lists[id := Swapped(lists[id], i)])
  {
    var c := CrawlerOf(id);
    assert ListOk(s, lists, id);
    DllCrawl(s.At(id), lists[id], i);
    assert lists[id][i - 1] in lists[id] && lists[id][i - 1] != lists[id][i];
    SumsSwapped(s.ntotal, lists[id], i);
    forall j | 0 <= j < CLASSES && j != id ensures SameOn(s.At(id), Crawl(s.At(id), c).0, lists[j]) {
      ListsDisjoint(s, lists, id, j);
      CrawlStaysInside(s.At(id), lists[id], i, lists[j]);
    }
    forall a | a in Swapped(lists[id], i) ensures s.Owner(a) == id {
      assert a in lists[id];
    }
    OneListChanged(s, lists, id, Crawl(s.At(id), c).0, s.sizes[id], s.bytes[id], Swapped(lists[id], i));
    KeepsSizes(s, Crawl(s.At(id), c).0, id);
  }

  /** The crawler leaves from any position. */
  lemma CrawlerLeaves(s: State, lists: Lists, id: nat, i: nat)
    requires ListsOk(s, lists) && id < CLASSES && i < |lists[id]| && lists[id][i] == CrawlerOf(id)
    ensures CrawlerOf(id) in s.next && CrawlerOf(id) in s.prev
    ensures ListsOk(s.SetList(id, Unlink(s.At(id), CrawlerOf(id))), lists[id := Without(lists[id], i)])
  {
    var c := CrawlerOf(id);
    assert ListOk(s, lists, id);
    DllUnlink(s.At(id), lists[id], i);
    SumsWithout(s.ntotal, lists[id], i);
    forall j | 0 <= j < CLASSES && j != id ensures SameOn(s.At(id), Unlink(s.At(id), c), lists[j]) {
      ListsDisjoint(s, lists, id, j);
      NullNotIn(s, lists, j);
      OpsStayInside(s.At(id), lists[id], NULL, lists[j]);
    }
    OneListChanged(s, lists, id, Unlink(s.At(id), c), s.sizes[id], s.bytes[id], Without(lists[id], i));
    KeepsSizes(s, Unlink(s.At(id), c), id);
  }

  /** At the head the crawl step itself takes the crawler half out; the unlink
  that follows completes the removal. */
  lemma CrawlerEnds(s: State, lists: Lists, id: nat)
    requires ListsOk(s, lists) && id < CLASSES && lists[id] != [] && lists[id][0] == CrawlerOf(id)
    ensures var c := CrawlerOf(id);
      && c in s.next && c in s.prev && s.prev[c] == NULL
      && var (l, r) := Crawl(s.At(id), c);
        r == NULL && c in l.next && c in l.prev && ListsOk(s.SetList(id, Unlink(l, c)), lists[id := lists[id][1..]])
  {
    hide Crawl, Unlink, Count, Bytes;
    var c := CrawlerOf(id);
    assert ListOk(s, lists, id);
    DllCrawlEnd(s.At(id), lists[id]);
    var l := Crawl(s.At(id), c).0;
    var l' := Unlink(l, c);
    assert lists[id][1..] == Without(lists[id], 0);
    SumsWithout(s.ntotal, lists[id], 0);
    forall j | 0 <= j < CLASSES && j != id ensures SameOn(s.At(id), l', lists[j]) {
      ListsDisjoint(s, lists, id, j);
      NullNotIn(s, lists, j);
      CrawlEndStaysInside(s.At(id), lists[id], lists[j]);
    }
    forall a | a in lists[id][1..] ensures s.Owner(a) == id {
      assert a in lists[id];
    }
    OneListChanged(s, lists, id, l', s.sizes[id], s.bytes[id], lists[id][1..]);
    KeepsSizes(s, l', id);
  }

  lemma NotAtEnds(s: State, lists: Lists, a: Addr)
    requires ListsOk(s, lists) && s.Owner(a) < CLASSES && a != NULL && !InList(s, lists, a)
    ensures a != s.heads[s.Owner(a)] && a != s.tails[s.Owner(a)]
  {
    assert ListOk(s, lists, s.Owner(a));
    var list := lists[s.Owner(a)];
    if list != [] { assert list[0] in list && list[|list| - 1] in list; }
  }

  lemma NowhereElse(s: State, lists: Lists, a: Addr)
    requires ListsOk(s, lists) && !InList(s, lists, a)
    ensures forall id :: 0 <= id < CLASSES ==> a !in lists[id]
  {
    forall id | 0 <= id < CLASSES ensures a !in lists[id] {
      assert ListOk(s, lists, id);
    }
  }

  lemma MetaOnly(s: State, lists: Lists, meta: map<Addr, Meta>)
    requires ListsOk(s, lists)
    ensures ListsOk(s.(meta := meta), lists)
    ensures forall a :: InList(s.(meta := meta), lists, a) <==> InList(s, lists, a)
  {
    forall id | 0 <= id < CLASSES ensures ListOk(s.(meta := meta), lists, id) {
      assert ListOk(s, lists, id);
      assert forall a :: s.(meta := meta).Owner(a) == s.Owner(a);
    }
  }

  lemma ReclassOk(s: State, lists: Lists, a: Addr, id: nat)
    requires ListsOk(s, lists) && !InList(s, lists, a) && id < CLASSES && !IsCrawler(a)
    ensures ListsOk(s.(clsid := s.clsid[a := id]), lists)
    ensures !InList(s.(clsid := s.clsid[a := id]), lists, a)
    ensures forall b :: b != a ==> (InList(s.(clsid := s.clsid[a := id]), lists, b) <==> InList(s, lists, b))
  {
    NowhereElse(s, lists, a);
    var s' := s.(clsid := s.clsid[a := id]);
    forall j | 0 <= j < CLASSES ensures ListOk(s', lists, j) {
      assert ListOk(s, lists, j);
      forall b | b in lists[j] ensures s'.Owner(b) == j {
        assert s.Owner(b) == j;
      }
    }
  }
}

/** The intrusive doubly linked lists of items.c, pointer by pointer, and the
sequences of addresses they spell out. */
module LruList {
  import opened Basics

  type Ptrs = map<Addr, Addr>

  /** One list: the next and prev fields of all items, and this list's ends. */
  datatype List = List(next: Ptrs, prev: Ptrs, head: Addr, tail: Addr)

  ghost predicate Node(l: List, s: seq<Addr>, i: nat)
    requires i < |s|
  {
    && s[i] != NULL && s[i] in l.next && s[i] in l.prev
    && l.prev[s[i]] == (if i == 0 then NULL else s[i - 1])
    && l.next[s[i]] == (if i + 1 == |s| then NULL else s[i + 1])
  }

  /** The pointers spell out exactly the sequence s, in both directions. */
  ghost predicate Dll(l: List, s: seq<Addr>) {
    && l.head == (if s == [] then NULL else s[0])
    && l.tail == (if s == [] then NULL else s[|s| - 1])
    && Distinct(s)
    && forall i :: 0 <= i < |s| ==> Node(l, s, i)
  }

  /** The pointers of the items of s are the same in both lists. */
  ghost predicate SameOn(l: List, l': List, s: seq<Addr>) {
    forall i :: 0 <= i < |s| && s[i] in l.next && s[i] in l.prev ==>
      s[i] in l'.next && s[i] in l'.prev && l'.next[s[i]] == l.next[s[i]] && l'.prev[s[i]] == l.prev[s[i]]
  }

  lemma DllFrame(l: List, l': List, s: seq<Addr>)
    requires Dll(l, s) && SameOn(l, l', s) && l'.head == l.head && l'.tail == l.tail
    ensures Dll(l', s)
  {
    forall i | 0 <= i < |s| ensures Node(l', s, i) {
      assert Node(l, s, i);
    }
  }

  /** do_item_link_q, as far as pointers go. */
  function LinkHead(l: List, it: Addr): List {
    var prev := l.prev[it := NULL];
    List(l.next[it := l.head],
         if l.head != NULL then prev[l.head := it] else prev,
         it,
         if l.tail == NULL then it else l.tail)
  }

  /** do_item_linktail_q. */
  function LinkTail(l: List, it: Addr): List {
    var next := l.next[it := NULL];
    List(if l.tail != NULL then next[l.tail := it] else next,
         l.prev[it := l.tail],
         if l.head == NULL then it else l.head,
         it)
  }

  /** do_item_unlink_q and do_item_unlinktail_q: the item keeps its pointers. */
  function Unlink(l: List, it: Addr): List
    requires it in l.next && it in l.prev
  {
    var n, p := l.next[it], l.prev[it];
    List(if p != NULL then l.next[p := n] else l.next,
         if n != NULL then l.prev[n := p] else l.prev,
         if l.head == it then n else l.head,
         if l.tail == it then p else l.tail)
  }

  /** do_item_crawl_q: the crawler swaps places with the item before it, which it
  returns; at the head it steps out of the way and returns NULL. */
  function Crawl(l: List, it: Addr): (r: (List, Addr))
    requires it in l.next && it in l.prev && (l.prev[it] != NULL ==> l.prev[it] in l.prev)
  {
    var n, p := l.next[it], l.prev[it];
    if p == NULL then
      (if n != NULL then l.(head := n, prev := l.prev[n := NULL]) else l, NULL)
    else
      var head := if l.head == p then it else l.head;
      var tail := if l.tail == it then p else l.tail;
      var next := l.next[p := n];
      var prev := if n != NULL then l.prev[n := p] else l.prev;
      var pp := prev[p];
      (List((if pp != NULL then next[it := p][pp := it] else next[it := p]),
            prev[it := pp][p := it], head, tail), p)
  }

  /** What do_item_crawl_q asserts about the crawler it is given. */
  predicate CrawlAsserts(l: List, it: Addr) {
    && it in l.next && it in l.prev && l.next[it] != it && l.prev[it] != it
    && (l.next[it] != NULL ==> l.next[it] in l.prev && l.prev[l.next[it]] == it)
    && (if l.prev[it] == NULL then l.head == it
        else l.prev[it] in l.prev && l.prev[it] in l.next && l.next[l.prev[it]] == it &&
             l.prev[l.prev[it]] != it)
  }

  /** What do_item_link_q and do_item_linktail_q assert. */
  predicate LinkAsserts(l: List, it: Addr) {
    && it != l.head && it != l.tail && (l.head == NULL <==> l.tail == NULL)
    && (l.tail != NULL ==> l.tail in l.next && l.next[l.tail] == NULL)
  }

  lemma LinkAssertsHold(l: List, s: seq<Addr>, it: Addr)
    requires Dll(l, s) && it != NULL && it !in s
    ensures LinkAsserts(l, it)
  {
    if s != [] { assert Node(l, s, 0) && Node(l, s, |s| - 1) && s[0] in s && s[|s| - 1] in s; }
  }

  /** What do_item_unlink_q and do_item_unlinktail_q assert. */
  predicate UnlinkAsserts(l: List, it: Addr) {
    && it in l.next && it in l.prev && (l.head == it ==> l.prev[it] == NULL) && (l.tail == it ==> l.next[it] == NULL)
    && l.next[it] != it && l.prev[it] != it
  }

  lemma UnlinkAssertsHold(l: List, s: seq<Addr>, i: nat)
    requires Dll(l, s) && i < |s|
    ensures UnlinkAsserts(l, s[i])
  {
    assert Node(l, s, i);
  }

  lemma CrawlAssertsHold(l: List, s: seq<Addr>, i: nat)
    requires Dll(l, s) && i < |s|
    ensures CrawlAsserts(l, s[i])
  {
    assert Node(l, s, i);
    if i > 0 { assert Node(l, s, i - 1); }
    if i > 1 { assert s[i - 2] != s[i]; }
    if i + 1 < |s| { assert Node(l, s, i + 1); }
  }

  lemma DllLinkHead(l: List, it: Addr, s: seq<Addr>)
    requires Dll(l, s) && it != NULL && it !in s
    ensures Dll(LinkHead(l, it), [it] + s)
  {
    var l', s' := LinkHead(l, it), [it] + s;
    if s != [] { assert Node(l, s, 0) && Node(l, s, |s| - 1); }
    forall i | 0 <= i < |s'| ensures Node(l', s', i) {
      if i > 0 {
        assert Node(l, s, i - 1);
        assert s'[i] == s[i - 1] && (i + 1 < |s'| ==> s'[i + 1] == s[i]);
      }
    }
  }

  lemma DllLinkTail(l: List, it: Addr, s: seq<Addr>)
    requires Dll(l, s) && it != NULL && it !in s
    ensures Dll(LinkTail(l, it), s + [it])
  {
    var l', s' := LinkTail(l, it), s + [it];
    if s != [] { assert Node(l, s, 0) && Node(l, s, |s| - 1); }
    forall i | 0 <= i < |s'| ensures Node(l', s', i) {
      if i < |s| { assert Node(l, s, i); }
    }
  }

  lemma DllUnlink(l: List, s: seq<Addr>, i: nat)
    requires Dll(l, s) && i < |s|
    ensures s[i] in l.next && s[i] in l.prev && Dll(Unlink(l, s[i]), Without(s, i))
  {
    UnlinkEnds(l, s, i);
    WithoutMembers(s, i);
    var l', s' := Unlink(l, s[i]), Without(s, i);
    hide Unlink, Without, Node, Distinct;
    forall j | 0 <= j < |s'| ensures Node(l', s', j) { UnlinkNode(l, s, i, j); }
  }

  lemma UnlinkEnds(l: List, s: seq<Addr>, i: nat)
    requires Dll(l, s) && i < |s|
    ensures s[i] in l.next && s[i] in l.prev
    ensures var l', s' := Unlink(l, s[i]), Without(s, i);
      l'.head == (if s' == [] then NULL else s'[0]) && l'.tail == (if s' == [] then NULL else s'[|s'| - 1])
  {
    assert Node(l, s, i) && Node(l, s, 0) && Node(l, s, |s| - 1);
  }

  lemma UnlinkNode(l: List, s: seq<Addr>, i: nat, j: nat)
    requires Dll(l, s) && i < |s| && j < |s| - 1 && s[i] in l.next && s[i] in l.prev
    ensures Node(Unlink(l, s[i]), Without(s, i), j)
  {
    assert Node(l, s, i) && Node(l, s, if j < i then j else j + 1);
    if i > 0 { assert Node(l, s, i - 1); }
    if i + 1 < |s| { assert Node(l, s, i + 1); }
  }

  /** Positions i-1 and i change places. */
  function Swapped(s: seq<Addr>, i: nat): (r: seq<Addr>)
    requires 0 < i < |s|
    ensures |r| == |s|
  {
    s[i - 1 := s[i]][i := s[i - 1]]
  }

  lemma DllCrawl(l: List, s: seq<Addr>, i: nat)
    requires Dll(l, s) && 0 < i < |s|
    ensures s[i] in l.next && s[i] in l.prev && l.prev[s[i]] == s[i - 1] && s[i - 1] in l.prev && s[i - 1] != NULL
    ensures Crawl(l, s[i]).1 == s[i - 1]
    ensures Dll(Crawl(l, s[i]).0, Swapped(s, i))
  {
    assert Node(l, s, i) && Node(l, s, i - 1);
    var l', s' := Crawl(l, s[i]).0, Swapped(s, i);
    if i > 1 { assert Node(l, s, i - 2); }
    if i + 1 < |s| { assert Node(l, s, i + 1); }
    forall j | 0 <= j < |s'| ensures Node(l', s', j) {
      assert Node(l, s, j);
      CrawlNode(l, s, i, j);
    }
  }

  lemma CrawlNode(l: List, s: seq<Addr>, i: nat, j: nat)
    requires Dll(l, s) && 0 < i < |s| && j < |s| && Node(l, s, i) && Node(l, s, i - 1) && Node(l, s, j)
    requires (i > 1 ==> Node(l, s, i - 2)) && (i + 1 < |s| ==> Node(l, s, i + 1))
    ensures Node(Crawl(l, s[i]).0, Swapped(s, i), j)
  {}

  /** At the head the crawler is done, and unlinking it completes the removal. */
  lemma DllCrawlEnd(l: List, s: seq<Addr>)
    requires Dll(l, s) && s != []
    ensures s[0] in l.next && s[0] in l.prev && l.prev[s[0]] == NULL
    ensures var (l', r) := Crawl(l, s[0]);
      r == NULL && s[0] in l'.next && s[0] in l'.prev && Dll(Unlink(l', s[0]), s[1..])
  {
    assert Node(l, s, 0);
    var l' := Crawl(l, s[0]).0;
    if |s| > 1 { assert Node(l, s, 1); }
    var l'', s' := Unlink(l', s[0]), s[1..];
    forall j | 0 <= j < |s'| ensures Node(l'', s', j) {
      assert Node(l, s, j + 1);
    }
  }

  /** None of the operations touches an item outside its list. */
  lemma OpsStayInside(l: List, s: seq<Addr>, it: Addr, t: seq<Addr>)
    requires Dll(l, s) && it !in t && forall a :: a in s ==> a !in t
    ensures SameOn(l, LinkHead(l, it), t) && SameOn(l, LinkTail(l, it), t)
    ensures forall i :: 0 <= i < |s| && s[i] in l.next && s[i] in l.prev ==> SameOn(l, Unlink(l, s[i]), t)
  {
    forall i | 0 <= i < |s| && s[i] in l.next && s[i] in l.prev ensures SameOn(l, Unlink(l, s[i]), t) {
      assert Node(l, s, i);
      assert i > 0 ==> s[i - 1] in s;
      assert i + 1 < |s| ==> s[i + 1] in s;
    }
    if s != [] { assert s[0] in s && s[|s| - 1] in s; }
  }

  lemma CrawlStaysInside(l: List, s: seq<Addr>, i: nat, t: seq<Addr>)
    requires Dll(l, s) && i < |s| && forall a :: a in s ==> a !in t
    ensures s[i] in l.next && s[i] in l.prev && (l.prev[s[i]] != NULL ==> l.prev[s[i]] in l.prev)
    ensures SameOn(l, Crawl(l, s[i]).0, t)
  {
    assert Node(l, s, i);
    assert s[i] in s;
    if i > 0 { assert Node(l, s, i - 1) && s[i - 1] in s; }
    if i > 1 { assert Node(l, s, i - 2) && s[i - 2] in s; }
    if i + 1 < |s| { assert s[i + 1] in s; }
  }

  lemma CrawlEndStaysInside(l: List, s: seq<Addr>, t: seq<Addr>)
    requires Dll(l, s) && s != [] && NULL !in t && forall a :: a in s ==> a !in t
    ensures s[0] in l.next && s[0] in l.prev && l.prev[s[0]] == NULL
    ensures var l' := Crawl(l, s[0]).0; s[0] in l'.next && s[0] in l'.prev && SameOn(l, Unlink(l', s[0]), t)
  {
    assert Node(l, s, 0);
    if |s| > 1 { assert s[1] in s; }
  }
}

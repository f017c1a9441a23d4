/** What the crawlers do to the class lists: joining at the tail, a crawl step,
and leaving. */
module LruCrawl {
  import opened Basics
  import opened LruList
  import opened LruState
  import opened LruWorld
  import Crawler

  /** A change of list id that only concerns its crawler. */
  function Relisted(w: World, id: nat, l: List, list: seq<Addr>): World
    requires w.s.Shaped() && |w.lists| == CLASSES && id < CLASSES
  {
    w.(s := w.s.SetList(id, l), lists := w.lists[id := list])
  }

  lemma RelistedOk(w: World, id: nat, l: List, list: seq<Addr>, transit: set<Addr>)
    requires OkW(w, transit) && id < CLASSES && ListsOk(w.s.SetList(id, l), w.lists[id := list])
    requires forall a :: !IsCrawler(a) ==> (a in list <==> a in w.lists[id])
    ensures OkW(Relisted(w, id, l, list), transit)
  {
    var w' := Relisted(w, id, l, list);
    hide ListsOk;
    forall b | b in w'.s.meta ensures FlagOk(w'.s, w'.lists, transit, b) && RefOk(w'.s, w'.held, b) {
      assert FlagOk(w.s, w.lists, transit, b) && RefOk(w.s, w.held, b);
    }
    forall j | 0 <= j < |w'.lists| ensures Known(w'.s, w'.lists[j]) {
      assert Known(w.s, w.lists[j]);
    }
  }

  /** What do_item_linktail_q asserts. */
  predicate CanJoin(w: World, id: nat) {
    && w.s.Shaped() && |w.lists| == CLASSES && id < CLASSES && CrawlerOf(id) !in w.lists[id]
    && LinkAsserts(w.s.At(id), CrawlerOf(id))
  }

  /** do_item_linktail_q on the crawler of class id. */
  function Joined(w: World, id: nat): World
    requires CanJoin(w, id)
  {
    Relisted(w, id, LinkTail(w.s.At(id), CrawlerOf(id)), w.lists[id] + [CrawlerOf(id)])
  }

  lemma JoinedOk(w: World, id: nat, transit: set<Addr>)
    requires OkW(w, transit) && id < CLASSES && |w.lists| == CLASSES && CrawlerOf(id) !in w.lists[id]
    ensures CanJoin(w, id) && OkW(Joined(w, id), transit) && w.s.sizes[id] == |w.lists[id]|
  {
    CrawlerJoins(w.s, w.lists, id);
    RelistedOk(w, id, LinkTail(w.s.At(id), CrawlerOf(id)), w.lists[id] + [CrawlerOf(id)], transit);
    assert ListOk(w.s, w.lists, id);
    LinkAssertsHold(w.s.At(id), w.lists[id], CrawlerOf(id));
    AllCounted(w.lists[id]);
  }

  lemma {:induction false} AllCounted(list: seq<Addr>)
    requires forall a :: a in list ==> !IsCrawler(a)
    ensures Count(list) == |list|
  {
    if list != [] {
      assert list[0] in list;
      forall a | a in list[1..] ensures !IsCrawler(a) { assert a in list; }
      AllCounted(list[1..]);
    }
  }

  /** What do_item_crawl_q asserts. */
  predicate CanCrawl(w: World, id: nat) {
    && w.s.Shaped() && |w.lists| == CLASSES && id < CLASSES
    && CrawlerOf(id) in w.lists[id] && CrawlAsserts(w.s.At(id), CrawlerOf(id))
  }

  /** do_item_crawl_q on the crawler of class id. At the head the crawler is
  only half out of the list, and its place in the sequence is kept until it has
  left. */
  function Crawled(w: World, id: nat): World
    requires CanCrawl(w, id)
  {
    var i := IndexOf(w.lists[id], CrawlerOf(id));
    Relisted(w, id, Crawl(w.s.At(id), CrawlerOf(id)).0, if i == 0 then w.lists[id] else Swapped(w.lists[id], i))
  }

  /** What do_item_unlinktail_q asserts of the crawler of class id. */
  predicate CanLeave(w: World, id: nat) {
    && w.s.Shaped() && |w.lists| == CLASSES && id < CLASSES
    && CrawlerOf(id) in w.lists[id] && UnlinkAsserts(w.s.At(id), CrawlerOf(id))
  }

  /** do_item_unlinktail_q. */
  function Left(w: World, id: nat): World
    requires w.s.Shaped() && |w.lists| == CLASSES && id < CLASSES
    requires CrawlerOf(id) in w.s.next && CrawlerOf(id) in w.s.prev
  {
    Relisted(w, id, Unlink(w.s.At(id), CrawlerOf(id)), Crawler.Remove(w.lists[id], CrawlerOf(id)))
  }

  /** A crawl step, after which the crawler stays or leaves. */
  function Turned(w: World, id: nat, done: bool): World
    requires CanCrawl(w, id)
  {
    CrawledFacts(w, id);
    if done then Left(Crawled(w, id), id) else Crawled(w, id)
  }

  /** A crawl step changes this list only, and hands out the neighbour. */
  lemma CrawledFacts(w: World, id: nat)
    requires CanCrawl(w, id)
    ensures var w' := Crawled(w, id); var i := IndexOf(w.lists[id], CrawlerOf(id));
      && w'.s.Shaped() && w'.lists == w.lists[id := if i == 0 then w.lists[id] else Swapped(w.lists[id], i)]
      && CrawlerOf(id) in w'.s.next && CrawlerOf(id) in w'.s.prev && OnlyCrawlers(w, w')
  {}

  lemma LeftFacts(w: World, id: nat)
    requires w.s.Shaped() && |w.lists| == CLASSES && id < CLASSES
    requires CrawlerOf(id) in w.s.next && CrawlerOf(id) in w.s.prev
    ensures Left(w, id).lists == w.lists[id := Crawler.Remove(w.lists[id], CrawlerOf(id))]
    ensures OnlyCrawlers(w, Left(w, id))
  {}

  /** The items, their references and the sizes are the same. */
  ghost predicate OnlyCrawlers(w: World, w': World) {
    && w'.s.meta == w.s.meta && w'.s.clsid == w.s.clsid && w'.s.ntotal == w.s.ntotal
    && w'.s.sizes == w.s.sizes && w'.s.bytes == w.s.bytes && w'.held == w.held
  }

  lemma TurnedFacts(w: World, id: nat, done: bool)
    requires CanCrawl(w, id)
    ensures var w' := Turned(w, id, done); var i := IndexOf(w.lists[id], CrawlerOf(id));
      var list := if i == 0 then w.lists[id] else Swapped(w.lists[id], i);
      && OnlyCrawlers(w, w')
      && w'.lists == w.lists[id := if done then Crawler.Remove(list, CrawlerOf(id)) else list]
  {
    hide Crawled, Left, CrawlAsserts, Crawler.Remove;
    CrawledFacts(w, id);
    LeftFacts(Crawled(w, id), id);
  }

  /** What a crawl step meets and leaves: at the head it returns NULL, otherwise
  an item of the class, and either way, staying or leaving, all is in order. */
  lemma CrawledOk(w: World, id: nat, transit: set<Addr>)
    requires OkW(w, transit) && id < CLASSES && |w.lists| == CLASSES && CrawlerOf(id) in w.lists[id]
    ensures CanCrawl(w, id)
    ensures var i := IndexOf(w.lists[id], CrawlerOf(id)); var found := Crawl(w.s.At(id), CrawlerOf(id)).1;
      && found == (if i == 0 then NULL else w.lists[id][i - 1])
      && (i > 0 ==> found != NULL && found in w.s.meta && (w.s.meta[found].linked <==> found !in transit))
      && (i > 0 ==> OkW(Turned(w, id, false), transit))
    ensures OkW(Turned(w, id, true), transit)
    ensures Crawled(w, id).s.Shaped() && UnlinkAsserts(Crawled(w, id).s.At(id), CrawlerOf(id))
  {
    var c := CrawlerOf(id);
    var list := w.lists[id];
    var i := IndexOf(list, c);
    hide OkW, ListOk, Dll, Crawl, CrawlAsserts, UnlinkAsserts, Left, Distinct;
    ListsKnown(w, id, transit);
    MayCrawl(w, id);
    CrawledFacts(w, id);
    MayLeave(w, id, transit);
    if i == 0 {
      LastTurn(w, id, transit);
    } else {
      CrawlerSteps(w.s, w.lists, id, i);
      assert list[i - 1] in list;
      MemberKnown(w, id, list[i - 1], transit);
      Crawler.SwapFacts(list, i);
      RelistedOk(w, id, Crawl(w.s.At(id), c).0, Swapped(list, i), transit);
      LeftOk(Crawled(w, id), id, transit);
    }
  }

  lemma MayCrawl(w: World, id: nat)
    requires ListsOk(w.s, w.lists) && |w.lists| == CLASSES && id < CLASSES && CrawlerOf(id) in w.lists[id]
    requires w.s.Shaped()
    ensures CanCrawl(w, id)
  {
    assert ListOk(w.s, w.lists, id);
    CrawlAssertsHold(w.s.At(id), w.lists[id], IndexOf(w.lists[id], CrawlerOf(id)));
  }

  /** The assertions of do_item_unlinktail_q after a crawl step. */
  lemma MayLeave(w: World, id: nat, transit: set<Addr>)
    requires OkW(w, transit) && CanCrawl(w, id)
    ensures Crawled(w, id).s.Shaped() && UnlinkAsserts(Crawled(w, id).s.At(id), CrawlerOf(id))
  {
    var list := w.lists[id];
    var i := IndexOf(list, CrawlerOf(id));
    assert ListOk(w.s, w.lists, id);
    hide OkW;
    if i > 0 {
      DllCrawl(w.s.At(id), list, i);
      UnlinkAssertsHold(Crawl(w.s.At(id), CrawlerOf(id)).0, Swapped(list, i), i - 1);
    } else {
      assert Node(w.s.At(id), list, 0);
      if |list| > 1 { assert Node(w.s.At(id), list, 1) && Node(w.s.At(id), list, |list| - 1); }
    }
  }

  lemma LastTurn(w: World, id: nat, transit: set<Addr>)
    requires OkW(w, transit) && CanCrawl(w, id) && IndexOf(w.lists[id], CrawlerOf(id)) == 0
    ensures Crawl(w.s.At(id), CrawlerOf(id)).1 == NULL && OkW(Turned(w, id, true), transit)
  {
    var c := CrawlerOf(id);
    var list := w.lists[id];
    assert ListOk(w.s, w.lists, id);
    CrawlerEnds(w.s, w.lists, id);
    hide OkW, Unlink, CrawlAsserts, ListOk, ListsOk;
    assert Crawler.Remove(list, c) == list[1..];
    WithoutMembers(list, 0);
    assert Without(list, 0) == list[1..];
    RelistedOk(w, id, Unlink(Crawl(w.s.At(id), c).0, c), list[1..], transit);
    RelistedTwice(w, id, Crawl(w.s.At(id), c).0, list, Unlink(Crawl(w.s.At(id), c).0, c), list[1..]);
  }

  /** A crawler may leave from anywhere. */
  lemma LeftOk(w: World, id: nat, transit: set<Addr>)
    requires OkW(w, transit) && id < CLASSES && |w.lists| == CLASSES && CrawlerOf(id) in w.lists[id]
    ensures w.s.Shaped() && |w.lists| == CLASSES && CrawlerOf(id) in w.s.next && CrawlerOf(id) in w.s.prev
    ensures CanLeave(w, id) && OkW(Left(w, id), transit)
  {
    hide Crawl, Unlink, OkW;
    ListsKnown(w, id, transit);
    CrawlerMayLeave(w, id);
    var i := IndexOf(w.lists[id], CrawlerOf(id));
    CrawlerLeaves(w.s, w.lists, id, i);
    WithoutMembers(w.lists[id], i);
    RelistedOk(w, id, Unlink(w.s.At(id), CrawlerOf(id)), Without(w.lists[id], i), transit);
  }

  lemma CrawlerMayLeave(w: World, id: nat)
    requires ListsOk(w.s, w.lists) && id < CLASSES && |w.lists| == CLASSES && CrawlerOf(id) in w.lists[id]
    ensures w.s.Shaped() && CanLeave(w, id)
  {
    assert ListOk(w.s, w.lists, id);
    UnlinkAssertsHold(w.s.At(id), w.lists[id], IndexOf(w.lists[id], CrawlerOf(id)));
  }

  lemma RelistedTwice(w: World, id: nat, l: List, list: seq<Addr>, l': List, list': seq<Addr>)
    requires w.s.Shaped() && |w.lists| == CLASSES && id < CLASSES
    ensures Relisted(Relisted(w, id, l, list), id, l', list') == Relisted(w, id, l', list')
  {}

  lemma ListsKnown(w: World, id: nat, transit: set<Addr>)
    requires OkW(w, transit) && id < CLASSES
    ensures ListsOk(w.s, w.lists) && w.s.Shaped() && |w.lists| == CLASSES && Distinct(w.lists[id])
  {
    assert ListOk(w.s, w.lists, id);
  }
}

/** Reachable states in which lru_pull_tail returns 0 although it has reclaimed an
item, and in which it leaves a reference with nobody. */
module LruWitness {
  import opened Basics
  import opened LruList
  import opened LruState
  import opened LruWorld
  import opened LruMachine
  import opened LruRuns
  import opened LruCrawl
  import opened LruPull
  import opened LruWalk
  import opened LruRace
  import LruCrawler
  import Crawler

  /** An address past those of the crawlers. */
  const ITEM: Addr := 300

  /** A cache with one item, linked in list id by the thread that allocated it. */
  function OneItem(id: nat, exptime: int): seq<Step> {
    [LruMachine.Alloc(ITEM, id, 100, exptime, 0)] + [LruMachine.LinkFlag(ITEM, 0)] + [LruMachine.LinkList(ITEM)] +
    [LruMachine.LinkCount(ITEM)]
  }

  lemma StartFacts()
    ensures Inv(LruMachine.Start()) && |LruMachine.Start().w.lists| == CLASSES
    ensures forall id :: 0 <= id < CLASSES ==> LruMachine.Start().w.lists[id] == []
    ensures LruMachine.Start().busy == map[] && LruMachine.Start().pending == [] && ITEM !in LruMachine.Start().w.s.meta
    ensures |LruMachine.Start().crawls| == CLASSES
    ensures forall id :: 0 <= id < CLASSES ==> !LruMachine.Start().crawls[id].running
  {
    StartInv();
  }

  lemma AllocFacts(m: Sys, id: nat, exptime: int)
    requires ITEM !in m.w.s.meta && ITEM !in m.busy && id < CLASSES && Times(m.pending, ITEM) == 0
    ensures var step := LruMachine.Alloc(ITEM, id, 100, exptime, 0);
      Enabled(m, step) && var m' := Apply(m, step);
        && m'.w.lists == m.w.lists && m'.busy == m.busy && m'.crawls == m.crawls && m'.w.s.Owner(ITEM) == id
        && Enabled(m', LruMachine.LinkFlag(ITEM, 0)) && m'.w.s.meta[ITEM].exptime == exptime &&
            !m'.w.s.meta[ITEM].active
  {}

  lemma FlagFacts(m: Sys)
    requires Enabled(m, LruMachine.LinkFlag(ITEM, 0))
    ensures var m' := Apply(m, LruMachine.LinkFlag(ITEM, 0));
      && m'.w.lists == m.w.lists && At(m', ITEM, Linking) && m'.busy == m.busy[ITEM := Linking] && m'.crawls == m.crawls
      && m'.w.s.Owner(ITEM) == m.w.s.Owner(ITEM) && m'.w.s.meta[ITEM] == m.w.s.meta[ITEM].(linked := true, time := 0)
  {}

  lemma ListFacts(m: Sys)
    requires Enabled(m, LruMachine.LinkList(ITEM))
    ensures var m' := Apply(m, LruMachine.LinkList(ITEM)); var id := m.w.s.Owner(ITEM);
      && id < |m.w.lists| && m'.w.lists == m.w.lists[id := [ITEM] + m.w.lists[id]] && m'.crawls == m.crawls
      && At(m', ITEM, Counting) && m'.busy == m.busy[ITEM := Counting] && m'.w.s.meta == m.w.s.meta
  {
    hide LinkAsserts, Attach;
    AttachFacts(m.w, ITEM);
  }

  lemma CountFacts(m: Sys)
    requires Enabled(m, LruMachine.LinkCount(ITEM))
    ensures var m' := Apply(m, LruMachine.LinkCount(ITEM)); var t := m.w.s.meta[ITEM];
      && m'.w.lists == m.w.lists && m'.busy == m.busy - {ITEM} && m'.crawls == m.crawls
      && ITEM in m'.w.s.meta && m'.w.s.meta[ITEM] == t.(refcount := t.refcount + 1)
  {}

  lemma OneItemState(id: nat, exptime: int) returns (m: Sys)
    requires id < CLASSES
    ensures Took(LruMachine.Start(), OneItem(id, exptime), m) && Inv(m) && m.busy == map[]
    ensures |m.w.lists| == |m.crawls| == CLASSES
    ensures m.w.lists[id] == [ITEM] && ITEM in m.w.s.meta && m.w.s.meta[ITEM].exptime == exptime
    ensures !m.w.s.meta[ITEM].active
    ensures !m.crawls[id].running
  {
    hide Inv, Enabled, Apply, Took;
    StartFacts();
    var m0 := LruMachine.Start();
    var x, y, z, w := LruMachine.Alloc(ITEM, id, 100, exptime, 0), LruMachine.LinkFlag(ITEM, 0),
        LruMachine.LinkList(ITEM), LruMachine.LinkCount(ITEM);
    AllocFacts(m0, id, exptime);
    TookOne(m0, x);
    StepInv(m0, x);
    var m1 := Apply(m0, x);
    FlagFacts(m1);
    TookSnoc(m0, [x], m1, y);
    StepInv(m1, y);
    var m2 := Apply(m1, y);
    CanGoOn(m2, ITEM, z);
    ListFacts(m2);
    TookSnoc(m0, [x] + [y], m2, z);
    StepInv(m2, z);
    var m3 := Apply(m2, z);
    CanGoOn(m3, ITEM, w);
    CountFacts(m3);
    TookSnoc(m0, [x] + [y] + [z], m3, w);
    StepInv(m3, w);
    m := Apply(m3, w);
    assert [ITEM] + [] == [ITEM];
    assert map[][ITEM := Linking][ITEM := Counting] - {ITEM} == map[];
  }

  /** LRU_PULL_CRAWL_BLOCKS on the list [crawler, expired item]. */
  const BLOCKING: Pull := Pull(1, HOT, 0, false, true, false, 0, 10, 0, 0, true, true, _ => false, _ => true)

  /** It is reached: the item is linked, a crawl is started, and takes one turn. */
  lemma BlockedWitness() returns (steps: seq<Step>, m: Sys)
    ensures Took(LruMachine.Start(), steps, m) && BLOCKING.Valid() && LocksTaken(BLOCKING, m)
    ensures |m.w.lists| == CLASSES && m.w.lists[1] == [CrawlerOf(1), ITEM] && HidesChange(BLOCKING, m.w, m.w.lists[1])
  {
    hide Inv, Enabled, Apply, Took;
    var m4 := OneItemState(1, 5);
    LruCrawler.CanStart(m4, 1, Crawler.Cap);
    var m5 := Apply(m4, CrawlStart(1, Crawler.Cap));
    StepInv(m4, CrawlStart(1, Crawler.Cap));
    StartedFacts(m4);
    TookSnoc(LruMachine.Start(), OneItem(1, 5), m4, CrawlStart(1, Crawler.Cap));
    LruCrawler.CanTurn(m5, 1);
    TurnedOnce(m5);
    m := Apply(m5, CrawlTurn(1));
    steps := OneItem(1, 5) + [CrawlStart(1, Crawler.Cap)] + [CrawlTurn(1)];
    TookSnoc(LruMachine.Start(), OneItem(1, 5) + [CrawlStart(1, Crawler.Cap)], m5, CrawlTurn(1));
    var list := m.w.lists[1];
    assert list[1..] == [ITEM] && [ITEM][1..] == [];
    assert Count([ITEM]) == 1;
    assert GetsTo(BLOCKING, m.w, list, 1);
    assert ITEM in list[1..] && LocksOne(BLOCKING, list, 1);
    assert IsCrawler(list[1 - 1]);
  }

  lemma StartedFacts(m: Sys)
    requires Inv(m) && Enabled(m, CrawlStart(1, Crawler.Cap)) && |m.w.lists| == CLASSES && m.w.lists[1] == [ITEM]
    ensures var m' := Apply(m, CrawlStart(1, Crawler.Cap));
      && |m'.w.lists| == |m'.crawls| == CLASSES && m'.w.lists[1] == [ITEM, CrawlerOf(1)] && m'.w.s.meta == m.w.s.meta
      && m'.crawls[1] == CrawlState(true, 2, [], []) && m'.busy == m.busy
  {
    LruCrawler.Started(m, 1, Crawler.Cap);
    hide OkW, CanJoin;
    JoinedFacts(m.w, 1);
  }

  lemma TurnedOnce(m: Sys)
    requires Inv(m) && Enabled(m, CrawlTurn(1)) && |m.w.lists| == CLASSES && m.w.lists[1] == [ITEM, CrawlerOf(1)]
    requires |m.crawls| == CLASSES && m.crawls[1] == CrawlState(true, 2, [], [])
    ensures var m' := Apply(m, CrawlTurn(1));
      |m'.w.lists| == CLASSES && m'.w.lists[1] == [CrawlerOf(1), ITEM] && m'.w.s.meta == m.w.s.meta && m'.busy == m.busy
  {
    hide OkW, CanCrawl, Turned;
    var list := [ITEM, CrawlerOf(1)];
    assert IndexOf(list, CrawlerOf(1)) == 1 by { assert list[1..][0] == CrawlerOf(1); }
    assert Swapped(list, 1) == [CrawlerOf(1), ITEM];
    TurnedFacts(m.w, 1, false);
  }

  /** The item before the crawler, its flag cleared, and the crawl under way. */
  lemma UnlinkingWitness() returns (steps: seq<Step>, m: Sys)
    ensures Took(LruMachine.Start(), steps, m) && Inv(m)
    ensures |m.w.lists| == CLASSES && m.w.lists[1] == [ITEM, CrawlerOf(1)]
    ensures Enabled(m, CrawlQuit(1)) && Enabled(m, LruMachine.UnlinkList(ITEM))
  {
    hide Inv, Enabled, Apply, Took;
    var m4 := OneItemState(1, 5);
    LruCrawler.CanStart(m4, 1, Crawler.Cap);
    var m5 := Apply(m4, CrawlStart(1, Crawler.Cap));
    StepInv(m4, CrawlStart(1, Crawler.Cap));
    StartedFacts(m4);
    TookSnoc(LruMachine.Start(), OneItem(1, 5), m4, CrawlStart(1, Crawler.Cap));
    ItemIsLinked(m5);
    m := Apply(m5, LruMachine.UnlinkFlag(ITEM));
    StepInv(m5, LruMachine.UnlinkFlag(ITEM));
    ClearedFacts(m5);
    steps := OneItem(1, 5) + [CrawlStart(1, Crawler.Cap)] + [LruMachine.UnlinkFlag(ITEM)];
    TookSnoc(LruMachine.Start(), OneItem(1, 5) + [CrawlStart(1, Crawler.Cap)], m5, LruMachine.UnlinkFlag(ITEM));
    CanGoOn(m, ITEM, LruMachine.UnlinkList(ITEM));
    LruCrawler.CanQuit(m, 1);
  }

  lemma ItemIsLinked(m: Sys)
    requires Inv(m) && |m.w.lists| == CLASSES && m.w.lists[1] == [ITEM, CrawlerOf(1)] && m.busy == map[]
    requires ITEM in m.w.s.meta
    ensures Enabled(m, LruMachine.UnlinkFlag(ITEM))
  {
    assert m.w.lists[1][0] == ITEM;
    assert Odd(m.busy) == {};
    assert FlagOk(m.w.s, m.w.lists, {}, ITEM);
    assert ListOk(m.w.s, m.w.lists, 1);
    assert RefOk(m.w.s, m.w.held, ITEM);
  }

  lemma ClearedFacts(m: Sys)
    requires Enabled(m, LruMachine.UnlinkFlag(ITEM))
    ensures var m' := Apply(m, LruMachine.UnlinkFlag(ITEM));
      m'.w.lists == m.w.lists && At(m', ITEM, Unlinking) && m'.crawls == m.crawls
  {}

  /** The pointers spell no sequence at all. */
  ghost predicate Broken(l: List) { forall t :: !Dll(l, t) }

  /** A reachable state in which a crawler that leaves without the list lock and an
  unlink that comes after its first statement leave such a list: its head is the
  crawler, and it has no tail. */
  lemma RaceWitness() returns (steps: seq<Step>, m: Sys)
    ensures Took(LruMachine.Start(), steps, m) && Inv(m) && |m.w.lists| == CLASSES && m.w.s.Shaped()
    ensures Enabled(m, CrawlQuit(1)) && Enabled(m, LruMachine.UnlinkList(ITEM))
    ensures m.w.lists[1] == [ITEM, CrawlerOf(1)] && Dll(m.w.s.At(1), m.w.lists[1]) && Clash(2, 1, 1, Off(0))
    ensures Broken(Raced(m.w.s.At(1), m.w.lists[1], 1, 1, Off(0)))
  {
    hide Inv, Enabled, Took;
    steps, m := UnlinkingWitness();
    ListIsDll(m, 1);
    PairBreaks(m.w.s.At(1), m.w.lists[1]);
  }

  lemma ListIsDll(m: Sys, id: nat)
    requires Inv(m) && id < CLASSES && |m.w.lists| == CLASSES
    ensures m.w.s.Shaped() && Dll(m.w.s.At(id), m.w.lists[id])
  {
    assert ListOk(m.w.s, m.w.lists, id);
  }

  lemma PairBreaks(l: List, s: seq<Addr>)
    requires Dll(l, s) && |s| == 2
    ensures Broken(Raced(l, s, 1, 1, Off(0)))
  {
    PairInList(l, s, 0);
    KeysKept(l, s, 1, 1, Off(0));
    var f := Raced(l, s, 1, 1, Off(0));
    Unrolled(l, s[1], 1);
    Unrolled(Unlink(LruRace.Statement(l, s[1], 0), s[0]), s[1], 1);
    assert f.head == s[1] && f.tail == NULL by { hide Statements; }
    forall t ensures !Dll(f, t) { NoTail(f, t); }
  }

  /** Every call can meet a list at whose item its walk stops; with
  LRU_PULL_RETURN_ITEM outside COLD, or with LRU_PULL_EVICT, it leaks there. */
  lemma FindsWitness(p: Pull) returns (steps: seq<Step>, m: Sys)
    requires p.Valid() && 0 < p.origId && p.canLock(ITEM) && !p.flushed(ITEM)
    ensures Took(LruMachine.Start(), steps, m) && Inv(m) && LocksTaken(p, m)
    ensures p.Id() < |m.w.lists| && Finds(p, m.w, m.w.lists[p.Id()])
  {
    hide Inv, Took;
    steps := OneItem(p.Id(), 0);
    m := OneItemState(p.Id(), 0);
    var list := m.w.lists[p.Id()];
    assert list[1..] == [];
    assert GetsTo(p, m.w, list, 1) && !IsCrawler(list[1 - 1]) && !Passes(p, m.w, list[1 - 1]);
  }
}

/** The crawler thread at work on the lists of the cache, and what a crawl sees of
everything the other threads do meanwhile. */
module LruCrawler {
  import opened Basics
  import opened LruList
  import opened LruState
  import opened LruWorld
  import opened LruCrawl
  import opened LruMachine
  import opened LruRuns
  import opened Lru
  import Crawler

  /** What the crawl of class id sees of a step: links and unlinks in its list,
  and its own turns. */
  function Shadow(m: Sys, step: Step, id: nat): seq<Crawler.Step> {
    match step
    case LinkList(a) => if m.w.s.Owner(a) == id then [Crawler.LinkItem(a)] else []
    case UnlinkList(a) => if m.w.s.Owner(a) == id then [Crawler.UnlinkItem(a)] else []
    case MoveOff(a) => if m.w.s.Owner(a) == id then [Crawler.UnlinkItem(a)] else []
    case MoveOn(a, to, _) => if to == id then [Crawler.LinkItem(a)] else []
    case CrawlTurn(i) => if i == id then [Crawler.CrawlStep] else []
    case CrawlQuit(i) => if i == id then [Crawler.Quit] else []
    case _ => []
  }

  lemma OneStep(c: Addr, s: Crawler.Sys, step: Crawler.Step)
    requires Crawler.Enabled(c, s, step) && (step.CrawlStep? ==> c in s.list)
    ensures Crawler.IsRun(c, s, [step]) && Crawler.Final(c, s, [step]) == Crawler.Apply(c, s, step)
  {
    assert [step][1..] == [];
  }

  lemma LinkShadow(w: World, a: Addr, id: nat, transit: set<Addr>)
    requires OkW(w, transit) && a in w.s.meta && w.s.meta[a].linked == (a in transit) && id < CLASSES
    ensures CanAttach(w, a) && |w.lists| == CLASSES
    ensures Attach(w, a).lists[id] == if w.s.Owner(a) == id then [a] + w.lists[id] else w.lists[id]
    ensures a != CrawlerOf(id) && a !in w.lists[w.s.Owner(a)]
  {
    OwnerKnown(w, a, transit);
    CanAttachOk(w, a, transit);
    AttachFacts(w, a);
  }

  lemma UnlinkShadow(w: World, a: Addr, id: nat, transit: set<Addr>)
    requires OkW(w, transit) && a in w.s.meta && w.s.meta[a].linked != (a in transit) && id < CLASSES
    ensures CanDetach(w, a) && |w.lists| == CLASSES && a in w.lists[w.s.Owner(a)] && a != CrawlerOf(id)
    ensures Detach(w, a).lists[id] == if w.s.Owner(a) == id then Crawler.Remove(w.lists[id], a) else w.lists[id]
  {
    OwnerKnown(w, a, transit);
    CanDetachOk(w, a, transit);
    DetachFacts(w, a);
  }

  /** Linking and unlinking are the other steps of the crawl machine. */
  lemma LinkIsStep(m: Sys, step: Step, id: nat)
    requires Inv(m) && Enabled(m, step) && id < CLASSES && (step.LinkList? || step.MoveOn?)
    ensures |m.crawls| == |m.w.lists| == |Apply(m, step).crawls| == |Apply(m, step).w.lists| == CLASSES
    ensures Crawler.IsRun(CrawlerOf(id), View(m, id), Shadow(m, step, id))
    ensures Crawler.Final(CrawlerOf(id), View(m, id), Shadow(m, step, id)) == View(Apply(m, step), id)
  {
    hide OkW, CanAttach, Attach, Odd, Crawler.Remove;
    var c, s := CrawlerOf(id), View(m, id);
    var transit := Odd(m.busy);
    Disagree(m, step.a);
    if step.LinkList? {
      LinkShadow(m.w, step.a, id, transit);
      AttachFacts(m.w, step.a);
      if m.w.s.Owner(step.a) == id { OneStep(c, s, Crawler.LinkItem(step.a)); }
    } else {
      ReclassKeeps(m.w, step.a, step.id, step.active, transit);
      LinkShadow(Reclass(m.w, step.a, step.id, step.active), step.a, id, transit);
      AttachFacts(Reclass(m.w, step.a, step.id, step.active), step.a);
      if step.id == id { OneStep(c, s, Crawler.LinkItem(step.a)); }
    }
  }

  lemma UnlinkIsStep(m: Sys, step: Step, id: nat)
    requires Inv(m) && Enabled(m, step) && id < CLASSES && (step.UnlinkList? || step.MoveOff?)
    ensures |m.crawls| == |m.w.lists| == |Apply(m, step).crawls| == |Apply(m, step).w.lists| == CLASSES
    ensures Crawler.IsRun(CrawlerOf(id), View(m, id), Shadow(m, step, id))
    ensures Crawler.Final(CrawlerOf(id), View(m, id), Shadow(m, step, id)) == View(Apply(m, step), id)
  {
    hide OkW, CanDetach, Detach, Odd, Crawler.Remove;
    var c, s := CrawlerOf(id), View(m, id);
    if step.UnlinkList? { Disagree(m, step.a); } else { NotOdd(m, step.a); }
    UnlinkShadow(m.w, step.a, id, Odd(m.busy));
    DetachFacts(m.w, step.a);
    if m.w.s.Owner(step.a) == id { OneStep(c, s, Crawler.UnlinkItem(step.a)); }
  }

  lemma Disagree(m: Sys, a: Addr)
    requires Inv(m) && a in m.busy
    ensures a in m.w.s.meta
    ensures m.busy[a] in {Linking, Moving} ==> m.w.s.meta[a].linked && a in Odd(m.busy)
    ensures m.busy[a] == Unlinking ==> !m.w.s.meta[a].linked && a in Odd(m.busy)
  {
    hide OkW;
    assert StageOk(m, a);
  }

  /** Flags, counts and bumps, and the other crawlers, are not seen. */
  lemma QuietSteps(m: Sys, step: Step, id: nat)
    requires Inv(m) && Enabled(m, step) && id < CLASSES
    requires !step.LinkList? && !step.UnlinkList? && !step.MoveOff? && !step.MoveOn?
    requires step.CrawlStart? ==> step.id != id
    requires step.CrawlTurn? || step.CrawlQuit? ==> step.id != id
    ensures |m.crawls| == |m.w.lists| == |Apply(m, step).crawls| == |Apply(m, step).w.lists| == CLASSES
    ensures View(Apply(m, step), id) == View(m, id)
  {
    hide OkW, CanCrawl, Turned, CanJoin, Joined, CanLeave, Left, Hold, Drop, Touch, SetLinked, ClearLinked, NewItem;
    ItemListsSame(m, step);
    if step.CrawlQuit? {
      CanLeaveFacts(m.w, step.id);
      LeftFacts(m.w, step.id);
    }
    if step.CrawlTurn? {
      TurnShape(m, step.id);
      TurnedFacts(m.w, step.id, !Crawler.CrawlOnce(CrawlerOf(step.id), View(m, step.id)).running);
    }
    if step.CrawlStart? { JoinedFacts(m.w, step.id); }
  }

  /** A step on the record of an item leaves the lists as they are. */
  lemma ItemListsSame(m: Sys, step: Step)
    requires Enabled(m, step)
    ensures step.LinkList? || step.UnlinkList? || step.MoveOff? || step.MoveOn? || step.CrawlStart? ||
        step.CrawlTurn? ||
      step.CrawlQuit? || (Apply(m, step).w.lists == m.w.lists && Apply(m, step).crawls == m.crawls)
  {
    hide CanCrawl, CanJoin, CanLeave, CanAttach, CanDetach;
  }

  lemma TurnShape(m: Sys, id: nat)
    requires Inv(m) && Enabled(m, CrawlTurn(id))
    ensures |m.crawls| == |m.w.lists| == CLASSES && CrawlerOf(id) in m.w.lists[id]
  {}

  lemma TurnIsStep(m: Sys, id: nat)
    requires Inv(m) && Enabled(m, CrawlTurn(id))
    ensures |m.crawls| == |m.w.lists| == |Apply(m, CrawlTurn(id)).crawls| == |Apply(m, CrawlTurn(id)).w.lists| ==
        CLASSES
    ensures CrawlerOf(id) in m.w.lists[id]
    ensures View(Apply(m, CrawlTurn(id)), id) == Crawler.CrawlOnce(CrawlerOf(id), View(m, id))
  {
    hide OkW, CanCrawl, Turned, Swapped, Crawler.Remove, IndexOf;
    TurnShape(m, id);
    var v := Crawler.CrawlOnce(CrawlerOf(id), View(m, id));
    ListsKnown(m.w, id, Odd(m.busy));
    Crawler.CrawlInv(CrawlerOf(id), View(m, id));
    TurnedFacts(m.w, id, !v.running);
  }

  lemma QuitIsStep(m: Sys, id: nat)
    requires Inv(m) && Enabled(m, CrawlQuit(id))
    ensures |m.crawls| == |m.w.lists| == |Apply(m, CrawlQuit(id)).crawls| == |Apply(m, CrawlQuit(id)).w.lists| ==
        CLASSES
    ensures View(m, id).running && View(Apply(m, CrawlQuit(id)), id) == Crawler.ClassDone(CrawlerOf(id), View(m, id))
  {
    hide OkW, CanLeave, Left, Crawler.Remove;
    CanLeaveFacts(m.w, id);
    LeftFacts(m.w, id);
  }

  /** Every step of every thread is at most one step of the crawl machine of a
  class, and leaves its state as that machine says. */
  lemma StepShadow(m: Sys, step: Step, id: nat)
    requires Inv(m) && Enabled(m, step) && id < CLASSES && (step.CrawlStart? ==> step.id != id)
    ensures |m.crawls| == |m.w.lists| == |Apply(m, step).crawls| == |Apply(m, step).w.lists| == CLASSES
    ensures Crawler.IsRun(CrawlerOf(id), View(m, id), Shadow(m, step, id))
    ensures Crawler.Final(CrawlerOf(id), View(m, id), Shadow(m, step, id)) == View(Apply(m, step), id)
  {
    hide Inv, Enabled, Apply;
    if step.LinkList? || step.MoveOn? {
      LinkIsStep(m, step, id);
    } else if step.UnlinkList? || step.MoveOff? {
      UnlinkIsStep(m, step, id);
    } else if step == CrawlTurn(id) {
      TurnIsStep(m, id);
      RunningView(m, id);
      OneStep(CrawlerOf(id), View(m, id), Crawler.CrawlStep);
    } else if step == CrawlQuit(id) {
      QuitIsStep(m, id);
      OneStep(CrawlerOf(id), View(m, id), Crawler.Quit);
    } else {
      QuietSteps(m, step, id);
    }
  }

  lemma RunningView(m: Sys, id: nat)
    requires Enabled(m, CrawlTurn(id))
    ensures id < |m.crawls| && id < |m.w.lists| && View(m, id).running
  {}

  lemma {:induction false} RunConcat(c: Addr, s: Crawler.Sys, t: seq<Crawler.Step>, u: seq<Crawler.Step>)
    requires Crawler.IsRun(c, s, t) && Crawler.IsRun(c, Crawler.Final(c, s, t), u)
    ensures Crawler.IsRun(c, s, t + u) && Crawler.Final(c, s, t + u) == Crawler.Final(c, Crawler.Final(c, s, t), u)
    decreases |t|
  {
    hide Crawler.Apply, Crawler.Enabled;
    if t == [] {
      assert t + u == u;
    } else {
      assert (t + u)[1..] == t[1..] + u;
      RunConcat(c, Crawler.Apply(c, s, t[0]), t[1..], u);
    }
  }

  /** No crawl of the class is started. */
  predicate NoStart(steps: seq<Step>, id: nat) {
    forall i :: 0 <= i < |steps| ==> !(steps[i].CrawlStart? && steps[i].id == id)
  }

  /** A run of the LRU, seen from a class, is a run of its crawl machine, in which
  an item is unlinked only by an unlink or a move in the LRU. */
  lemma {:induction false} RunShadow(m: Sys, steps: seq<Step>, m': Sys, id: nat, x: Addr)
    returns (seen: seq<Crawler.Step>)
    requires Inv(m) && Took(m, steps, m') && id < CLASSES && NoStart(steps, id)
    ensures |m.crawls| == |m.w.lists| == |m'.crawls| == |m'.w.lists| == CLASSES
    ensures Crawler.IsRun(CrawlerOf(id), View(m, id), seen)
    ensures Crawler.Final(CrawlerOf(id), View(m, id), seen) == View(m', id)
    ensures UnlinkList(x) !in steps && MoveOff(x) !in steps ==> Crawler.UnlinkItem(x) !in seen
    ensures CrawlQuit(id) !in steps ==> Crawler.Quit !in seen
    decreases |steps|
  {
    hide Inv, Enabled, Apply, View, Crawler.IsRun, Crawler.Final;
    if steps == [] {
      ShapeKnown(m);
      NoRun(CrawlerOf(id), View(m, id));
      return [];
    }
    StepShadow(m, steps[0], id);
    StepInv(m, steps[0]);
    assert NoStart(steps[1..], id);
    var rest := RunShadow(Apply(m, steps[0]), steps[1..], m', id, x);
    RunConcat(CrawlerOf(id), View(m, id), Shadow(m, steps[0], id), rest);
    seen := Shadow(m, steps[0], id) + rest;
    assert forall step :: step in steps[1..] ==> step in steps;
    assert steps[0] in steps;
  }

  lemma NoRun(c: Addr, s: Crawler.Sys)
    ensures Crawler.IsRun(c, s, []) && Crawler.Final(c, s, []) == s
  {}

  lemma ShapeKnown(m: Sys)
    requires Inv(m)
    ensures |m.crawls| == |m.w.lists| == CLASSES
  {}

  /** The crawl that has just been started. */
  lemma Started(m: Sys, id: nat, request: Crawler.Request)
    requires Inv(m) && Enabled(m, CrawlStart(id, request))
    ensures |m.w.lists| == |m.crawls| == |Apply(m, CrawlStart(id, request)).w.lists| == CLASSES && id < CLASSES
    ensures |Apply(m, CrawlStart(id, request)).crawls| == CLASSES
    ensures View(Apply(m, CrawlStart(id, request)), id) == Crawler.Start(CrawlerOf(id), m.w.lists[id], request)
    ensures Distinct(m.w.lists[id]) && CrawlerOf(id) !in m.w.lists[id]
  {
    ListsKnown(m.w, id, Odd(m.busy));
    hide OkW;
    JoinedFacts(m.w, id);
  }

  /** While the cache runs: an item that is in the list when its crawl starts, and
  is not unlinked or moved until the crawler has reached the head, is returned
  exactly once, whatever the threads do to the other items. */
  lemma CrawlInRun(m: Sys, id: nat, request: Crawler.Request, steps: seq<Step>, m': Sys, x: Addr)
    requires Inv(m) && Enabled(m, CrawlStart(id, request)) && x in m.w.lists[id]
    requires Took(Apply(m, CrawlStart(id, request)), steps, m') && NoStart(steps, id)
    requires UnlinkList(x) !in steps && MoveOff(x) !in steps && CrawlQuit(id) !in steps
    requires id < |m'.crawls| && id < |m'.w.lists| && !m'.crawls[id].running
    requires Crawler.ReachedHead(View(m', id), Crawler.Limit(m.w.lists[id], request))
    ensures Times(m'.crawls[id].returned, x) == 1
  {
    Started(m, id, request);
    StepInv(m, CrawlStart(id, request));
    var seen := RunShadow(Apply(m, CrawlStart(id, request)), steps, m', id, x);
    hide Inv, Enabled, Apply, Took;
    Crawler.CrawlVisitsOnce(CrawlerOf(id), m.w.lists[id], request, seen, x);
  }

  /** While the cache runs: a crawl with a limit of n examines at most n items. */
  lemma CrawlInRunExamines(m: Sys, id: nat, request: Crawler.Request, steps: seq<Step>, m': Sys)
    requires Inv(m) && Enabled(m, CrawlStart(id, request))
    requires Took(Apply(m, CrawlStart(id, request)), steps, m') && NoStart(steps, id) && id < |m'.crawls|
    ensures var n := Crawler.Limit(m.w.lists[id], request);
      if n == 0 then m'.crawls[id].examined == m'.crawls[id].returned else |m'.crawls[id].examined| <= n
  {
    Started(m, id, request);
    StepInv(m, CrawlStart(id, request));
    var seen := RunShadow(Apply(m, CrawlStart(id, request)), steps, m', id, NULL);
    hide Inv, Enabled, Apply, Took;
    Crawler.CrawlExamines(CrawlerOf(id), m.w.lists[id], request, seen);
  }

  predicate Quiet(step: Step) { !step.CrawlStart? && !step.CrawlTurn? && !step.CrawlQuit? }

  /** What is done to items changes no crawler's record. */
  lemma {:induction false} QuietRun(m: Sys, steps: seq<Step>, m': Sys)
    requires Took(m, steps, m') && forall i :: 0 <= i < |steps| ==> Quiet(steps[i])
    ensures m'.crawls == m.crawls
    decreases |steps|
  {
    if steps != [] {
      QuietStep(m, steps[0]);
      hide Enabled, Apply;
      QuietRun(Apply(m, steps[0]), steps[1..], m');
    }
  }

  lemma QuietStep(m: Sys, step: Step)
    requires Enabled(m, step) && Quiet(step)
    ensures Apply(m, step).crawls == m.crawls
  {}

  /** The fields of a crawler pseudo-item that are not list pointers. */
  datatype Control = Control(enabled: bool, remaining: nat)

  class Crawlers {
    const cache: Cache
    /** crawlers[] and crawler_count. */
    var crawlers: seq<Control>
    var count: int

    ghost predicate Valid()
      reads this, cache
    {
      && cache.Valid() && |crawlers| == |cache.m.crawls|
      && (forall id :: 0 <= id < |crawlers| ==>
            crawlers[id] == Control(cache.m.crawls[id].running, cache.m.crawls[id].remaining))
      && count == Awake(crawlers)
    }

    constructor (c: Cache)
      requires c.Valid() && c.m.crawls == LruMachine.Start().crawls
      ensures Valid() && cache == c && count == 0
    {
      cache := c;
      crawlers := seq(CLASSES, _ => Control(false, 0));
      count := 0;
      new;
      NoneEnabled(crawlers);
    }

    /** Whatever a method of the cache does to items, the crawlers stay as they are. */
    twostate lemma Undisturbed(steps: seq<Step>)
      requires old(Valid()) && cache.Valid() && unchanged(this)
      requires Took(old(cache.m), steps, cache.m) && forall i :: 0 <= i < |steps| ==> Quiet(steps[i])
      ensures Valid()
    {
      QuietRun(old(cache.m), steps, cache.m);
    }

    /** do_lru_crawler_start. */
    method Start(id: nat, request: Crawler.Request) returns (starts: nat)
      requires Valid() && id < CLASSES
      modifies this, cache
      ensures Valid() && starts == if old(crawlers[id].enabled) then 0 else 1
      ensures if starts == 0 then cache.m == old(cache.m)
              else
                Enabled(old(cache.m), CrawlStart(id, request)) &&
                cache.m == Apply(old(cache.m), CrawlStart(id, request))
    {
      hide Inv, LinkTail, Awake, LinkAsserts;
      starts := 0;
      ghost var m := cache.m;
      ShapeKnown(m);
      if !crawlers[id].enabled {
        CanStart(m, id, request);
        StartSize(m, id, request);
        StepInv(m, CrawlStart(id, request));
        var limit := match request case Cap => cache.s.sizes[id] case Upto(n) => n;
        var me := Control(true, if limit > 0 then limit + 1 else 0);
        AwakeUpdate(crawlers, id, me);
        crawlers := crawlers[id := me];
        cache.LinkTailPointers(CrawlerOf(id), id);
        cache.m := Apply(m, CrawlStart(id, request));
        count := count + 1;
        starts := 1;
      }
    }

    /** One turn of the crawler thread's loop for class id, up to the decision to
    go on with the item found. */
    method Step(id: nat) returns (found: Addr)
      requires Valid() && id < CLASSES && crawlers[id].enabled
      modifies this, cache
      ensures Valid() && Enabled(old(cache.m), CrawlTurn(id)) && cache.m == Apply(old(cache.m), CrawlTurn(id))
      ensures found != NULL ==> found in cache.s.meta && (cache.s.meta[found].linked <==> found !in Odd(cache.m.busy))
      ensures crawlers[id].enabled ==>
        id < |old(cache.m.crawls)| && cache.m.crawls[id].examined == old(cache.m.crawls[id].examined) + [found]
    {
      hide Inv, Crawl, Unlink, CrawlAsserts, UnlinkAsserts, Awake, Enabled, Apply;
      ghost var m := cache.m;
      ShapeKnown(m);
      CanTurn(m, id);
      TurnFinds(m, id);
      StepInv(m, CrawlTurn(id));
      found := cache.CrawlPointers(CrawlerOf(id), id);
      var me := crawlers[id];
      var done := found == NULL;
      if found != NULL && me.remaining > 0 {
        me := me.(remaining := me.remaining - 1);
        done := me.remaining < 1;
      }
      if done {
        // lru_crawler_class_done
        me := me.(enabled := false);
        count := count - 1;
        assert UnlinkAsserts(cache.s.At(id), CrawlerOf(id));
        UnlinkTailQ(cache, id);
      }
      AwakeUpdate(crawlers, id, me);
      crawlers := crawlers[id := me];
      cache.m := Apply(m, CrawlTurn(id));
    }

    /** lru_crawler_class_done for a class whose client is gone. The source holds
    no list lock here; this is the run in which no other thread comes between. */
    method Quit(id: nat)
      requires Valid() && id < CLASSES && crawlers[id].enabled
      modifies this, cache
      ensures Valid() && Enabled(old(cache.m), CrawlQuit(id)) && cache.m == Apply(old(cache.m), CrawlQuit(id))
      ensures !crawlers[id].enabled
    {
      hide Inv, Unlink, UnlinkAsserts, Awake, Enabled, Apply;
      ghost var m := cache.m;
      ShapeKnown(m);
      CanQuit(m, id);
      QuitLeaves(m, id);
      StepInv(m, CrawlQuit(id));
      var me := crawlers[id].(enabled := false);
      count := count - 1;
      UnlinkTailQ(cache, id);
      AwakeUpdate(crawlers, id, me);
      crawlers := crawlers[id := me];
      cache.m := Apply(m, CrawlQuit(id));
    }
  }

  lemma CanQuit(m: Sys, id: nat)
    requires Inv(m) && id < |m.crawls| && m.crawls[id].running
    ensures Enabled(m, CrawlQuit(id)) && id < CLASSES && m.w.s.Shaped() && UnlinkAsserts(m.w.s.At(id), CrawlerOf(id))
  {
    LeftOk(m.w, id, Odd(m.busy));
  }

  lemma QuitLeaves(m: Sys, id: nat)
    requires Enabled(m, CrawlQuit(id))
    ensures id < CLASSES && m.w.s.Shaped() && id < |m.crawls|
    ensures var m' := Apply(m, CrawlQuit(id));
      && CrawlerOf(id) in m.w.s.next && CrawlerOf(id) in m.w.s.prev
      && m'.w.s == m.w.s.SetList(id, Unlink(m.w.s.At(id), CrawlerOf(id)))
      && m'.crawls == m.crawls[id := m.crawls[id].(running := false)]
  {
    hide Unlink;
  }

  /** do_item_unlinktail_q. */
  method UnlinkTailQ(c: Cache, id: nat)
    requires c.s.Shaped() && id < CLASSES && UnlinkAsserts(c.s.At(id), CrawlerOf(id))
    modifies c`s
    ensures c.s == old(c.s).SetList(id, Unlink(old(c.s).At(id), CrawlerOf(id)))
  {
    hide Unlink;
    c.UnlinkPointers(CrawlerOf(id), id);
  }

  lemma CanStart(m: Sys, id: nat, request: Crawler.Request)
    requires Inv(m) && id < CLASSES && id < |m.crawls| && !m.crawls[id].running
    ensures Enabled(m, CrawlStart(id, request)) && m.w.s.Shaped() && LinkAsserts(m.w.s.At(id), CrawlerOf(id))
  {
    JoinedOk(m.w, id, Odd(m.busy));
  }

  lemma CanTurn(m: Sys, id: nat)
    requires Inv(m) && id < |m.crawls| && m.crawls[id].running
    ensures Enabled(m, CrawlTurn(id)) && id < CLASSES && m.w.s.Shaped() && CrawlAsserts(m.w.s.At(id), CrawlerOf(id))
  {
    CrawledOk(m.w, id, Odd(m.busy));
  }

  /** What the record of a crawl says after a turn that handed out `found`. */
  function After(c: CrawlState, found: Addr): CrawlState {
    if found == NULL then c.(running := false)
    else
      var remaining := if c.remaining > 0 then c.remaining - 1 else 0;
      var done := c.remaining > 0 && remaining < 1;
      CrawlState(!done, remaining, c.returned + [found], if done then c.examined else c.examined + [found])
  }

  /** The pointers after a turn. */
  function Swung(s: State, id: nat, done: bool): State
    requires s.Shaped() && id < CLASSES && CrawlAsserts(s.At(id), CrawlerOf(id))
    requires UnlinkAsserts(Crawl(s.At(id), CrawlerOf(id)).0, CrawlerOf(id))
  {
    var s1 := s.SetList(id, Crawl(s.At(id), CrawlerOf(id)).0);
    if done then s1.SetList(id, Unlink(s1.At(id), CrawlerOf(id))) else s1
  }

  lemma TurnFinds(m: Sys, id: nat)
    requires Inv(m) && Enabled(m, CrawlTurn(id)) && id < CLASSES && m.w.s.Shaped()
    requires CrawlAsserts(m.w.s.At(id), CrawlerOf(id))
    ensures var l := Crawl(m.w.s.At(id), CrawlerOf(id));
      && UnlinkAsserts(l.0, CrawlerOf(id)) && id < |m.crawls|
      && (l.1 != NULL ==> l.1 in m.w.s.meta && (m.w.s.meta[l.1].linked <==> l.1 !in Odd(m.busy)))
      && Apply(m, CrawlTurn(id)).crawls == m.crawls[id := After(m.crawls[id], l.1)]
      && Apply(m, CrawlTurn(id)).w.s == Swung(m.w.s, id, !After(m.crawls[id], l.1).running)
      && Apply(m, CrawlTurn(id)).busy == m.busy
  {
    hide OkW, Crawl, Unlink, UnlinkAsserts, Turned, Crawled;
    TurnShape(m, id);
    CrawledOk(m.w, id, Odd(m.busy));
    CrawledState(m.w, id);
    TurnedState(m.w, id, !After(m.crawls[id], Crawl(m.w.s.At(id), CrawlerOf(id)).1).running);
  }

  lemma CrawledState(w: World, id: nat)
    requires CanCrawl(w, id)
    ensures Crawled(w, id).s == w.s.SetList(id, Crawl(w.s.At(id), CrawlerOf(id)).0)
    ensures Crawled(w, id).s.Shaped() && Crawled(w, id).s.At(id) == Crawl(w.s.At(id), CrawlerOf(id)).0
  {
    hide Crawl, CrawlAsserts;
  }

  lemma TurnedState(w: World, id: nat, done: bool)
    requires CanCrawl(w, id) && UnlinkAsserts(Crawl(w.s.At(id), CrawlerOf(id)).0, CrawlerOf(id))
    ensures Turned(w, id, done).s == Swung(w.s, id, done)
  {
    hide Crawl, CrawlAsserts, Unlink;
    CrawledState(w, id);
  }

  lemma StartSize(m: Sys, id: nat, request: Crawler.Request)
    requires Inv(m) && Enabled(m, CrawlStart(id, request))
    ensures m.w.s.Shaped() && id < CLASSES && |m.w.lists| == CLASSES && m.w.s.sizes[id] == |m.w.lists[id]|
  {
    JoinedOk(m.w, id, Odd(m.busy));
  }

  /** How many crawlers are in a list. */
  function Awake(crawlers: seq<Control>): nat {
    if crawlers == [] then 0 else (if crawlers[0].enabled then 1 else 0) + Awake(crawlers[1..])
  }

  lemma {:induction false} NoneEnabled(crawlers: seq<Control>)
    requires forall c :: c in crawlers ==> !c.enabled
    ensures Awake(crawlers) == 0
  {
    if crawlers != [] {
      assert crawlers[0] in crawlers;
      forall c | c in crawlers[1..] ensures !c.enabled { assert c in crawlers; }
      NoneEnabled(crawlers[1..]);
    }
  }

  lemma {:induction false} AwakeUpdate(crawlers: seq<Control>, id: nat, c: Control)
    requires id < |crawlers|
    ensures Awake(crawlers[id := c]) ==
      Awake(crawlers) + (if c.enabled then 1 else 0) - (if crawlers[id].enabled then 1 else 0)
  {
    if id > 0 {
      assert crawlers[id := c][1..] == crawlers[1..][id - 1 := c];
      AwakeUpdate(crawlers[1..], id - 1, c);
    } else {
      assert crawlers[0 := c][1..] == crawlers[1..];
    }
  }
}

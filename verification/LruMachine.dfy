/** The LRU as a machine whose steps are what the threads do under one lock
each: a flag or count under the item lock, a link or unlink under the list lock.
Between two steps on one item any other steps may happen. */
module LruMachine {
  import opened Basics
  import opened LruList
  import opened LruState
  import opened LruWorld
  import opened LruCrawl
  import Crawler

  /** How far the thread that holds an item's lock has got: do_item_link after
  setting the flag and after linking, do_item_unlink after clearing the flag and
  after unlinking, and a move between two lists. */
  datatype Stage = Linking | Counting | Unlinking | Dropping | Moving

  /** The crawl of one class: its pseudo-item's fields, and what it was handed
  and looked at. */
  datatype CrawlState = CrawlState(running: bool, remaining: nat, returned: seq<Addr>, examined: seq<Addr>)

  /** `busy` are the items in the middle of an operation, `pending` the entries
  of a bump buffer whose reference has not been given back. */
  datatype Sys = Sys(w: World, busy: map<Addr, Stage>, crawls: seq<CrawlState>, pending: seq<Addr>)

  datatype Step =
    | Alloc(a: Addr, id: nat, ntotal: nat, exptime: int, time: int)
    | Incref(a: Addr)
    | Decref(a: Addr)
    | Mark(a: Addr, active: bool, fetched: bool, time: int)
    | LinkFlag(a: Addr, now: int)
    | LinkList(a: Addr)
    | LinkCount(a: Addr)
    | UnlinkFlag(a: Addr)
    | UnlinkList(a: Addr)
    | UnlinkDrop(a: Addr)
    | MoveOff(a: Addr)
    | MoveOn(a: Addr, id: nat, active: bool)
    | Bump(a: Addr)
    | BumpDrop
    | CrawlStart(id: nat, request: Crawler.Request)
    | CrawlTurn(id: nat)
    /** The crawl ends because its client is gone. */
    | CrawlQuit(id: nat)

  /** The items whose flag and list membership disagree. */
  function Odd(busy: map<Addr, Stage>): set<Addr> {
    set a | a in busy && busy[a] in {Linking, Unlinking, Moving}
  }

  predicate At(m: Sys, a: Addr, stage: Stage) {
    a in m.busy && m.busy[a] == stage && a in m.w.s.meta && a in m.w.held
  }

  predicate Idle(m: Sys, a: Addr) {
    a !in m.busy && a in m.w.s.meta && a in m.w.held
  }

  /** Somebody holds the item other than the entries of the bump buffer. */
  predicate HasHolder(m: Sys, a: Addr) {
    a in m.w.held && m.w.held[a] > Times(m.pending, a) && a in m.w.s.meta && m.w.s.meta[a].refcount > 0
  }

  /** The hit that makes a COLD item active is the one that queues it. */
  predicate Queues(w: World, a: Addr) {
    a in w.s.meta && !w.s.meta[a].active && w.s.meta[a].fetched && Segment(w.s.Owner(a)) == COLD
  }

  predicate Running(m: Sys, id: nat) {
    id < |m.crawls| && id < |m.w.lists| && m.crawls[id].running
  }

  /** Who may take a step, and what it asserts. */
  predicate Enabled(m: Sys, step: Step) {
    match step
    case Alloc(a, id, _, _, _) => a != NULL && !IsCrawler(a) && a !in m.w.s.meta && a !in m.busy && id < CLASSES
    case Incref(a) => Idle(m, a)
    case Decref(a) => Idle(m, a) && HasHolder(m, a)
    case Mark(a, _, _, _) => Idle(m, a)
    case LinkFlag(a, _) => Idle(m, a) && HasHolder(m, a) && !m.w.s.meta[a].linked
    case LinkList(a) => At(m, a, Linking) && CanAttach(m.w, a)
    case LinkCount(a) => At(m, a, Counting)
    case UnlinkFlag(a) => Idle(m, a) && m.w.s.meta[a].linked
    case UnlinkList(a) => At(m, a, Unlinking) && CanDetach(m.w, a)
    case UnlinkDrop(a) => At(m, a, Dropping) && HasHolder(m, a)
    case MoveOff(a) => Idle(m, a) && m.w.s.meta[a].linked && CanDetach(m.w, a)
    case MoveOn(a, id, active) =>
      At(m, a, Moving) && id < CLASSES && SlabClass(id) == SlabClass(m.w.s.Owner(a)) &&
          CanAttach(Reclass(m.w, a, id, active), a)
    case Bump(a) => Idle(m, a) && Queues(m.w, a)
    case BumpDrop =>
      && m.pending != [] && Idle(m, m.pending[0])
      && m.w.held[m.pending[0]] > 0 && m.w.s.meta[m.pending[0]].refcount > 0
    case CrawlStart(id, _) => id < |m.crawls| && !m.crawls[id].running && CanJoin(m.w, id)
    case CrawlTurn(id) => Running(m, id) && CanCrawl(m.w, id)
    case CrawlQuit(id) => Running(m, id) && CanLeave(m.w, id)
  }

  /** The crawl of class id as the crawl machine sees it. */
  function View(m: Sys, id: nat): Crawler.Sys
    requires id < |m.crawls| && id < |m.w.lists|
  {
    var c := m.crawls[id];
    Crawler.Sys(m.w.lists[id], c.running, c.remaining, c.returned, c.examined)
  }

  function SetCrawl(m: Sys, w: World, id: nat, v: Crawler.Sys): Sys
    requires id < |m.crawls|
  {
    m.(w := w, crawls := m.crawls[id := CrawlState(v.running, v.remaining, v.returned, v.examined)])
  }

  function Apply(m: Sys, step: Step): Sys
    requires Enabled(m, step)
  {
    match step
    case Alloc(a, id, ntotal, exptime, time) => m.(w := NewItem(m.w, a, id, ntotal, exptime, time))
    case Incref(a) => m.(w := Hold(m.w, a))
    case Decref(a) => m.(w := Drop(m.w, a))
    case Mark(a, active, fetched, time) => m.(w := Touch(m.w, a, active, fetched, time))
    case LinkFlag(a, now) => m.(w := SetLinked(m.w, a, now), busy := m.busy[a := Linking])
    case LinkList(a) => m.(w := Attach(m.w, a), busy := m.busy[a := Counting])
    case LinkCount(a) => m.(w := Hold(m.w, a), busy := m.busy - {a})
    case UnlinkFlag(a) => m.(w := ClearLinked(m.w, a), busy := m.busy[a := Unlinking])
    case UnlinkList(a) => m.(w := Detach(m.w, a), busy := m.busy[a := Dropping])
    case UnlinkDrop(a) => m.(w := Drop(m.w, a), busy := m.busy - {a})
    case MoveOff(a) => m.(w := Detach(m.w, a), busy := m.busy[a := Moving])
    case MoveOn(a, id, active) => m.(w := Attach(Reclass(m.w, a, id, active), a), busy := m.busy - {a})
    case Bump(a) =>
      var t := m.w.s.meta[a];
      m.(w := Hold(Touch(m.w, a, true, true, t.time), a), pending := m.pending + [a])
    case BumpDrop => m.(w := Drop(m.w, m.pending[0]), pending := m.pending[1..])
    case CrawlStart(id, request) => SetCrawl(m, Joined(m.w, id), id,
        Crawler.Start(CrawlerOf(id), m.w.lists[id], request))
    case CrawlTurn(id) =>
      var v := Crawler.CrawlOnce(CrawlerOf(id), View(m, id));
      SetCrawl(m, Turned(m.w, id, !v.running), id, v)
    case CrawlQuit(id) => SetCrawl(m, Left(m.w, id), id, Crawler.ClassDone(CrawlerOf(id), View(m, id)))
  }

  /** A run: from m, the steps are possible one after the other and lead to m'. */
  ghost predicate Took(m: Sys, steps: seq<Step>, m': Sys)
    decreases |steps|
  {
    if steps == [] then m' == m else Enabled(m, steps[0]) && Took(Apply(m, steps[0]), steps[1..], m')
  }

  lemma {:induction false} TookConcat(m: Sys, s: seq<Step>, m1: Sys, t: seq<Step>, m2: Sys)
    requires Took(m, s, m1) && Took(m1, t, m2)
    ensures Took(m, s + t, m2)
    decreases |s|
  {
    hide Enabled, Apply;
    if s == [] {
      assert s + t == t;
    } else {
      assert (s + t)[1..] == s[1..] + t;
      TookConcat(Apply(m, s[0]), s[1..], m1, t, m2);
    }
  }

  lemma TookOne(m: Sys, step: Step)
    requires Enabled(m, step)
    ensures Took(m, [step], Apply(m, step))
  {
    hide Enabled, Apply;
    assert [step][1..] == [];
  }

  lemma TookSnoc(m: Sys, s: seq<Step>, m1: Sys, step: Step)
    requires Took(m, s, m1) && Enabled(m1, step)
    ensures Took(m, s + [step], Apply(m1, step))
  {
    hide Enabled, Apply;
    TookOne(m1, step);
    TookConcat(m, s, m1, [step], Apply(m1, step));
  }

  /** What an operation in progress has done so far. */
  ghost predicate StageOk(m: Sys, a: Addr)
    requires a in m.busy
  {
    && a in m.w.s.meta && a in m.w.held
    && (m.w.s.meta[a].linked <==> m.busy[a] in {Linking, Counting, Moving})
    && (m.busy[a] in {Unlinking, Dropping} ==> m.w.held[a] > Times(m.pending, a))
  }

  /** Every pending bump has its own reference. */
  ghost predicate BumpOk(m: Sys, a: Addr) {
    a in m.pending ==> a in m.w.s.meta && a in m.w.held && m.w.held[a] >= Times(m.pending, a)
  }

  ghost predicate CrawlsOk(m: Sys) {
    && |m.crawls| == |m.w.lists| == CLASSES
    && forall id :: 0 <= id < CLASSES ==> (m.crawls[id].running <==> CrawlerOf(id) in m.w.lists[id])
  }

  ghost predicate Inv(m: Sys) {
    && OkW(m.w, Odd(m.busy))
    && (forall a :: a in m.busy ==> StageOk(m, a))
    && (forall a :: BumpOk(m, a))
    && CrawlsOk(m)
  }

  function Start(): Sys {
    Sys(Empty(), map[], seq(CLASSES, _ => CrawlState(false, 0, [], [])), [])
  }

  lemma StartInv()
    ensures Inv(Start())
  {
    EmptyOk();
    assert Odd(Start().busy) == {};
  }

  /** The same crawlers in the same lists. */
  ghost predicate SameCrawlers(w: World, w': World) {
    && |w'.lists| == |w.lists|
    && forall id :: 0 <= id < |w.lists| ==> (CrawlerOf(id) in w'.lists[id] <==> CrawlerOf(id) in w.lists[id])
  }

  /** A step on one item keeps the invariant if it does so for that item. */
  lemma ItemInv(m: Sys, m': Sys, a: Addr)
    requires Inv(m) && OkW(m'.w, Odd(m'.busy)) && OnlyItem(m.w, m'.w, a) && SameCrawlers(m.w, m'.w)
    requires m'.crawls == m.crawls && forall b :: b != a ==> Times(m'.pending, b) == Times(m.pending, b)
    requires forall b :: b != a ==> (b in m'.busy <==> b in m.busy) && (b in m.busy ==> m'.busy[b] == m.busy[b])
    requires (a in m'.busy ==> StageOk(m', a)) && BumpOk(m', a)
    ensures Inv(m')
  {
    hide OkW;
    forall b | b in m'.busy ensures StageOk(m', b) {
      if b != a { assert SameItem(m.w, m'.w, b) && StageOk(m, b); }
    }
    forall b ensures BumpOk(m', b) {
      if b != a {
        assert SameItem(m.w, m'.w, b) && BumpOk(m, b);
        assert Times(m'.pending, b) == Times(m.pending, b);
      }
    }
  }

  lemma OddSet(busy: map<Addr, Stage>, a: Addr, stage: Stage)
    ensures Odd(busy[a := stage]) == if stage in {Linking, Unlinking, Moving} then Odd(busy) + {a} else Odd(busy) - {a}
    ensures Odd(busy - {a}) == Odd(busy) - {a}
    ensures a !in Odd(busy) ==> Odd(busy) - {a} == Odd(busy)
  {}
}

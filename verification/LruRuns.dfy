/** Every step of the LRU machine keeps its invariant, whatever the threads do in
between, and an operation in progress can always go on. */
module LruRuns {
  import opened Basics
  import opened LruList
  import opened LruState
  import opened LruWorld
  import opened LruCrawl
  import opened LruMachine
  import Crawler

  lemma AllocInv(m: Sys, a: Addr, id: nat, ntotal: nat, exptime: int, time: int)
    requires Inv(m) && Enabled(m, Alloc(a, id, ntotal, exptime, time))
    ensures Inv(Apply(m, Alloc(a, id, ntotal, exptime, time)))
  {
    hide OkW;
    assert BumpOk(m, a);
    NewItemOk(m.w, a, id, ntotal, exptime, time, Odd(m.busy));
    NotOdd(m, a);
    ItemInv(m, Apply(m, Alloc(a, id, ntotal, exptime, time)), a);
  }

  lemma NotOdd(m: Sys, a: Addr)
    requires a !in m.busy
    ensures a !in Odd(m.busy) && Odd(m.busy) + {a} - {a} == Odd(m.busy) && Odd(m.busy) - {a} == Odd(m.busy)
  {}

  lemma IncrefInv(m: Sys, a: Addr)
    requires Inv(m) && Idle(m, a)
    ensures Inv(Apply(m, Incref(a)))
  {
    hide OkW;
    assert BumpOk(m, a);
    HoldOk(m.w, a, Odd(m.busy));
    ItemInv(m, Apply(m, Incref(a)), a);
  }

  lemma DecrefInv(m: Sys, a: Addr)
    requires Inv(m) && Idle(m, a) && HasHolder(m, a)
    ensures Inv(Apply(m, Decref(a)))
  {
    hide OkW;
    assert BumpOk(m, a);
    NotOdd(m, a);
    RefKnown(m.w, a, Odd(m.busy));
    DropOk(m.w, a, Odd(m.busy));
    TimesIn(m.pending, a);
    ItemInv(m, Apply(m, Decref(a)), a);
  }

  lemma MarkInv(m: Sys, a: Addr, active: bool, fetched: bool, time: int)
    requires Inv(m) && Idle(m, a)
    ensures Inv(Apply(m, Mark(a, active, fetched, time)))
  {
    hide OkW;
    assert BumpOk(m, a);
    TouchOk(m.w, a, active, fetched, time, Odd(m.busy));
    ItemInv(m, Apply(m, Mark(a, active, fetched, time)), a);
  }

  lemma LinkFlagInv(m: Sys, a: Addr, now: int)
    requires Inv(m) && Enabled(m, LinkFlag(a, now))
    ensures Inv(Apply(m, LinkFlag(a, now)))
  {
    hide OkW;
    assert BumpOk(m, a);
    NotOdd(m, a);
    OddSet(m.busy, a, Linking);
    SetLinkedOk(m.w, a, now, Odd(m.busy));
    ItemInv(m, Apply(m, LinkFlag(a, now)), a);
  }

  /** Putting an item on a list moves no crawler. */
  lemma AttachCrawlers(w: World, a: Addr)
    requires CanAttach(w, a)
    ensures SameCrawlers(w, Attach(w, a))
  {}

  lemma DetachCrawlers(w: World, a: Addr, transit: set<Addr>)
    requires OkW(w, transit) && CanDetach(w, a)
    ensures SameCrawlers(w, Detach(w, a))
  {
    var id := w.s.Owner(a);
    ListsKnown(w, id, transit);
    WithoutMembers(w.lists[id], IndexOf(w.lists[id], a));
    hide OkW;
    DetachFacts(w, a);
  }

  lemma LinkListInv(m: Sys, a: Addr)
    requires Inv(m) && Enabled(m, LinkList(a))
    ensures Inv(Apply(m, LinkList(a)))
  {
    hide OkW, CanAttach, Attach;
    assert BumpOk(m, a) && StageOk(m, a);
    OddSet(m.busy, a, Counting);
    AttachOk(m.w, a, Odd(m.busy));
    AttachFacts(m.w, a);
    AttachCrawlers(m.w, a);
    ItemInv(m, Apply(m, LinkList(a)), a);
  }

  lemma LinkCountInv(m: Sys, a: Addr)
    requires Inv(m) && Enabled(m, LinkCount(a))
    ensures Inv(Apply(m, LinkCount(a)))
  {
    hide OkW;
    assert BumpOk(m, a);
    OddSet(m.busy, a, Counting);
    assert a !in Odd(m.busy);
    HoldOk(m.w, a, Odd(m.busy));
    ItemInv(m, Apply(m, LinkCount(a)), a);
  }

  lemma UnlinkFlagInv(m: Sys, a: Addr)
    requires Inv(m) && Enabled(m, UnlinkFlag(a))
    ensures Inv(Apply(m, UnlinkFlag(a)))
  {
    hide OkW;
    assert BumpOk(m, a);
    NotOdd(m, a);
    TimesIn(m.pending, a);
    OddSet(m.busy, a, Unlinking);
    ClearLinkedOk(m.w, a, Odd(m.busy));
    ItemInv(m, Apply(m, UnlinkFlag(a)), a);
  }

  lemma UnlinkListInv(m: Sys, a: Addr)
    requires Inv(m) && Enabled(m, UnlinkList(a))
    ensures Inv(Apply(m, UnlinkList(a)))
  {
    hide OkW, CanDetach, Detach;
    assert BumpOk(m, a) && StageOk(m, a);
    OddSet(m.busy, a, Dropping);
    DetachOk(m.w, a, Odd(m.busy));
    DetachCrawlers(m.w, a, Odd(m.busy));
    DetachFacts(m.w, a);
    ItemInv(m, Apply(m, UnlinkList(a)), a);
  }

  lemma UnlinkDropInv(m: Sys, a: Addr)
    requires Inv(m) && Enabled(m, UnlinkDrop(a))
    ensures Inv(Apply(m, UnlinkDrop(a)))
  {
    hide OkW, Drop;
    assert BumpOk(m, a);
    OddSet(m.busy, a, Dropping);
    assert a !in Odd(m.busy);
    RefKnown(m.w, a, Odd(m.busy));
    DropOk(m.w, a, Odd(m.busy));
    RefKnownDrop(m, a);
    TimesIn(m.pending, a);
    ItemInv(m, Apply(m, UnlinkDrop(a)), a);
  }

  lemma MoveOffInv(m: Sys, a: Addr)
    requires Inv(m) && Enabled(m, MoveOff(a))
    ensures Inv(Apply(m, MoveOff(a)))
  {
    hide OkW, CanDetach, Detach;
    assert BumpOk(m, a);
    NotOdd(m, a);
    OddSet(m.busy, a, Moving);
    DetachOk(m.w, a, Odd(m.busy));
    DetachCrawlers(m.w, a, Odd(m.busy));
    DetachFacts(m.w, a);
    ItemInv(m, Apply(m, MoveOff(a)), a);
  }

  lemma MoveOnInv(m: Sys, a: Addr, id: nat, active: bool)
    requires Inv(m) && Enabled(m, MoveOn(a, id, active))
    ensures Inv(Apply(m, MoveOn(a, id, active)))
  {
    hide OkW, CanAttach, Attach;
    assert BumpOk(m, a) && StageOk(m, a);
    assert a in Odd(m.busy);
    OddSet(m.busy, a, Counting);
    ReclassKeeps(m.w, a, id, active, Odd(m.busy));
    var w1 := Reclass(m.w, a, id, active);
    AttachOk(w1, a, Odd(m.busy));
    AttachFacts(w1, a);
    AttachCrawlers(w1, a);
    OnlyItemTrans(m.w, w1, Attach(w1, a), a);
    ItemInv(m, Apply(m, MoveOn(a, id, active)), a);
  }

  lemma BumpInv(m: Sys, a: Addr)
    requires Inv(m) && Enabled(m, LruMachine.Bump(a))
    ensures Inv(Apply(m, LruMachine.Bump(a)))
  {
    hide OkW;
    assert BumpOk(m, a);
    TimesIn(m.pending, a);
    var w1 := Touch(m.w, a, true, true, m.w.s.meta[a].time);
    TouchOk(m.w, a, true, true, m.w.s.meta[a].time, Odd(m.busy));
    HoldOk(w1, a, Odd(m.busy));
    forall b ensures Times(m.pending + [a], b) == Times(m.pending, b) + if b == a then 1 else 0 {
      TimesSnoc(m.pending, a, b);
    }
    ItemInv(m, Apply(m, LruMachine.Bump(a)), a);
  }

  lemma BumpDropInv(m: Sys)
    requires Inv(m) && Enabled(m, BumpDrop)
    ensures Inv(Apply(m, BumpDrop))
  {
    hide OkW;
    var a := m.pending[0];
    assert BumpOk(m, a);
    NotOdd(m, a);
    DropOk(m.w, a, Odd(m.busy));
    forall b ensures Times(m.pending, b) == Times(m.pending[1..], b) + if b == a then 1 else 0 {
      TimesTail(m.pending, b);
    }
    TimesIn(Apply(m, BumpDrop).pending, a);
    RefKnownDrop(m, a);
    ItemInv(m, Apply(m, BumpDrop), a);
  }

  lemma RefKnownDrop(m: Sys, a: Addr)
    requires Inv(m) && a in m.w.s.meta && a in m.w.held && m.w.held[a] > 0 && m.w.s.meta[a].refcount > 0
    ensures OnlyItem(m.w, Drop(m.w, a), a) && SameCrawlers(m.w, Drop(m.w, a))
    ensures if m.w.held[a] == 1 && !m.w.s.meta[a].linked then a !in Drop(m.w, a).s.meta
            else a in Drop(m.w, a).s.meta && a in Drop(m.w, a).held && Drop(m.w, a).held[a] == m.w.held[a] - 1
  {
    hide OkW;
    RefKnown(m.w, a, Odd(m.busy));
  }

  /** A step on a crawler touches nothing but its list and its record. */
  lemma CrawlerInv(m: Sys, w: World, id: nat, v: Crawler.Sys)
    requires Inv(m) && id < CLASSES && OnlyCrawlers(m.w, w) && OkW(w, Odd(m.busy))
    requires w.lists == m.w.lists[id := v.list] && (v.running <==> CrawlerOf(id) in v.list)
    ensures Inv(SetCrawl(m, w, id, v))
  {
    hide OkW;
    var m' := SetCrawl(m, w, id, v);
    forall b | b in m'.busy ensures StageOk(m', b) { assert StageOk(m, b); }
    forall b ensures BumpOk(m', b) { assert BumpOk(m, b); }
  }

  lemma CrawlStartInv(m: Sys, id: nat, request: Crawler.Request)
    requires Inv(m) && Enabled(m, CrawlStart(id, request))
    ensures Inv(Apply(m, CrawlStart(id, request)))
  {
    hide OkW, CanJoin;
    JoinedOk(m.w, id, Odd(m.busy));
    var v := Crawler.Start(CrawlerOf(id), m.w.lists[id], request);
    JoinedFacts(m.w, id);
    CrawlerInv(m, Joined(m.w, id), id, v);
  }

  lemma JoinedFacts(w: World, id: nat)
    requires CanJoin(w, id)
    ensures OnlyCrawlers(w, Joined(w, id)) && Joined(w, id).lists == w.lists[id := w.lists[id] + [CrawlerOf(id)]]
  {}

  lemma CrawlTurnInv(m: Sys, id: nat)
    requires Inv(m) && Enabled(m, CrawlTurn(id))
    ensures Inv(Apply(m, CrawlTurn(id)))
  {
    hide OkW, CanCrawl, Turned;
    var c := CrawlerOf(id);
    var v := Crawler.CrawlOnce(c, View(m, id));
    CrawledOk(m.w, id, Odd(m.busy));
    ListsKnown(m.w, id, Odd(m.busy));
    Crawler.CrawlInv(c, View(m, id));
    TurnedFacts(m.w, id, !v.running);
    CrawlerInv(m, Turned(m.w, id, !v.running), id, v);
  }

  lemma CrawlQuitInv(m: Sys, id: nat)
    requires Inv(m) && Enabled(m, CrawlQuit(id))
    ensures Inv(Apply(m, CrawlQuit(id)))
  {
    hide OkW, CanLeave, Left;
    CanLeaveFacts(m.w, id);
    LeftOk(m.w, id, Odd(m.busy));
    ListsKnown(m.w, id, Odd(m.busy));
    Crawler.RemoveFacts(m.w.lists[id], CrawlerOf(id));
    LeftFacts(m.w, id);
    CrawlerInv(m, Left(m.w, id), id, Crawler.ClassDone(CrawlerOf(id), View(m, id)));
  }

  lemma CanLeaveFacts(w: World, id: nat)
    requires CanLeave(w, id)
    ensures w.s.Shaped() && |w.lists| == CLASSES && id < CLASSES && CrawlerOf(id) in w.lists[id]
    ensures CrawlerOf(id) in w.s.next && CrawlerOf(id) in w.s.prev
  {}

  lemma StepInv(m: Sys, step: Step)
    requires Inv(m) && Enabled(m, step)
    ensures Inv(Apply(m, step))
  {
    hide Inv, Apply;
    match step
    case Alloc(a, id, ntotal, exptime, time) => AllocInv(m, a, id, ntotal, exptime, time);
    case Incref(a) => IncrefInv(m, a);
    case Decref(a) => DecrefInv(m, a);
    case Mark(a, active, fetched, time) => MarkInv(m, a, active, fetched, time);
    case LinkFlag(a, now) => LinkFlagInv(m, a, now);
    case LinkList(a) => LinkListInv(m, a);
    case LinkCount(a) => LinkCountInv(m, a);
    case UnlinkFlag(a) => UnlinkFlagInv(m, a);
    case UnlinkList(a) => UnlinkListInv(m, a);
    case UnlinkDrop(a) => UnlinkDropInv(m, a);
    case MoveOff(a) => MoveOffInv(m, a);
    case MoveOn(a, id, active) => MoveOnInv(m, a, id, active);
    case Bump(a) => BumpInv(m, a);
    case BumpDrop => BumpDropInv(m);
    case CrawlStart(id, request) => CrawlStartInv(m, id, request);
    case CrawlTurn(id) => CrawlTurnInv(m, id);
    case CrawlQuit(id) => CrawlQuitInv(m, id);
  }

  /** Every interleaving of the threads' critical sections keeps lists, sizes,
  flags and reference counts in order. */
  lemma {:induction false} RunInv(m: Sys, steps: seq<Step>, m': Sys)
    requires Inv(m) && Took(m, steps, m')
    ensures Inv(m')
    decreases |steps|
  {
    hide Inv, Enabled, Apply;
    if steps != [] {
      StepInv(m, steps[0]);
      RunInv(Apply(m, steps[0]), steps[1..], m');
    }
  }

  /** From the empty cache on. */
  lemma ReachableInv(steps: seq<Step>, m: Sys)
    requires Took(Start(), steps, m)
    ensures Inv(m)
  {
    StartInv();
    RunInv(Start(), steps, m);
  }

  /** The next step of the operation that an item is in the middle of. */
  predicate Next(m: Sys, a: Addr, step: Step) {
    a in m.busy &&
    match m.busy[a]
    case Linking => step == LinkList(a)
    case Counting => step == LinkCount(a)
    case Unlinking => step == UnlinkList(a)
    case Dropping => step == UnlinkDrop(a)
    case Moving => step.MoveOn? && step.a == a && step.id < CLASSES && SlabClass(step.id) == SlabClass(m.w.s.Owner(a))
  }

  /** An operation in progress can go on: whatever the other threads have done
  since its last step, its next one meets the assertions. */
  lemma CanGoOn(m: Sys, a: Addr, step: Step)
    requires Inv(m) && Next(m, a, step)
    ensures Enabled(m, step)
  {
    assert StageOk(m, a);
    var transit := Odd(m.busy);
    RefKnown(m.w, a, transit);
    match m.busy[a]
    case Linking => CanAttachOk(m.w, a, transit);
    case Counting =>
    case Unlinking => CanDetachOk(m.w, a, transit);
    case Dropping =>
    case Moving =>
      ReclassKeeps(m.w, a, step.id, step.active, transit);
      CanAttachOk(Reclass(m.w, a, step.id, step.active), a, transit);
  }

  /** Where the first steps of an operation lead. */
  lemma Begun(m: Sys, a: Addr, now: int)
    ensures Enabled(m, LinkFlag(a, now)) ==> At(Apply(m, LinkFlag(a, now)), a, Linking)
    ensures Enabled(m, LinkList(a)) ==> At(Apply(m, LinkList(a)), a, Counting)
    ensures Enabled(m, UnlinkFlag(a)) ==> At(Apply(m, UnlinkFlag(a)), a, Unlinking)
    ensures Enabled(m, UnlinkList(a)) ==> At(Apply(m, UnlinkList(a)), a, Dropping)
    ensures Enabled(m, MoveOff(a)) ==>
      At(Apply(m, MoveOff(a)), a, Moving) && Apply(m, MoveOff(a)).w.s.Owner(a) == m.w.s.Owner(a) &&
      Apply(m, MoveOff(a)).w.s.meta == m.w.s.meta
  {}

  /** A linked item that no thread is busy with can be taken off its list. */
  lemma CanMoveOff(m: Sys, a: Addr)
    requires Inv(m) && Idle(m, a) && m.w.s.meta[a].linked
    ensures Enabled(m, MoveOff(a))
  {
    NotOdd(m, a);
    CanDetachOk(m.w, a, Odd(m.busy));
  }

  /** The item that a step is about. */
  function Subject(m: Sys, step: Step): Option<Addr> {
    match step
    case BumpDrop => if m.pending == [] then None else Some(m.pending[0])
    case CrawlStart(_, _) => None
    case CrawlTurn(_) => None
    case CrawlQuit(_) => None
    case _ => Some(step.a)
  }

  /** Steps on other items leave an operation in progress where it is. */
  lemma OthersKeepStage(m: Sys, step: Step, a: Addr)
    requires Enabled(m, step) && Subject(m, step) != Some(a)
    ensures a in Apply(m, step).busy <==> a in m.busy
    ensures a in m.busy ==> Apply(m, step).busy[a] == m.busy[a]
  {}

  /** And they leave its record, its references and the bumps queued for it. */
  lemma OthersKeepItem(m: Sys, step: Step, a: Addr)
    requires Enabled(m, step) && Subject(m, step) != Some(a)
    ensures SameItem(m.w, Apply(m, step).w, a) && Times(Apply(m, step).pending, a) == Times(m.pending, a)
  {
    hide Apply, SameItem, Enabled;
    if step.LinkList? || step.UnlinkList? || step.MoveOff? || step.MoveOn? {
      ListStepsKeep(m, step, a);
    } else if step.CrawlStart? || step.CrawlTurn? || step.CrawlQuit? {
      CrawlStepsKeep(m, step, a);
    } else {
      ItemStepsKeep(m, step, a);
    }
  }

  lemma ListStepsKeep(m: Sys, step: Step, a: Addr)
    requires (step.LinkList? || step.UnlinkList? || step.MoveOff? || step.MoveOn?) && Enabled(m, step) && step.a != a
    ensures SameItem(m.w, Apply(m, step).w, a) && Apply(m, step).pending == m.pending
  {
    hide Attach, Detach, CanDetach, LinkAsserts;
    match step
    case LinkList(b) => AttachFacts(m.w, b);
    case UnlinkList(b) => DetachFacts(m.w, b);
    case MoveOff(b) => DetachFacts(m.w, b);
    case MoveOn(b, id, active) =>
      AttachFacts(Reclass(m.w, b, id, active), b);
      assert SameItem(m.w, Reclass(m.w, b, id, active), a);
  }

  lemma CrawlStepsKeep(m: Sys, step: Step, a: Addr)
    requires Enabled(m, step) && (step.CrawlStart? || step.CrawlTurn? || step.CrawlQuit?)
    ensures SameItem(m.w, Apply(m, step).w, a) && Apply(m, step).pending == m.pending
  {
    hide CanCrawl, CanLeave, CanJoin, Turned, Left, Joined, SameItem;
    if step.CrawlTurn? {
      TurnKeeps(m, step.id, a);
    } else if step.CrawlStart? {
      JoinedFacts(m.w, step.id);
      CrawlersKeep(m.w, Joined(m.w, step.id), a);
    } else {
      CanLeaveFacts(m.w, step.id);
      LeftFacts(m.w, step.id);
      CrawlersKeep(m.w, Left(m.w, step.id), a);
    }
  }

  lemma CrawlersKeep(w: World, w': World, a: Addr)
    requires OnlyCrawlers(w, w')
    ensures SameItem(w, w', a)
  {}

  lemma TurnKeeps(m: Sys, id: nat, a: Addr)
    requires Enabled(m, CrawlTurn(id))
    ensures SameItem(m.w, Apply(m, CrawlTurn(id)).w, a) && Apply(m, CrawlTurn(id)).pending == m.pending
  {
    hide CrawlAsserts, Turned, SameItem, Crawler.CrawlOnce;
    var done := !Crawler.CrawlOnce(CrawlerOf(id), View(m, id)).running;
    TurnedFacts(m.w, id, done);
    CrawlersKeep(m.w, Turned(m.w, id, done), a);
  }

  lemma ItemStepsKeep(m: Sys, step: Step, a: Addr)
    requires Enabled(m, step) && Subject(m, step) != Some(a) && !step.CrawlStart? && !step.CrawlTurn?
    requires !step.CrawlQuit?
    requires !step.LinkList? && !step.UnlinkList? && !step.MoveOff? && !step.MoveOn?
    ensures SameItem(m.w, Apply(m, step).w, a) && Times(Apply(m, step).pending, a) == Times(m.pending, a)
  {
    hide SameItem, Times;
    match step {
      case Alloc(b, id, ntotal, exptime, time) => AllocKeeps(m.w, b, id, ntotal, exptime, time, a);
      case Incref(b) => HoldKeeps(m.w, b, a);
      case Decref(b) => DropKeeps(m.w, b, a);
      case Mark(b, active, fetched, time) => TouchKeeps(m.w, b, active, fetched, time, a);
      case LinkFlag(b, now) => SetLinkedKeeps(m.w, b, now, a);
      case LinkCount(b) => HoldKeeps(m.w, b, a);
      case UnlinkFlag(b) => ClearLinkedKeeps(m.w, b, a);
      case UnlinkDrop(b) => DropKeeps(m.w, b, a);
      case Bump(b) =>
        var t := Touch(m.w, b, true, true, m.w.s.meta[b].time);
        TouchKeeps(m.w, b, true, true, m.w.s.meta[b].time, a);
        HoldKeeps(t, b, a);
        TimesSnoc(m.pending, b, a);
        SameItemTrans(m.w, t, Hold(t, b), a);
      case BumpDrop =>
        DropKeeps(m.w, m.pending[0], a);
        TimesTail(m.pending, a);
    }
  }

  lemma SameItemTrans(w: World, w1: World, w2: World, a: Addr)
    requires SameItem(w, w1, a) && SameItem(w1, w2, a)
    ensures SameItem(w, w2, a)
  {}

  lemma AllocKeeps(w: World, b: Addr, id: nat, ntotal: nat, exptime: int, time: int, a: Addr)
    requires a != b
    ensures SameItem(w, NewItem(w, b, id, ntotal, exptime, time), a)
  {}

  lemma SetLinkedKeeps(w: World, b: Addr, now: int, a: Addr)
    requires b in w.s.meta && b in w.held && w.held[b] > 0 && a != b
    ensures SameItem(w, SetLinked(w, b, now), a)
  {}

  lemma ClearLinkedKeeps(w: World, b: Addr, a: Addr)
    requires b in w.s.meta && b in w.held && a != b
    ensures SameItem(w, ClearLinked(w, b), a)
  {}

  lemma HoldKeeps(w: World, b: Addr, a: Addr)
    requires b in w.s.meta && b in w.held && a != b
    ensures SameItem(w, Hold(w, b), a)
  {}

  lemma DropKeeps(w: World, b: Addr, a: Addr)
    requires b in w.s.meta && b in w.held && w.held[b] > 0 && w.s.meta[b].refcount > 0 && a != b
    ensures SameItem(w, Drop(w, b), a)
  {}

  lemma TouchKeeps(w: World, b: Addr, active: bool, fetched: bool, time: int, a: Addr)
    requires b in w.s.meta && a != b
    ensures SameItem(w, Touch(w, b, active, fetched, time), a)
  {}

  lemma TookOnly(m: Sys, x: Step, m': Sys)
    requires Took(m, [x], m')
    ensures Enabled(m, x) && m' == Apply(m, x)
  {
    hide Enabled, Apply;
    assert [x][1..] == [];
  }

  lemma TookThree(m: Sys, x: Step, y: Step, z: Step, m': Sys)
    requires Took(m, [x, y, z], m')
    ensures Enabled(m, x) && Enabled(Apply(m, x), y) && Enabled(Apply(Apply(m, x), y), z)
    ensures m' == Apply(Apply(Apply(m, x), y), z)
  {
    hide Enabled, Apply;
    assert [x, y, z][1..] == [y, z] && [y, z][1..] == [z];
    TookOnly(Apply(Apply(m, x), y), z, m');
  }

  lemma {:induction false} TookSplit(m: Sys, s: seq<Step>, t: seq<Step>, m': Sys) returns (m1: Sys)
    requires Took(m, s + t, m')
    ensures Took(m, s, m1) && Took(m1, t, m')
    decreases |s|
  {
    hide Enabled, Apply;
    if s == [] {
      assert s + t == t;
      m1 := m;
    } else {
      assert (s + t)[1..] == s[1..] + t;
      m1 := TookSplit(Apply(m, s[0]), s[1..], t, m');
    }
  }

  /** Nothing but items and lists has changed. */
  predicate SameRest(m: Sys, m': Sys) {
    m'.busy == m.busy && m'.pending == m.pending && m'.crawls == m.crawls
  }

  /** What has become of item a; all others are as they were. */
  ghost predicate Became(w: World, w': World, a: Addr, t: Meta, held: nat, owner: nat) {
    && OnlyItem(w, w', a) && a in w'.s.meta && w'.s.meta[a] == t
    && a in w'.held && w'.held[a] == held && w'.s.Owner(a) == owner
  }

  ghost predicate Freed(w: World, w': World, a: Addr) {
    OnlyItem(w, w', a) && a !in w'.s.meta && a !in w'.held
  }

  lemma BecameTrans(w: World, w1: World, w': World, a: Addr, t: Meta, held: nat, owner: nat, t': Meta, held': nat,
      owner': nat)
    requires Became(w, w1, a, t, held, owner)
    ensures Became(w1, w', a, t', held', owner') ==> Became(w, w', a, t', held', owner')
    ensures Freed(w1, w', a) ==> Freed(w, w', a)
  {
    if Became(w1, w', a, t', held', owner') || Freed(w1, w', a) { OnlyItemTrans(w, w1, w', a); }
  }

  lemma IncrefEffect(m: Sys, a: Addr)
    requires Idle(m, a)
    ensures var m' := Apply(m, LruMachine.Incref(a)); var t := m.w.s.meta[a];
      && SameRest(m, m') && m'.w.lists == m.w.lists && m'.w.s.bytes == m.w.s.bytes
      && Became(m.w, m'.w, a, t.(refcount := t.refcount + 1), m.w.held[a] + 1, m.w.s.Owner(a))
  {}

  lemma DecrefEffect(m: Sys, a: Addr)
    requires Inv(m) && Idle(m, a) && HasHolder(m, a)
    ensures var m' := Apply(m, LruMachine.Decref(a)); var t := m.w.s.meta[a];
      && SameRest(m, m') && m'.w.lists == m.w.lists && t.refcount > 0 && m.w.held[a] > 0
      && (if m.w.held[a] == 1 && !t.linked then Freed(m.w, m'.w, a)
          else Became(m.w, m'.w, a, t.(refcount := t.refcount - 1), m.w.held[a] - 1, m.w.s.Owner(a)))
  {
    hide OkW;
    RefKnown(m.w, a, Odd(m.busy));
  }

  /** Somebody who takes a reference can give it back. */
  lemma HolderAfter(m: Sys, a: Addr)
    requires Inv(m) && Idle(m, a)
    ensures var m' := Apply(m, LruMachine.Incref(a)); Idle(m', a) && HasHolder(m', a)
    ensures m.w.held[a] >= Times(m.pending, a)
  {
    hide OkW;
    RefKnown(m.w, a, Odd(m.busy));
    assert BumpOk(m, a);
    TimesIn(m.pending, a);
  }

  lemma UnlinkFlagEffect(m: Sys, a: Addr)
    requires Enabled(m, LruMachine.UnlinkFlag(a))
    ensures var m' := Apply(m, LruMachine.UnlinkFlag(a));
      && Became(m.w, m'.w, a, m.w.s.meta[a].(linked := false), m.w.held[a] + 1, m.w.s.Owner(a)) &&
          m'.w.lists == m.w.lists
      && m'.busy == m.busy[a := Unlinking] && m'.pending == m.pending && m'.crawls == m.crawls
  {}

  lemma UnlinkListEffect(m: Sys, a: Addr)
    requires Enabled(m, LruMachine.UnlinkList(a))
    ensures var m' := Apply(m, LruMachine.UnlinkList(a)); var id := m.w.s.Owner(a);
      && Became(m.w, m'.w, a, m.w.s.meta[a], m.w.held[a], id)
      && id < |m.w.lists| && a in m.w.lists[id]
      && m'.w.lists == m.w.lists[id := Without(m.w.lists[id], IndexOf(m.w.lists[id], a))]
      && m'.busy == m.busy[a := Dropping] && m'.pending == m.pending && m'.crawls == m.crawls
  {
    hide CanDetach, Detach;
    DetachFacts(m.w, a);
  }

  lemma UnlinkDropEffect(m: Sys, a: Addr)
    requires Enabled(m, LruMachine.UnlinkDrop(a)) && m.w.s.meta[a].refcount > 1
    ensures var m' := Apply(m, LruMachine.UnlinkDrop(a)); var t := m.w.s.meta[a];
      && m.w.held[a] > 0 && Became(m.w, m'.w, a, t.(refcount := t.refcount - 1), m.w.held[a] - 1, m.w.s.Owner(a))
      && m'.w.lists == m.w.lists && m'.busy == m.busy - {a} && m'.pending == m.pending && m'.crawls == m.crawls
  {}

  /** do_item_unlink on a linked item that somebody holds. */
  lemma UnlinkEffect(m: Sys, a: Addr, m': Sys)
    requires Inv(m) && Idle(m, a) && m.w.s.meta[a].linked && m.w.held[a] > 0
    requires Took(m, [LruMachine.UnlinkFlag(a), LruMachine.UnlinkList(a), LruMachine.UnlinkDrop(a)], m')
    ensures var t, id := m.w.s.meta[a], m.w.s.Owner(a);
      && SameRest(m, m') && t.refcount > 0 && Became(m.w, m'.w, a, t.(linked := false, refcount := t.refcount - 1),
          m.w.held[a], id)
      && id < |m.w.lists| && a in m.w.lists[id]
      && m'.w.lists == m.w.lists[id := Without(m.w.lists[id], IndexOf(m.w.lists[id], a))]
  {
    hide Inv, Apply, Enabled, Became, Took, IndexOf, Without;
    TookThree(m, LruMachine.UnlinkFlag(a), LruMachine.UnlinkList(a), LruMachine.UnlinkDrop(a), m');
    CountKnown(m, a);
    var t, id, h := m.w.s.meta[a], m.w.s.Owner(a), m.w.held[a];
    UnlinkFlagEffect(m, a);
    var m1 := Apply(m, LruMachine.UnlinkFlag(a));
    BecameSays(m.w, m1.w, a, t.(linked := false), h + 1, id);
    UnlinkListEffect(m1, a);
    var m2 := Apply(m1, LruMachine.UnlinkList(a));
    BecameTrans(m.w, m1.w, m2.w, a, t.(linked := false), h + 1, id, t.(linked := false), h + 1, id);
    BecameSays(m.w, m2.w, a, t.(linked := false), h + 1, id);
    UnlinkDropEffect(m2, a);
    BecameTrans(m.w, m2.w, m'.w, a, t.(linked := false), h + 1, id, t.(linked := false, refcount := t.refcount - 1),
        h, id);
    assert m.busy[a := Unlinking][a := Dropping] - {a} == m.busy;
  }

  lemma BecameSays(w: World, w': World, a: Addr, t: Meta, held: nat, owner: nat)
    requires Became(w, w', a, t, held, owner)
    ensures a in w'.s.meta && w'.s.meta[a] == t && a in w'.held && w'.held[a] == held && w'.s.Owner(a) == owner
  {}

  lemma CountKnown(m: Sys, a: Addr)
    requires Inv(m) && Idle(m, a)
    ensures m.w.s.meta[a].refcount == m.w.held[a] + (if m.w.s.meta[a].linked then 1 else 0)
    ensures m.w.s.meta[a].refcount > 0
  {
    hide OkW;
    RefKnown(m.w, a, Odd(m.busy));
  }

  lemma MoveOffEffect(m: Sys, a: Addr)
    requires Enabled(m, LruMachine.MoveOff(a))
    ensures var m' := Apply(m, LruMachine.MoveOff(a)); var id := m.w.s.Owner(a);
      && Became(m.w, m'.w, a, m.w.s.meta[a], m.w.held[a], id)
      && id < |m.w.lists| && a in m.w.lists[id]
      && m'.w.lists == m.w.lists[id := Without(m.w.lists[id], IndexOf(m.w.lists[id], a))]
      && m'.busy == m.busy[a := Moving] && m'.pending == m.pending && m'.crawls == m.crawls
  {
    hide CanDetach, Detach;
    DetachFacts(m.w, a);
  }

  lemma MoveOnEffect(m: Sys, a: Addr, id: nat, active: bool)
    requires Enabled(m, LruMachine.MoveOn(a, id, active))
    ensures var m' := Apply(m, LruMachine.MoveOn(a, id, active));
      && Became(m.w, m'.w, a, m.w.s.meta[a].(active := active), m.w.held[a], id)
      && |m.w.lists| == CLASSES && id < CLASSES && SlabClass(id) == SlabClass(m.w.s.Owner(a))
      && m'.w.lists == m.w.lists[id := [a] + m.w.lists[id]]
      && m'.busy == m.busy - {a} && m'.pending == m.pending && m'.crawls == m.crawls
  {
    hide LinkAsserts, Attach;
    var w1 := Reclass(m.w, a, id, active);
    AttachFacts(w1, a);
    OnlyItemTrans(m.w, w1, Attach(w1, a), a);
  }

  /** What a move between lists, or to the head of the same one, comes to. */
  lemma MovedFacts(m: Sys, a: Addr, id: nat, active: bool)
    requires Enabled(m, LruMachine.MoveOff(a))
    requires Enabled(Apply(m, LruMachine.MoveOff(a)), LruMachine.MoveOn(a, id, active))
    requires a in m.w.s.meta && a in m.w.held && a !in m.busy
    ensures var m' := Apply(Apply(m, LruMachine.MoveOff(a)),
        LruMachine.MoveOn(a, id, active)); var from := m.w.s.Owner(a);
      && SameRest(m, m') && Became(m.w, m'.w, a, m.w.s.meta[a].(active := active), m.w.held[a], id)
      && from < |m.w.lists| == CLASSES && id < CLASSES && a in m.w.lists[from] && SlabClass(id) == SlabClass(from)
      && m'.w.lists == Shifted(m.w.lists, from, id, a)
  {
    hide Enabled, Apply, Became, IndexOf, Without;
    MoveOffEffect(m, a);
    var m1 := Apply(m, LruMachine.MoveOff(a));
    var t, h := m.w.s.meta[a], m.w.held[a];
    BecameSays(m.w, m1.w, a, t, h, m.w.s.Owner(a));
    MoveOnEffect(m1, a, id, active);
    BecameTrans(m.w, m1.w, Apply(m1, LruMachine.MoveOn(a, id, active)).w, a, t, h, m.w.s.Owner(a),
        t.(active := active), h, id);
    assert m.busy[a := Moving] - {a} == m.busy;
  }

  /** The lists after an item has moved from one to the head of another. */
  function Shifted(lists: Lists, from: nat, to: nat, a: Addr): Lists
    requires from < |lists| && to < |lists| && a in lists[from]
  {
    var off := lists[from := Without(lists[from], IndexOf(lists[from], a))];
    off[to := [a] + off[to]]
  }
}

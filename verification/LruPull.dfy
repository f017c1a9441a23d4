/** lru_pull_tail: the walk up from the tail of a list under its lock, and what
happens to the item it stops at after the lock is given back. */
module LruPull {
  import opened Basics
  import opened LruList
  import opened LruState
  import opened LruWorld
  import opened LruMachine
  import opened LruRuns
  import opened Lru

  /** The arguments and settings of a call. `canLock` says which item locks
  item_trylock gets, and `flushed` is item_is_flushed. */
  datatype Pull = Pull(
    origId: nat, segment: nat, totalBytes: nat, evict: bool, crawlBlocks: bool, returnItem: bool,
    maxAge: int, now: int, hotPct: nat, warmPct: nat, segmented: bool, evictToFree: bool,
    flushed: Addr -> bool, canLock: Addr -> bool)
  {
    predicate Valid() { origId < 64 && segment in {HOT, WARM, COLD, TEMP} }

    function Id(): nat { origId + segment }

    /** How many references the item that the walk stops at is left with. */
    function Kept(): nat { if returnItem then 1 else 0 }

    /** The most bytes that a HOT or WARM list may have. */
    function Limit(): int {
      var hot := totalBytes * hotPct / 100;
      if segment == HOT && hot != 0 then hot else totalBytes * warmPct / 100
    }

    predicate Dead(w: World, a: Addr)
      requires a in w.s.meta
    {
      (w.s.meta[a].exptime != 0 && w.s.meta[a].exptime < now) || flushed(a)
    }
  }

  /** What is done with an item whose lock was taken: it is reclaimed, put back
  at the head of its list, sent to another list, evicted, or left alone. */
  datatype Act = Reclaim(a: Addr) | Requeue(a: Addr) | Send(a: Addr, id: nat) | Evict(a: Addr) | Stay(a: Addr)

  predicate Stops(act: Act) { act.Send? || act.Evict? || act.Stay? }

  function Choose(w: World, p: Pull, a: Addr): (act: Act)
    requires a in w.s.meta && w.s.Shaped() && p.Valid()
    ensures act.a == a
  {
    var t := w.s.meta[a];
    if p.Dead(w, a) then Reclaim(a)
    else if p.segment == HOT || p.segment == WARM then
      if t.active then (if p.segment == WARM then Requeue(a) else Send(a, p.origId + WARM))
      else if w.s.bytes[p.Id()] > p.Limit() || p.now - t.time > p.maxAge then Send(a, p.origId + COLD)
      else Stay(a)
    else if p.segment == COLD then
      if p.evict then (if p.evictToFree then Evict(a) else Stay(a))
      else if !p.returnItem && t.active && p.segmented then Send(a, p.origId + WARM)
      else Stay(a)
    else Stay(a)
  }

  function Unlink3(a: Addr): seq<Step> {
    [LruMachine.UnlinkFlag(a), LruMachine.UnlinkList(a), LruMachine.UnlinkDrop(a)]
  }

  /** The steps of an act under the list lock. */
  function ActSteps(w: World, p: Pull, act: Act): seq<Step>
    requires act.a in w.s.meta
  {
    var t := w.s.meta[act.a];
    match act
    case Reclaim(a) => [LruMachine.Incref(a)] + Unlink3(a) + [LruMachine.Decref(a)]
    case Requeue(a) => [LruMachine.Incref(a)] + [LruMachine.Mark(a, false, t.fetched, t.time)] +
      [LruMachine.MoveOff(a)] + [LruMachine.MoveOn(a, p.Id(), false)] + [LruMachine.Decref(a)]
    case Send(a, _) => [LruMachine.Incref(a)] +
      (if t.active then [LruMachine.Mark(a, false, t.fetched, t.time)] else []) + [LruMachine.MoveOff(a)]
    case Evict(a) => [LruMachine.Incref(a)] + Unlink3(a)
    case Stay(a) => [LruMachine.Incref(a)]
  }

  /** The steps on the item that the walk stopped at, after the list lock. */
  function FinishSteps(p: Pull, act: Act): seq<Step> {
    (if act.Send? then [LruMachine.MoveOn(act.a, act.id, false)] else []) + Drops(act.a, p.Kept())
  }

  /** Where the walk stands: at an address of the list, or past its head, with
  some tries left and some acts done. `n` is how many members of the list before
  the call are still ahead. */
  datatype Spot = Spot(m: Sys, at: Addr, tries: nat, n: nat, acts: seq<Act>)

  /** How the first section ended: at which act, if it stopped at one, or because
  of a crawler. */
  datatype Outcome = Outcome(m: Sys, acts: seq<Act>, stop: Option<Act>, blocked: bool)

  ghost predicate Going(p: Pull, x: Spot) {
    p.Valid() && x.tries > 0 && x.at != NULL && |x.m.w.lists| == CLASSES && x.m.w.s.Shaped()
  }

  /** The walk is at an item whose lock it gets. */
  ghost predicate Locks(p: Pull, x: Spot) {
    Going(p, x) && !IsCrawler(x.at) && p.canLock(x.at) && x.at in x.m.w.s.meta
  }

  /** One turn of the loop that does not end it. */
  ghost predicate Advance(p: Pull, x: Spot, y: Spot) {
    Going(p, x) &&
    var next := Before(x.m.w.lists[p.Id()], x.at);
    var n := if x.n > 0 then x.n - 1 else 0;
    if IsCrawler(x.at) then !p.crawlBlocks && y == x.(at := next, n := n)
    else if !p.canLock(x.at) then y == x.(at := next, tries := x.tries - 1, n := n)
    else
      Locks(p, x) &&
      var act := Choose(x.m.w, p, x.at);
      !Stops(act) && Took(x.m, ActSteps(x.m.w, p, act), y.m) && y == Spot(y.m, next, x.tries - 1, n, x.acts + [act])
  }

  /** How the loop ends. */
  ghost predicate Ends(p: Pull, x: Spot, r: Outcome) {
    if x.tries == 0 || x.at == NULL then r == Outcome(x.m, x.acts, None, false)
    else if IsCrawler(x.at) then p.crawlBlocks && r == Outcome(x.m, x.acts, None, true)
    else
      Locks(p, x) &&
      var act := Choose(x.m.w, p, x.at);
      Stops(act) && Took(x.m, ActSteps(x.m.w, p, act), r.m) && r == Outcome(r.m, x.acts + [act], Some(act), false)
  }

  /** The walk from the tail of the list, as the turns of its loop. */
  ghost predicate Walk(p: Pull, m: Sys, trail: seq<Spot>, r: Outcome) {
    && trail != [] && p.Id() < |m.w.lists| && trail[0] == First(p, m)
    && (forall k {:trigger trail[k]} :: 0 < k < |trail| ==> Advance(p, trail[k - 1], trail[k]))
    && Ends(p, trail[|trail| - 1], r)
  }

  function First(p: Pull, m: Sys): Spot
    requires p.Id() < |m.w.lists|
  {
    var list := m.w.lists[p.Id()];
    Spot(m, if list == [] then NULL else list[|list| - 1], 5, |list|, [])
  }

  /** The items reclaimed, moved or evicted. */
  function Removed(acts: seq<Act>): nat {
    if acts == [] then 0 else Removed(acts[..|acts| - 1]) + if acts[|acts| - 1].Stay? then 0 else 1
  }

  lemma RemovedSnoc(acts: seq<Act>, act: Act)
    ensures Removed(acts + [act]) == Removed(acts) + if act.Stay? then 0 else 1
  {
    assert (acts + [act])[..|acts|] == acts;
  }

  /** The number that the call returns. */
  function Report(r: Outcome): nat { if r.blocked then 0 else Removed(r.acts) }

  /** The item that it hands out with a reference. */
  function Returned(p: Pull, r: Outcome): Addr {
    if r.stop.Some? && p.segment == COLD && !p.evict && p.returnItem then r.stop.value.a else NULL
  }

  /** do_item_unlink_nolock on an item that is held under its lock. */
  method TakeOut(c: Cache, a: Addr, ghost m0: Sys)
    requires c.Valid() && Idle(c.m, a) && c.m.w.s.meta[a].linked && c.m.w.held[a] > 0
    requires Took(m0, [LruMachine.Incref(a)], c.m)
    modifies c
    ensures c.Valid() && Took(m0, [LruMachine.Incref(a)] + Unlink3(a), c.m)
    ensures Idle(c.m, a) && (HasHolder(old(c.m), a) ==> HasHolder(c.m, a))
  {
    hide Inv, Enabled, Apply, Took;
    ghost var m1 := c.m;
    c.UnlinkItem(a);
    UnlinkHeld(m1, a, c.m);
    TookConcat(m0, [LruMachine.Incref(a)], m1, Unlink3(a), c.m);
  }

  lemma UnlinkHeld(m: Sys, a: Addr, m': Sys)
    requires Inv(m) && Idle(m, a) && m.w.s.meta[a].linked && m.w.held[a] > 0 && Took(m, Unlink3(a), m')
    ensures Idle(m', a) && (HasHolder(m, a) ==> HasHolder(m', a))
  {
    hide OkW, Took;
    UnlinkEffect(m, a, m');
    RefKnown(m.w, a, Odd(m.busy));
  }

  /** The Mark and the two halves of a move, and what they keep. */
  method Clear(c: Cache, a: Addr, ghost m0: Sys, ghost steps: seq<Step>)
    requires c.Valid() && Idle(c.m, a) && HasHolder(c.m, a) && Took(m0, steps, c.m)
    modifies c
    ensures c.Valid() && Idle(c.m, a) && HasHolder(c.m, a)
    ensures var t := old(c.m.w.s.meta)[a];
      Took(m0, steps + [LruMachine.Mark(a, false, t.fetched, t.time)], c.m) && c.m.w.s.meta[a].linked == t.linked
    ensures c.m.w.s.Owner(a) == old(c.m.w.s.Owner(a))
  {
    hide Inv, Apply, Took;
    var t := c.s.meta[a];
    MarkHeld(c.m, a, false, t.fetched, t.time);
    TookSnoc(m0, steps, c.m, LruMachine.Mark(a, false, t.fetched, t.time));
    c.Mark(a, false, t.fetched, t.time);
  }

  lemma MarkHeld(m: Sys, a: Addr, active: bool, fetched: bool, time: int)
    requires Idle(m, a) && HasHolder(m, a)
    ensures var m' := Apply(m, LruMachine.Mark(a, active, fetched, time));
      Idle(m', a) && HasHolder(m', a) && m'.w.s.Owner(a) == m.w.s.Owner(a) &&
      m'.w.s.meta[a] == m.w.s.meta[a].(active := active, fetched := fetched, time := time)
  {}

  method Off(c: Cache, a: Addr, ghost m0: Sys, ghost steps: seq<Step>)
    requires c.Valid() && Idle(c.m, a) && HasHolder(c.m, a) && c.m.w.s.meta[a].linked && Took(m0, steps, c.m)
    modifies c
    ensures c.Valid() && At(c.m, a, Moving) && HasHolder(c.m, a)
    ensures Took(m0, steps + [LruMachine.MoveOff(a)], c.m) && c.m.w.s.Owner(a) == old(c.m.w.s.Owner(a))
  {
    hide Inv, Enabled, Apply, Took;
    CanMoveOff(c.m, a);
    OffHeld(c.m, a);
    TookSnoc(m0, steps, c.m, LruMachine.MoveOff(a));
    c.MoveOff(a);
  }

  lemma OffHeld(m: Sys, a: Addr)
    requires Enabled(m, LruMachine.MoveOff(a)) && HasHolder(m, a)
    ensures var m' := Apply(m, LruMachine.MoveOff(a));
      At(m', a, Moving) && HasHolder(m', a) && m'.w.s.Owner(a) == m.w.s.Owner(a)
  {}

  method On(c: Cache, a: Addr, id: nat, ghost m0: Sys, ghost steps: seq<Step>)
    requires c.Valid() && At(c.m, a, Moving) && HasHolder(c.m, a) && Took(m0, steps, c.m)
    requires id < CLASSES && SlabClass(id) == SlabClass(c.m.w.s.Owner(a))
    modifies c
    ensures c.Valid() && Idle(c.m, a) && HasHolder(c.m, a)
    ensures Took(m0, steps + [LruMachine.MoveOn(a, id, false)], c.m)
  {
    hide Inv, Enabled, Apply, Took;
    CanGoOn(c.m, a, LruMachine.MoveOn(a, id, false));
    OnHeld(c.m, a, id);
    TookSnoc(m0, steps, c.m, LruMachine.MoveOn(a, id, false));
    c.MoveOn(a, id, false);
  }

  lemma OnHeld(m: Sys, a: Addr, id: nat)
    requires Enabled(m, LruMachine.MoveOn(a, id, false)) && HasHolder(m, a)
    ensures var m' := Apply(m, LruMachine.MoveOn(a, id, false)); Idle(m', a) && HasHolder(m', a)
  {
    MoveOnEffect(m, a, id, false);
  }

  method Release(c: Cache, a: Addr, ghost m0: Sys, ghost steps: seq<Step>)
    requires c.Valid() && Idle(c.m, a) && HasHolder(c.m, a) && Took(m0, steps, c.m)
    modifies c
    ensures c.Valid() && Took(m0, steps + [LruMachine.Decref(a)], c.m)
  {
    hide Inv, Apply, Took;
    TookSnoc(m0, steps, c.m, LruMachine.Decref(a));
    c.Remove(a);
  }

  /** What is known of the item at which the walk is. */
  lemma AtItem(m: Sys, id: nat, a: Addr)
    requires Inv(m) && id < CLASSES && |m.w.lists| == CLASSES && a in m.w.lists[id] && !IsCrawler(a) && a !in m.busy
    ensures Idle(m, a) && m.w.s.meta[a].linked && m.w.s.Owner(a) == id && a in m.w.s.clsid && m.w.s.Shaped()
  {
    NotOdd(m, a);
    MemberKnown(m.w, id, a, Odd(m.busy));
    RefKnown(m.w, a, Odd(m.busy));
    OwnerKnown(m.w, a, Odd(m.busy));
  }

  /** The item has been looked at and is held by the walk, since m0. */
  ghost predicate Taken(m0: Sys, m: Sys, p: Pull, a: Addr) {
    && p.Valid() && 0 < p.origId && Idle(m0, a) && m0.w.s.meta[a].linked && m0.w.s.Owner(a) == p.Id() && m0.w.s.Shaped()
    && Idle(m, a) && HasHolder(m, a) && m.w.held[a] > 0 && m.w.s.Owner(a) == p.Id() && m.w.s.bytes == m0.w.s.bytes
    && m.w.s.meta[a] == m0.w.s.meta[a].(refcount := m.w.s.meta[a].refcount)
    && Took(m0, [LruMachine.Incref(a)], m)
  }

  /** How the body leaves an item that it stops at. */
  ghost predicate LeftAt(p: Pull, m: Sys, act: Act) {
    Stops(act) ==> (HasHolder(m, act.a) &&
      if act.Send? then At(m, act.a, Moving) && m.w.s.Owner(act.a) == p.Id() else Idle(m, act.a))
  }

  /** The loop body for an item whose lock was taken, up to the list unlock. */
  method DoAct(c: Cache, p: Pull, a: Addr) returns (act: Act)
    requires p.Valid() && 0 < p.origId && c.Valid() && c.s.Shaped()
    requires Idle(c.m, a) && c.m.w.s.meta[a].linked && c.m.w.s.Owner(a) == p.Id()
    modifies c
    ensures c.Valid() && act == Choose(old(c.m.w), p, a) && Took(old(c.m), ActSteps(old(c.m.w), p, act), c.m)
    ensures LeftAt(p, c.m, act)
  {
    hide Inv, Enabled, Apply, Took, HasHolder;
    ghost var m0 := c.m;
    CanIncref(m0, a);
    HolderAfter(m0, a);
    TookOne(m0, LruMachine.Incref(a));
    IncrefEffect(m0, a);
    var t := c.s.meta[a];
    var refs := c.Incref(a);
    if (t.exptime != 0 && t.exptime < p.now) || p.flushed(a) {
      TakeOut(c, a, m0);
      Release(c, a, m0, [LruMachine.Incref(a)] + Unlink3(a));
      return Reclaim(a);
    }
    if p.segment == HOT || p.segment == WARM {
      act := DoWarm(c, p, a, m0);
    } else if p.segment == COLD {
      act := DoCold(c, p, a, m0);
    } else {
      act := Stay(a);
    }
  }

  /** The cases HOT_LRU and WARM_LRU. */
  method DoWarm(c: Cache, p: Pull, a: Addr, ghost m0: Sys) returns (act: Act)
    requires c.Valid() && Taken(m0, c.m, p, a) && !p.Dead(m0.w, a) && p.segment in {HOT, WARM}
    modifies c
    ensures c.Valid() && act == Choose(m0.w, p, a) && Took(m0, ActSteps(m0.w, p, act), c.m) && LeftAt(p, c.m, act)
  {
    hide Inv, Enabled, Apply, Took, HasHolder;
    var t := c.s.meta[a];
    ghost var held := [LruMachine.Incref(a)];
    var limit := 0;
    if p.segment == HOT {
      limit := p.totalBytes * p.hotPct / 100;
    }
    if limit == 0 {
      limit := p.totalBytes * p.warmPct / 100;
    }
    if t.active {
      Clear(c, a, m0, held);
      held := held + [LruMachine.Mark(a, false, t.fetched, t.time)];
      Off(c, a, m0, held);
      if p.segment == WARM {
        held := held + [LruMachine.MoveOff(a)];
        On(c, a, p.Id(), m0, held);
        Release(c, a, m0, held + [LruMachine.MoveOn(a, p.Id(), false)]);
        return Requeue(a);
      }
      return Send(a, p.origId + WARM);
    } else if c.s.bytes[p.Id()] > limit || p.now - t.time > p.maxAge {
      Off(c, a, m0, held);
      assert held + [] == held;
      return Send(a, p.origId + COLD);
    }
    return Stay(a);
  }

  /** The case COLD_LRU. */
  method DoCold(c: Cache, p: Pull, a: Addr, ghost m0: Sys) returns (act: Act)
    requires c.Valid() && Taken(m0, c.m, p, a) && !p.Dead(m0.w, a) && p.segment == COLD
    modifies c
    ensures c.Valid() && act == Choose(m0.w, p, a) && Took(m0, ActSteps(m0.w, p, act), c.m) && LeftAt(p, c.m, act)
  {
    hide Inv, Enabled, Apply, Took, HasHolder;
    var t := c.s.meta[a];
    if p.evict {
      if p.evictToFree {
        TakeOut(c, a, m0);
        return Evict(a);
      }
    } else if !p.returnItem && t.active && p.segmented {
      Clear(c, a, m0, [LruMachine.Incref(a)]);
      Off(c, a, m0, [LruMachine.Incref(a)] + [LruMachine.Mark(a, false, t.fetched, t.time)]);
      return Send(a, p.origId + WARM);
    }
    return Stay(a);
  }

  lemma CanIncref(m: Sys, a: Addr)
    requires Idle(m, a)
    ensures Enabled(m, LruMachine.Incref(a))
  {}

  /** The lists after an item was taken out of one. */
  function TakenFrom(lists: Lists, id: nat, a: Addr): Lists
    requires id < |lists| && a in lists[id]
  {
    lists[id := Without(lists[id], IndexOf(lists[id], a))]
  }

  /** An item is off its list: freed, unless somebody still holds it, or the
  call keeps its reference. */
  ghost predicate Gone(w: World, w': World, a: Addr, kept: nat)
    requires a in w.s.meta && a in w.held
  {
    var t := w.s.meta[a];
    && t.refcount > 0 && w.s.Owner(a) < |w.lists| && a in w.lists[w.s.Owner(a)]
    && w'.lists == TakenFrom(w.lists, w.s.Owner(a), a)
    && if w.held[a] + kept == 0 then Freed(w, w', a)
       else Became(w, w', a, t.(linked := false, refcount := t.refcount - 1 + kept), w.held[a] + kept, w.s.Owner(a))
  }

  /** An item is inactive and at the head of a list. */
  ghost predicate Rehomed(w: World, w': World, a: Addr, id: nat, kept: nat)
    requires a in w.s.meta && a in w.held
  {
    var t := w.s.meta[a];
    && w.s.Owner(a) < |w.lists| && a in w.lists[w.s.Owner(a)] && id < |w.lists|
    && w'.lists == Shifted(w.lists, w.s.Owner(a), id, a)
    && Became(w, w', a, t.(active := false, refcount := t.refcount + kept), w.held[a] + kept, id)
  }

  /** An item is where it was. */
  ghost predicate Stayed(w: World, w': World, a: Addr, kept: nat)
    requires a in w.s.meta && a in w.held
  {
    var t := w.s.meta[a];
    w'.lists == w.lists && Became(w, w', a, t.(refcount := t.refcount + kept), w.held[a] + kept, w.s.Owner(a))
  }

  lemma UnlinkHeldEffect(m: Sys, a: Addr, m2: Sys)
    requires Inv(m) && Idle(m, a) && m.w.s.meta[a].linked && Took(m, [LruMachine.Incref(a)] + Unlink3(a), m2)
    ensures var t, id := m.w.s.meta[a], m.w.s.Owner(a);
      && SameRest(m, m2) && Became(m.w, m2.w, a, t.(linked := false), m.w.held[a] + 1, id)
      && id < |m.w.lists| && a in m.w.lists[id] && m2.w.lists == TakenFrom(m.w.lists, id, a)
    ensures Inv(m2) && Idle(m2, a) && HasHolder(m2, a)
  {
    hide Inv, Apply, Enabled, Took, Became, HasHolder, IndexOf, Without;
    RunInv(m, [LruMachine.Incref(a)] + Unlink3(a), m2);
    var m1 := TookSplit(m, [LruMachine.Incref(a)], Unlink3(a), m2);
    RunInv(m, [LruMachine.Incref(a)], m1);
    TookOnly(m, LruMachine.Incref(a), m1);
    IncrefEffect(m, a);
    HolderAfter(m, a);
    var t, h, id := m.w.s.meta[a], m.w.held[a], m.w.s.Owner(a);
    BecameSays(m.w, m1.w, a, t.(refcount := t.refcount + 1), h + 1, id);
    UnlinkHeld(m1, a, m2);
    UnlinkEffect(m1, a, m2);
    BecameTrans(m.w, m1.w, m2.w, a, t.(refcount := t.refcount + 1), h + 1, id, t.(linked := false), h + 1, id);
    assert t.(refcount := t.refcount + 1).(linked := false, refcount := t.refcount) == t.(linked := false);
  }

  lemma ReclaimEffect(m: Sys, a: Addr, m': Sys)
    requires Inv(m) && Idle(m, a) && m.w.s.meta[a].linked
    requires Took(m, [LruMachine.Incref(a)] + Unlink3(a) + [LruMachine.Decref(a)], m')
    ensures SameRest(m, m') && Gone(m.w, m'.w, a, 0)
  {
    hide Inv, Apply, Enabled, Took, Became, Freed, TakenFrom, HasHolder;
    CountKnown(m, a);
    var m2 := TookSplit(m, [LruMachine.Incref(a)] + Unlink3(a), [LruMachine.Decref(a)], m');
    UnlinkHeldEffect(m, a, m2);
    TookOnly(m2, LruMachine.Decref(a), m');
    DecrefEffect(m2, a);
    var t, h, id := m.w.s.meta[a], m.w.held[a], m.w.s.Owner(a);
    BecameSays(m.w, m2.w, a, t.(linked := false), h + 1, id);
    BecameTrans(m.w, m2.w, m'.w, a, t.(linked := false), h + 1, id, t.(linked := false, refcount := t.refcount - 1),
        h, id);
    assert t.(linked := false).(refcount := t.refcount - 1) == t.(linked := false, refcount := t.refcount - 1);
  }

  /** Incref, Mark, MoveOff. */
  lemma OffEffect(m: Sys, a: Addr, m3: Sys)
    requires Inv(m) && Idle(m, a)
    requires var t := m.w.s.meta[a];
      Took(m, [LruMachine.Incref(a)] + [LruMachine.Mark(a, false, t.fetched, t.time)] + [LruMachine.MoveOff(a)], m3)
    ensures var t, id := m.w.s.meta[a], m.w.s.Owner(a);
      && Became(m.w, m3.w, a, t.(active := false, refcount := t.refcount + 1), m.w.held[a] + 1, id)
      && id < |m.w.lists| && a in m.w.lists[id] && m3.w.lists == TakenFrom(m.w.lists, id, a)
      && m3.busy == m.busy[a := Moving] && m3.pending == m.pending && m3.crawls == m.crawls
    ensures Inv(m3) && At(m3, a, Moving) && HasHolder(m3, a)
  {
    hide Inv, Apply, Enabled, Took, Became, HasHolder, IndexOf, Without;
    var t, h, id := m.w.s.meta[a], m.w.held[a], m.w.s.Owner(a);
    var x, y, z := LruMachine.Incref(a), LruMachine.Mark(a, false, t.fetched, t.time), LruMachine.MoveOff(a);
    assert [x] + [y] + [z] == [x, y, z];
    RunInv(m, [x, y, z], m3);
    TookThree(m, x, y, z, m3);
    IncrefEffect(m, a);
    HolderAfter(m, a);
    var m1 := Apply(m, x);
    BecameSays(m.w, m1.w, a, t.(refcount := t.refcount + 1), h + 1, id);
    MarkHeld(m1, a, false, t.fetched, t.time);
    MarkEffect(m1, a, false, t.fetched, t.time);
    var m2 := Apply(m1, y);
    BecameTrans(m.w, m1.w, m2.w, a, t.(refcount := t.refcount + 1), h + 1, id,
        t.(active := false, refcount := t.refcount + 1), h + 1, id);
    BecameSays(m.w, m2.w, a, t.(active := false, refcount := t.refcount + 1), h + 1, id);
    MoveOffEffect(m2, a);
    OffHeld(m2, a);
    BecameTrans(m.w, m2.w, m3.w, a, t.(active := false, refcount := t.refcount + 1), h + 1, id,
        t.(active := false, refcount := t.refcount + 1), h + 1, id);
  }

  lemma MarkEffect(m: Sys, a: Addr, active: bool, fetched: bool, time: int)
    requires Idle(m, a)
    ensures var m' := Apply(m, LruMachine.Mark(a, active, fetched, time));
      && SameRest(m, m') && m'.w.lists == m.w.lists
      && Became(m.w, m'.w, a, m.w.s.meta[a].(active := active, fetched := fetched, time := time), m.w.held[a],
          m.w.s.Owner(a))
  {}

  /** The reference of the walk is given back, unless it is kept. */
  function Drops(a: Addr, kept: nat): seq<Step> { if kept > 0 then [] else [LruMachine.Decref(a)] }

  lemma TookNothing(m: Sys, m': Sys)
    requires Took(m, [], m')
    ensures m' == m
  {}

  /** MoveOn, Decref after that. */
  lemma OnEffect(m: Sys, a: Addr, id: nat, m3: Sys, kept: nat, m': Sys)
    requires a in m.w.s.meta && a in m.w.held && a !in m.busy && m.w.s.meta[a].linked && m.w.s.Owner(a) < |m.w.lists|
    requires var t := m.w.s.meta[a];
      Became(m.w, m3.w, a, t.(active := false, refcount := t.refcount + 1), m.w.held[a] + 1, m.w.s.Owner(a))
    requires a in m.w.lists[m.w.s.Owner(a)] && m3.w.lists == TakenFrom(m.w.lists, m.w.s.Owner(a), a)
    requires m3.busy == m.busy[a := Moving] && m3.pending == m.pending && m3.crawls == m.crawls
    requires Inv(m3) && HasHolder(m3, a)
    requires kept <= 1 && Took(m3, [LruMachine.MoveOn(a, id, false)] + Drops(a, kept), m')
    ensures SameRest(m, m') && Rehomed(m.w, m'.w, a, id, kept)
  {
    hide Inv, Apply, Enabled, Took, Became, HasHolder, IndexOf, Without;
    var t, h, from := m.w.s.meta[a], m.w.held[a], m.w.s.Owner(a);
    BecameSays(m.w, m3.w, a, t.(active := false, refcount := t.refcount + 1), h + 1, from);
    var m4 := TookSplit(m3, [LruMachine.MoveOn(a, id, false)], Drops(a, kept), m');
    TookOnly(m3, LruMachine.MoveOn(a, id, false), m4);
    RunInv(m3, [LruMachine.MoveOn(a, id, false)], m4);
    MoveOnEffect(m3, a, id, false);
    OnHeld(m3, a, id);
    var t1 := t.(active := false, refcount := t.refcount + 1);
    BecameTrans(m.w, m3.w, m4.w, a, t1, h + 1, from, t1, h + 1, id);
    assert m.busy[a := Moving] - {a} == m.busy;
    OnDrops(m, a, id, m4, kept, m');
  }

  /** The references that the call does not keep are given back. */
  lemma OnDrops(m: Sys, a: Addr, id: nat, m4: Sys, kept: nat, m': Sys)
    requires a in m.w.s.meta && a in m.w.held && a !in m.busy && m.w.s.meta[a].linked && m.w.s.Owner(a) < |m.w.lists|
    requires var t := m.w.s.meta[a];
      Became(m.w, m4.w, a, t.(active := false, refcount := t.refcount + 1), m.w.held[a] + 1, id)
    requires m4.busy == m.busy && m4.pending == m.pending && m4.crawls == m.crawls && Inv(m4) && HasHolder(m4, a)
    requires id < |m.w.lists| && a in m.w.lists[m.w.s.Owner(a)]
    requires m4.w.lists == Shifted(m.w.lists, m.w.s.Owner(a), id, a)
    requires kept <= 1 && Took(m4, Drops(a, kept), m')
    ensures SameRest(m, m') && Rehomed(m.w, m'.w, a, id, kept)
  {
    hide Inv, Apply, Enabled, Took, Became, HasHolder, IndexOf, Without;
    var t, h := m.w.s.meta[a], m.w.held[a];
    var t1 := t.(active := false, refcount := t.refcount + 1);
    BecameSays(m.w, m4.w, a, t1, h + 1, id);
    if kept == 0 {
      TookOnly(m4, LruMachine.Decref(a), m');
      DecrefEffect(m4, a);
      BecameTrans(m.w, m4.w, m'.w, a, t1, h + 1, id, t.(active := false), h, id);
      assert t1.(refcount := t.refcount) == t.(active := false) == t.(active := false, refcount := t.refcount + kept);
    } else {
      TookNothing(m4, m');
    }
  }

  lemma RequeueEffect(m: Sys, a: Addr, m': Sys)
    requires Inv(m) && Idle(m, a) && m.w.s.meta[a].linked && m.w.s.Owner(a) < |m.w.lists|
    requires var t := m.w.s.meta[a];
      Took(m, [LruMachine.Incref(a)] + [LruMachine.Mark(a, false, t.fetched, t.time)] + [LruMachine.MoveOff(a)] +
              [LruMachine.MoveOn(a, m.w.s.Owner(a), false)] + [LruMachine.Decref(a)], m')
    ensures SameRest(m, m') && Rehomed(m.w, m'.w, a, m.w.s.Owner(a), 0)
  {
    hide Inv, Apply, Enabled, Took, Became, HasHolder, TakenFrom, Rehomed;
    var t, id := m.w.s.meta[a], m.w.s.Owner(a);
    var s1 := [LruMachine.Incref(a)] + [LruMachine.Mark(a, false, t.fetched, t.time)] + [LruMachine.MoveOff(a)];
    var s2 := [LruMachine.MoveOn(a, id, false)] + [LruMachine.Decref(a)];
    assert s1 + [LruMachine.MoveOn(a, id, false)] + [LruMachine.Decref(a)] == s1 + s2;
    var m3 := TookSplit(m, s1, s2, m');
    OffEffect(m, a, m3);
    OnEffect(m, a, id, m3, 0, m');
  }

  /** Incref, MoveOff on an inactive item. */
  lemma OffPlainEffect(m: Sys, a: Addr, m3: Sys)
    requires Inv(m) && Idle(m, a) && !m.w.s.meta[a].active
    requires Took(m, [LruMachine.Incref(a)] + [LruMachine.MoveOff(a)], m3)
    ensures var t, id := m.w.s.meta[a], m.w.s.Owner(a);
      && Became(m.w, m3.w, a, t.(active := false, refcount := t.refcount + 1), m.w.held[a] + 1, id)
      && id < |m.w.lists| && a in m.w.lists[id] && m3.w.lists == TakenFrom(m.w.lists, id, a)
      && m3.busy == m.busy[a := Moving] && m3.pending == m.pending && m3.crawls == m.crawls
    ensures Inv(m3) && HasHolder(m3, a)
  {
    hide Inv, Apply, Enabled, Took, Became, HasHolder, IndexOf, Without;
    var t, h, id := m.w.s.meta[a], m.w.held[a], m.w.s.Owner(a);
    RunInv(m, [LruMachine.Incref(a)] + [LruMachine.MoveOff(a)], m3);
    var m1 := TookSplit(m, [LruMachine.Incref(a)], [LruMachine.MoveOff(a)], m3);
    TookOnly(m, LruMachine.Incref(a), m1);
    TookOnly(m1, LruMachine.MoveOff(a), m3);
    IncrefEffect(m, a);
    HolderAfter(m, a);
    var t1 := t.(active := false, refcount := t.refcount + 1);
    assert t1 == t.(refcount := t.refcount + 1);
    BecameSays(m.w, m1.w, a, t1, h + 1, id);
    MoveOffEffect(m1, a);
    OffHeld(m1, a);
    BecameTrans(m.w, m1.w, m3.w, a, t1, h + 1, id, t1, h + 1, id);
  }

  lemma SendEffect(m: Sys, p: Pull, a: Addr, id: nat, m3: Sys, m': Sys)
    requires Inv(m) && Idle(m, a) && m.w.s.meta[a].linked && m.w.s.Owner(a) < |m.w.lists|
    requires Took(m, ActSteps(m.w, p, Send(a, id)), m3) && Took(m3, FinishSteps(p, Send(a, id)), m')
    ensures SameRest(m, m') && Rehomed(m.w, m'.w, a, id, p.Kept())
  {
    hide Inv, Apply, Enabled, Took, Became, HasHolder, TakenFrom, Rehomed;
    if m.w.s.meta[a].active {
      OffEffect(m, a, m3);
    } else {
      assert [LruMachine.Incref(a)] + [] == [LruMachine.Incref(a)];
      OffPlainEffect(m, a, m3);
    }
    OnEffect(m, a, id, m3, p.Kept(), m');
  }

  lemma EvictEffect(m: Sys, p: Pull, a: Addr, m2: Sys, m': Sys)
    requires Inv(m) && Idle(m, a) && m.w.s.meta[a].linked
    requires Took(m, ActSteps(m.w, p, Evict(a)), m2) && Took(m2, FinishSteps(p, Evict(a)), m')
    ensures SameRest(m, m') && Gone(m.w, m'.w, a, p.Kept())
  {
    hide Inv, Apply, Enabled, Took, Became, Freed, TakenFrom, HasHolder;
    CountKnown(m, a);
    UnlinkHeldEffect(m, a, m2);
    assert [] + Drops(a, p.Kept()) == Drops(a, p.Kept());
    var t, h, id := m.w.s.meta[a], m.w.held[a], m.w.s.Owner(a);
    if p.returnItem {
      TookNothing(m2, m');
      assert t.(linked := false, refcount := t.refcount - 1 + 1) == t.(linked := false);
    } else {
      assert [LruMachine.Incref(a)] + Unlink3(a) + [LruMachine.Decref(a)] ==
          ([LruMachine.Incref(a)] + Unlink3(a)) + [LruMachine.Decref(a)];
      TookConcat(m, [LruMachine.Incref(a)] + Unlink3(a), m2, [LruMachine.Decref(a)], m');
      ReclaimEffect(m, a, m');
    }
  }

  lemma StayEffect(m: Sys, p: Pull, a: Addr, m1: Sys, m': Sys)
    requires Inv(m) && Idle(m, a)
    requires Took(m, ActSteps(m.w, p, Stay(a)), m1) && Took(m1, FinishSteps(p, Stay(a)), m')
    ensures SameRest(m, m') && Stayed(m.w, m'.w, a, p.Kept())
  {
    hide Inv, Apply, Enabled, Took, Became, HasHolder;
    CountKnown(m, a);
    assert [] + Drops(a, p.Kept()) == Drops(a, p.Kept());
    TookOnly(m, LruMachine.Incref(a), m1);
    RunInv(m, [LruMachine.Incref(a)], m1);
    IncrefEffect(m, a);
    HolderAfter(m, a);
    var t, h, id := m.w.s.meta[a], m.w.held[a], m.w.s.Owner(a);
    BecameSays(m.w, m1.w, a, t.(refcount := t.refcount + 1), h + 1, id);
    if p.returnItem {
      TookNothing(m1, m');
    } else {
      TookOnly(m1, LruMachine.Decref(a), m');
      DecrefEffect(m1, a);
      BecameTrans(m.w, m1.w, m'.w, a, t.(refcount := t.refcount + 1), h + 1, id, t, h, id);
      assert t.(refcount := t.refcount + 1).(refcount := t.refcount) == t;
    }
  }
}

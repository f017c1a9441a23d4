/** Asynchronous bumps: hits on items are queued with a reference each, and the
maintainer applies them in order and gives the references back, while other
threads go on. */
module LruBump {
  import opened Basics
  import opened LruList
  import opened LruState
  import opened LruWorld
  import opened LruMachine
  import opened LruRuns
  import opened Lru

  /** The steps of do_item_bump on an item that the caller holds. */
  function HitSteps(w: World, a: Addr, now: int, full: bool, mode: Mode): seq<Step>
    requires a in w.s.meta
  {
    var t := w.s.meta[a];
    if mode.Segmented? then
      if t.active then []
      else if !t.fetched then [LruMachine.Mark(a, false, true, t.time)]
      else if Segment(w.s.Owner(a)) != COLD then [LruMachine.Mark(a, true, true, now)]
      else if full then []
      else [LruMachine.Bump(a)]
    else
      [LruMachine.Mark(a, t.active, true, t.time)] + UpdateSteps(Touch(w, a, t.active, true, t.time), a, now, mode)
  }

  /** The steps of lru_maintainer_bumps on one entry. */
  function BumpSteps(w: World, a: Addr, now: int, mode: Mode): seq<Step>
    requires a in w.s.meta
  {
    UpdateSteps(w, a, now, mode) + [BumpDrop]
  }

  /** The entries applied one after the other, with nothing in between. */
  ghost predicate Bumped(m: Sys, queue: seq<Addr>, now: int, mode: Mode, m': Sys)
    decreases |queue|
  {
    if queue == [] then m' == m
    else
      var last := |queue| - 1;
      exists m1: Sys :: Bumped(m, queue[..last], now, mode, m1) && Applied(m1, queue[last], now, mode, m')
  }

  ghost predicate Applied(m: Sys, a: Addr, now: int, mode: Mode, m': Sys) {
    a in m.w.s.meta && m.pending != [] && m.pending[0] == a && Took(m, BumpSteps(m.w, a, now, mode), m')
  }

  lemma BumpedSnoc(m: Sys, queue: seq<Addr>, now: int, mode: Mode, m1: Sys, a: Addr, m2: Sys)
    requires Bumped(m, queue, now, mode, m1) && Applied(m1, a, now, mode, m2)
    ensures Bumped(m, queue + [a], now, mode, m2)
  {
    hide Applied;
    assert (queue + [a])[..|queue|] == queue && (queue + [a])[|queue|] == a;
  }

  /** refcount_incr. */
  function Referenced(s: State, a: Addr): State
    requires a in s.meta
  {
    s.(meta := s.meta[a := s.meta[a].(refcount := s.meta[a].refcount + 1)])
  }

  class Bumps {
    const cache: Cache
    /** The entries in the bump buffer, oldest first. */
    var queue: seq<Addr>
    /** How many of them the maintainer has applied since it peeked. */
    var done: nat
    var dropped: nat

    ghost predicate Valid()
      reads this, cache
    {
      cache.Valid() && done <= |queue| && cache.m.pending == queue[done..]
    }

    constructor (c: Cache)
      requires c.Valid() && c.m.pending == []
      ensures Valid() && cache == c && queue == [] && done == 0
    {
      cache := c;
      queue := [];
      done := 0;
      dropped := 0;
    }

    /** lru_bump_async: the entry is queued with a reference of its own, or both
    are taken back. */
    method BumpAsync(a: Addr, full: bool) returns (ret: bool)
      requires a in cache.s.meta && cache.s.meta[a].refcount > 0
      modifies this, cache`s
      ensures ret == !full && done == old(done)
      ensures if full then cache.s == old(cache.s) && queue == old(queue) && dropped == old(dropped) + 1
              else queue == old(queue) + [a] && dropped == old(dropped) &&
                   cache.s == Referenced(old(cache.s), a)
    {
      ghost var meta := cache.s.meta;
      ret := true;
      cache.s := cache.s.(meta := cache.s.meta[a := cache.s.meta[a].(refcount := cache.s.meta[a].refcount + 1)]);
      if !full {
        queue := queue + [a];
      } else {
        ret := false;
        dropped := dropped + 1;
        cache.s := cache.s.(meta := cache.s.meta[a := cache.s.meta[a].(refcount := cache.s.meta[a].refcount - 1)]);
        assert cache.s.meta == meta;
      }
    }

    /** do_item_bump. */
    method Hit(a: Addr, now: int, full: bool, mode: Mode)
      requires Valid() && Idle(cache.m, a)
      modifies this, cache
      ensures Valid() && Took(old(cache.m), HitSteps(old(cache.m.w), a, now, full, mode), cache.m)
      ensures queue == old(queue) + (if mode.Segmented? && Queues(old(cache.m.w), a) && !full then [a] else [])
      ensures done == old(done)
    {
      hide Inv, Enabled, Apply, Took;
      ghost var m := cache.m;
      NoSteps(m);
      OwnerIdle(m, a);
      Counted(m, a);
      var t := cache.s.meta[a];
      if mode.Segmented? {
        if !t.active {
          if !t.fetched {
            Flag(a, t.active, true, t.time);
          } else if Segment(cache.s.clsid[a]) != COLD {
            Flag(a, true, t.fetched, now);
          } else {
            CanBump(m, a);
            cache.s := cache.s.(meta := cache.s.meta[a := t.(active := true)]);
            var queued := BumpAsync(a, full);
            if queued {
              StepInv(m, LruMachine.Bump(a));
              TookOne(m, LruMachine.Bump(a));
              cache.m := Apply(m, LruMachine.Bump(a));
              assert cache.m.pending == queue[done..];
            } else {
              cache.s := cache.s.(meta := cache.s.meta[a := t]);
              assert cache.s.meta == m.w.s.meta;
            }
          }
        }
      } else {
        Flag(a, t.active, true, t.time);
        ghost var m1 := cache.m;
        cache.Update(a, now, mode);
        UpdateKeepsPending(m1, a, now, mode, cache.m);
        TookConcat(m, [LruMachine.Mark(a, t.active, true, t.time)], m1, UpdateSteps(m1.w, a, now, mode), cache.m);
      }
    }

    method Flag(a: Addr, active: bool, fetched: bool, time: int)
      requires Valid() && Idle(cache.m, a)
      modifies cache
      ensures Valid() && Idle(cache.m, a) && cache.m.w == Touch(old(cache.m.w), a, active, fetched, time)
      ensures Took(old(cache.m), [LruMachine.Mark(a, active, fetched, time)], cache.m)
    {
      CanMark(cache.m, a, active, fetched, time);
      TookOne(cache.m, LruMachine.Mark(a, active, fetched, time));
      hide Inv, Took;
      cache.Mark(a, active, fetched, time);
    }

    /** bipbuf_peek_all: how many entries can be seen at once, none only if there
    is none. */
    method Peek(contiguous: nat) returns (size: nat)
      requires Valid() && 0 < contiguous
      ensures size <= |queue| && (size == 0 <==> queue == [])
    {
      size := if contiguous < |queue| then contiguous else |queue|;
    }

    /** One entry, under its item lock. */
    method ApplyOne(now: int, mode: Mode)
      requires Valid() && done < |queue| && Idle(cache.m, queue[done])
      modifies this, cache
      ensures Valid() && queue == old(queue) && done == old(done) + 1
      ensures Applied(old(cache.m), old(queue[done]), now, mode, cache.m)
    {
      hide Inv, Enabled, Apply, Took;
      var a := queue[done];
      ghost var m := cache.m;
      cache.Update(a, now, mode);
      ghost var m1 := cache.m;
      UpdateKeepsPending(m, a, now, mode, m1);
      CanDrop(m1, a);
      TookSnoc(m, UpdateSteps(m.w, a, now, mode), m1, BumpDrop);
      StepInv(m1, BumpDrop);
      Dropped(m1);
      Counted(m1, a);
      cache.Decref(a);
      cache.m := Apply(m1, BumpDrop);
      done := done + 1;
      assert m1.pending[1..] == queue[done..];
    }

    /** bipbuf_poll, once everything that was peeked is applied. */
    method Poll()
      requires Valid()
      modifies this
      ensures Valid() && queue == old(queue[done..]) && done == 0
    {
      queue := queue[done..];
      done := 0;
      assert queue[0..] == queue;
    }

    /** lru_maintainer_bumps on one buffer that nobody else uses meanwhile, and
    with no operation in progress. */
    method Maintain(now: int, mode: Mode, contiguous: nat) returns (size: nat)
      requires Valid() && done == 0 && 0 < contiguous && cache.m.busy == map[]
      modifies this, cache
      ensures Valid() && done == 0 && cache.m.busy == map[]
      ensures size <= |old(queue)| && (size == 0 <==> old(queue) == []) && queue == old(queue)[size..]
      ensures Bumped(old(cache.m), old(queue)[..size], now, mode, cache.m)
    {
      hide Inv, Bumped, Applied;
      ghost var m := cache.m;
      ghost var all := queue;
      size := Peek(contiguous);
      NothingBumped(m, now, mode);
      assert all[..0] == [];
      while done < size
        invariant done <= size <= |all| && Valid() && queue == all && cache.m.busy == map[]
        invariant Bumped(m, all[..done], now, mode, cache.m)
      {
        ghost var m1 := cache.m;
        PendingIdle(m1);
        ApplyOne(now, mode);
        AppliedIdle(m1, all[done - 1], now, mode, cache.m);
        BumpedSnoc(m, all[..done - 1], now, mode, m1, all[done - 1], cache.m);
        assert all[..done] == all[..done - 1] + [all[done - 1]];
      }
      Poll();
    }

    /** Steps of other threads, on items and crawlers, leave the buffer alone. */
    twostate lemma Undisturbed(steps: seq<Step>)
      requires old(Valid()) && cache.Valid() && unchanged(this)
      requires Took(old(cache.m), steps, cache.m) && forall i :: 0 <= i < |steps| ==> NoBump(steps[i])
      ensures Valid()
    {
      KeepsPending(old(cache.m), steps, cache.m);
    }
  }

  predicate NoBump(step: Step) { !step.Bump? && !step.BumpDrop? }

  /** Whatever else happens, the entries not yet applied stay, each with its
  reference: see BumpOk. */
  lemma {:induction false} KeepsPending(m: Sys, steps: seq<Step>, m': Sys)
    requires Took(m, steps, m') && forall i :: 0 <= i < |steps| ==> NoBump(steps[i])
    ensures m'.pending == m.pending
    decreases |steps|
  {
    if steps != [] {
      KeepsPendingOnce(m, steps[0]);
      hide Enabled, Apply;
      KeepsPending(Apply(m, steps[0]), steps[1..], m');
    }
  }

  lemma KeepsPendingOnce(m: Sys, step: Step)
    requires Enabled(m, step) && NoBump(step)
    ensures Apply(m, step).pending == m.pending
  {}

  lemma Counted(m: Sys, a: Addr)
    requires Inv(m) && Idle(m, a)
    ensures m.w.s.meta[a].refcount > 0
  {
    hide OkW;
    RefKnown(m.w, a, Odd(m.busy));
  }

  lemma CanBump(m: Sys, a: Addr)
    requires Idle(m, a) && Queues(m.w, a)
    ensures Enabled(m, LruMachine.Bump(a))
    ensures var m' := Apply(m, LruMachine.Bump(a)); var t := m.w.s.meta[a];
      m'.w.s == m.w.s.(meta := m.w.s.meta[a := t.(active := true, refcount := t.refcount + 1)]) &&
      m'.pending == m.pending + [a]
  {}

  /** A pending entry can be given back once nobody is busy with its item. */
  lemma CanDrop(m: Sys, a: Addr)
    requires Inv(m) && Idle(m, a) && m.pending != [] && m.pending[0] == a
    ensures Enabled(m, BumpDrop)
  {
    hide OkW;
    assert BumpOk(m, a);
    TimesTail(m.pending, a);
    RefKnown(m.w, a, Odd(m.busy));
  }

  lemma Dropped(m: Sys)
    requires Enabled(m, BumpDrop)
    ensures var a := m.pending[0]; var t := m.w.s.meta[a];
      && Apply(m, BumpDrop).pending == m.pending[1..] && Apply(m, BumpDrop).busy == m.busy
      && Apply(m, BumpDrop).w.s == m.w.s.(meta := if t.refcount == 1 then m.w.s.meta - {a}
                                            else m.w.s.meta[a := t.(refcount := t.refcount - 1)])
  {}

  lemma NothingBumped(m: Sys, now: int, mode: Mode)
    ensures Bumped(m, [], now, mode, m)
  {}

  lemma PendingIdle(m: Sys)
    requires Inv(m) && m.pending != [] && m.busy == map[]
    ensures Idle(m, m.pending[0])
  {
    assert BumpOk(m, m.pending[0]);
  }

  /** Whether an update moves the item, and where. */
  predicate Moves(w: World, a: Addr, now: int, mode: Mode)
    requires a in w.s.meta
  {
    var t := w.s.meta[a];
    t.linked && if mode.Segmented? then Segment(w.s.Owner(a)) == COLD && t.active else t.time < now - mode.interval
  }

  function Target(w: World, a: Addr, mode: Mode): nat {
    if mode.Segmented? then SlabClass(w.s.Owner(a)) + WARM else w.s.Owner(a)
  }

  /** What do_item_update makes of its item and the lists: a move to the head of
  a list, a new time, or nothing. */
  ghost predicate Updated(w: World, w': World, a: Addr, now: int, mode: Mode)
    requires a in w.s.meta
  {
    var t := w.s.meta[a];
    var from, to := w.s.Owner(a), Target(w, a, mode);
    && OnlyItem(w, w', a) && a in w.held && a in w'.held && w'.held[a] == w.held[a] && a in w'.s.meta
    && if Moves(w, a, now, mode) then
         && w'.s.meta[a] == t.(time := now, active := t.active && mode.Flat?) && w'.s.Owner(a) == to
         && from < |w.lists| == CLASSES && to < CLASSES && a in w.lists[from] && SlabClass(to) == SlabClass(from)
         && w'.lists == Shifted(w.lists, from, to, a)
       else
         && w'.s.meta[a] == (if t.linked && mode.Segmented? then t.(time := now) else t) && w'.s.Owner(a) == from
         && w'.lists == w.lists
  }

  lemma UpdateEffect(m: Sys, a: Addr, now: int, mode: Mode, m': Sys)
    requires Inv(m) && Idle(m, a) && Took(m, UpdateSteps(m.w, a, now, mode), m')
    ensures Updated(m.w, m'.w, a, now, mode) && Idle(m', a)
    ensures m'.busy == m.busy && m'.pending == m.pending && m'.crawls == m.crawls
  {
    hide Inv, Took;
    OwnerIdle(m, a);
    var t := m.w.s.meta[a];
    CanMark(m, a, t.active, t.fetched, now);
    if Moves(m.w, a, now, mode) {
      MovingEffect(m, a, now, mode, m');
    } else if t.linked && mode.Segmented? {
      TookOnly(m, LruMachine.Mark(a, t.active, t.fetched, now), m');
      MarkFacts(m, a, t.active, t.fetched, now);
    } else {
      TookNone(m, m');
    }
  }

  lemma MovingEffect(m: Sys, a: Addr, now: int, mode: Mode, m': Sys)
    requires Inv(m) && Idle(m, a) && Took(m, UpdateSteps(m.w, a, now, mode), m') && Moves(m.w, a, now, mode)
    ensures Updated(m.w, m'.w, a, now, mode) && Idle(m', a)
    ensures m'.busy == m.busy && m'.pending == m.pending && m'.crawls == m.crawls
  {
    hide Inv, Took, Enabled, Apply;
    OwnerIdle(m, a);
    var t := m.w.s.meta[a];
    CanMark(m, a, t.active, t.fetched, now);
    var to := Target(m.w, a, mode);
    var active := t.active && mode.Flat?;
    TookThree(m, LruMachine.Mark(a, t.active, t.fetched, now), LruMachine.MoveOff(a),
        LruMachine.MoveOn(a, to, active), m');
    MarkFacts(m, a, t.active, t.fetched, now);
    var m1 := Apply(m, LruMachine.Mark(a, t.active, t.fetched, now));
    MovedFacts(m1, a, to, active);
    OnlyItemTrans(m.w, m1.w, m'.w, a);
  }

  lemma TookNone(m: Sys, m': Sys)
    requires Took(m, [], m')
    ensures m' == m
  {}

  lemma MarkFacts(m: Sys, a: Addr, active: bool, fetched: bool, time: int)
    requires Idle(m, a)
    ensures Enabled(m, LruMachine.Mark(a, active, fetched, time))
    ensures var m' := Apply(m, LruMachine.Mark(a, active, fetched, time));
      && OnlyItem(m.w, m'.w, a) && m'.w.held == m.w.held && m'.w.lists == m.w.lists && Idle(m', a)
      && m'.busy == m.busy && m'.pending == m.pending && m'.crawls == m.crawls && m'.w.s.Owner(a) == m.w.s.Owner(a)
      && m'.w.s.meta[a] == m.w.s.meta[a].(active := active, fetched := fetched, time := time)
  {}

  lemma UpdateKeepsPending(m: Sys, a: Addr, now: int, mode: Mode, m': Sys)
    requires Inv(m) && Idle(m, a) && Took(m, UpdateSteps(m.w, a, now, mode), m')
    ensures m'.pending == m.pending && m'.busy == m.busy && Idle(m', a)
  {
    UpdateEffect(m, a, now, mode, m');
  }

  lemma AppliedIdle(m: Sys, a: Addr, now: int, mode: Mode, m': Sys)
    requires Inv(m) && Idle(m, a) && Applied(m, a, now, mode, m')
    ensures m'.busy == m.busy
  {
    hide Inv, Took;
    var m1 := TookSplit(m, UpdateSteps(m.w, a, now, mode), [BumpDrop], m');
    UpdateKeepsPending(m, a, now, mode, m1);
    TookOnly(m1, BumpDrop, m');
    Dropped(m1);
  }

  /** What a bump makes of its item: a hit that lost its reference. */
  ghost predicate BumpedItem(w: World, w': World, a: Addr, now: int)
    requires a in w.s.meta && a in w.held
  {
    var t := w.s.meta[a];
    var moves := Moves(w, a, now, Segmented);
    if a in w'.s.meta then
      && a in w'.held && w'.held[a] + 1 == w.held[a]
      && w'.s.meta[a].refcount + 1 == t.refcount
      && w'.s.meta[a] ==
           t.(time := if t.linked then now else t.time, active := t.active && !moves, refcount := w'.s.meta[a].refcount)
      && w'.s.Owner(a) == (if moves then SlabClass(w.s.Owner(a)) + WARM else w.s.Owner(a))
    else !t.linked && w.held[a] == 1 && a !in w'.held
  }

  /** What it makes of the lists: an active COLD item goes to the head of WARM. */
  ghost predicate BumpedLists(w: World, w': World, a: Addr, now: int)
    requires a in w.s.meta
  {
    if Moves(w, a, now, Segmented) then
      var from, to := w.s.Owner(a), SlabClass(w.s.Owner(a)) + WARM;
      from < |w.lists| && to < |w.lists| && a in w.lists[from] && w'.lists == Shifted(w.lists, from, to, a)
    else w'.lists == w.lists
  }

  /** What one applied entry comes to. */
  lemma AppliedEffect(m: Sys, a: Addr, now: int, m': Sys)
    requires Inv(m) && Idle(m, a) && Applied(m, a, now, Segmented, m')
    ensures OnlyItem(m.w, m'.w, a) && Inv(m') && m'.busy == m.busy
    ensures BumpedItem(m.w, m'.w, a, now) && BumpedLists(m.w, m'.w, a, now)
  {
    RunInv(m, BumpSteps(m.w, a, now, Segmented), m');
    hide Inv, Took;
    var m1 := TookSplit(m, UpdateSteps(m.w, a, now, Segmented), [BumpDrop], m');
    RunInv(m, UpdateSteps(m.w, a, now, Segmented), m1);
    UpdateEffect(m, a, now, Segmented, m1);
    TookOnly(m1, BumpDrop, m');
    Dropped(m1);
    hide Updated, GaveBack, Enabled, Apply, BumpedItem, BumpedLists;
    DropEffect(m1, a);
    UpdatedThenGaveBack(m.w, m1.w, m'.w, a, now);
  }

  /** A reference given back, and the item freed if it was the last. */
  ghost predicate GaveBack(w: World, w': World, a: Addr)
    requires a in w.s.meta && a in w.held
  {
    var t := w.s.meta[a];
    && OnlyItem(w, w', a) && w'.lists == w.lists && w'.s.clsid == w.s.clsid
    && (if a in w'.s.meta then
          && a in w'.held && w'.held[a] + 1 == w.held[a]
          && w'.s.meta[a].refcount + 1 == t.refcount && w'.s.meta[a] == t.(refcount := w'.s.meta[a].refcount)
        else !t.linked && w.held[a] == 1 && a !in w'.held)
  }

  lemma DropEffect(m: Sys, a: Addr)
    requires Inv(m) && Enabled(m, BumpDrop) && m.pending[0] == a
    ensures GaveBack(m.w, Apply(m, BumpDrop).w, a)
  {
    hide OkW, Drop;
    RefKnown(m.w, a, Odd(m.busy));
    RefKnownDrop(m, a);
    DropRecord(m.w, a);
  }

  lemma DropRecord(w: World, a: Addr)
    requires a in w.s.meta && a in w.held && w.held[a] > 0 && w.s.meta[a].refcount > 0
    ensures var w' := Drop(w, a);
      && w'.lists == w.lists && w'.s.clsid == w.s.clsid
      && (a in w'.s.meta ==> w'.s.meta[a] == w.s.meta[a].(refcount := w.s.meta[a].refcount - 1))
      && (a !in w'.s.meta ==> a !in w'.held)
  {}

  lemma UpdatedThenGaveBack(w: World, w1: World, w': World, a: Addr, now: int)
    requires a in w.s.meta && a in w.held && a in w1.s.meta && a in w1.held
    requires Updated(w, w1, a, now, Segmented) && GaveBack(w1, w', a)
    ensures OnlyItem(w, w', a) && BumpedItem(w, w', a, now) && BumpedLists(w, w', a, now)
  {
    OnlyItemTrans(w, w1, w', a);
    hide OnlyItem, Shifted;
  }

  /** Whether the item is one that a bump moves to WARM list id. */
  predicate Warms(w: World, a: Addr, id: nat) {
    a in w.s.meta && Moves(w, a, 0, Segmented) && SlabClass(w.s.Owner(a)) + WARM == id
  }

  /** The items of the entries that move to list id, the last one first. */
  function Heads(w: World, queue: seq<Addr>, id: nat): (h: seq<Addr>)
    ensures forall a :: a in h <==> a in queue && Warms(w, a, id)
    decreases |queue|
  {
    if queue == [] then []
    else
      var a, before := queue[|queue| - 1], Heads(w, queue[..|queue| - 1], id);
      assert queue == queue[..|queue| - 1] + [a];
      if Warms(w, a, id) && a !in before then [a] + before else before
  }

  /** The items of the entries that move at all. */
  function Movers(w: World, queue: seq<Addr>): set<Addr> {
    set a | a in queue && a in w.s.meta && Moves(w, a, 0, Segmented)
  }

  /** What applying the entries makes of an item: every entry of its own gives
  back one reference; a linked one gets the time, and leaves COLD for WARM
  inactive if it was active there; and it is freed only with the last reference. */
  ghost predicate ItemBumped(w: World, w': World, queue: seq<Addr>, now: int, a: Addr) {
    if a in w'.s.meta then
      && a in w.s.meta && a in w.held && a in w'.held && w'.held[a] + Times(queue, a) == w.held[a]
      && var t, t' := w.s.meta[a], w'.s.meta[a]; var moves := a in queue && Moves(w, a, now, Segmented);
        && t' == t.(time := if t.linked && a in queue then now else t.time, active := t.active && !moves,
            refcount := t'.refcount)
        && w'.s.Owner(a) == (if moves then SlabClass(w.s.Owner(a)) + WARM else w.s.Owner(a))
    else
      a in w.s.meta ==> a in queue && a in w.held && !w.s.meta[a].linked && w.held[a] == Times(queue, a)
  }

  /** What it makes of a list: the movers leave it, and those for it are at its
  head, the last one bumped first. */
  ghost predicate ListBumped(w: World, w': World, queue: seq<Addr>, id: nat) {
    id < |w.lists| == |w'.lists| && w'.lists[id] == Heads(w, queue, id) + Keep(w.lists[id], Movers(w, queue))
  }

  ghost predicate AllBumped(w: World, w': World, queue: seq<Addr>, now: int) {
    && (forall a :: ItemBumped(w, w', queue, now, a))
    && |w.lists| == CLASSES && forall id :: 0 <= id < CLASSES ==> ListBumped(w, w', queue, id)
  }

  /** The maintainer's work on a buffer does all of this. */
  lemma {:induction false} BumpsMeaning(m: Sys, queue: seq<Addr>, now: int, m': Sys)
    requires Inv(m) && m.busy == map[] && Bumped(m, queue, now, Segmented, m')
    ensures Inv(m') && m'.busy == map[] && AllBumped(m.w, m'.w, queue, now)
    decreases |queue|
  {
    hide Inv, Applied, AllBumped, ItemBumped, ListBumped;
    if queue == [] {
      NoneBumped(m, now);
    } else {
      var last := |queue| - 1;
      var m1: Sys :| Bumped(m, queue[..last], now, Segmented, m1) && Applied(m1, queue[last], now, Segmented, m');
      BumpsMeaning(m, queue[..last], now, m1);
      AppliedAgain(m, m1, queue[..last], queue[last], now, m');
      assert queue == queue[..last] + [queue[last]];
    }
  }

  lemma NoneBumped(m: Sys, now: int)
    requires Inv(m)
    ensures AllBumped(m.w, m.w, [], now)
  {
    hide OkW;
    forall a ensures ItemBumped(m.w, m.w, [], now, a) {
      if a in m.w.s.meta { RefKnown(m.w, a, Odd(m.busy)); }
    }
    forall id | 0 <= id < CLASSES ensures ListBumped(m.w, m.w, [], id) {
      KeepAll(m.w.lists[id], Movers(m.w, []));
      assert [] + m.w.lists[id] == m.w.lists[id];
    }
  }

  lemma AppliedAgain(m: Sys, m1: Sys, queue: seq<Addr>, a: Addr, now: int, m': Sys)
    requires Inv(m) && Inv(m1) && m1.busy == map[] && AllBumped(m.w, m1.w, queue, now)
    requires Applied(m1, a, now, Segmented, m')
    ensures Inv(m') && m'.busy == map[] && AllBumped(m.w, m'.w, queue + [a], now)
  {
    PendingIdle(m1);
    AppliedEffect(m1, a, now, m');
    OwnersKnown(m);
    hide Inv, Applied;
    forall b ensures ItemBumped(m.w, m'.w, queue + [a], now, b) {
      assert ItemBumped(m.w, m1.w, queue, now, b) && ItemBumped(m.w, m1.w, queue, now, a);
      ItemAgain(m.w, m1.w, m'.w, queue, a, now, b);
    }
    forall id | 0 <= id < CLASSES ensures ListBumped(m.w, m'.w, queue + [a], id) {
      ListAgain(m, m1, m'.w, queue, a, now, id);
    }
  }

  lemma OwnersKnown(m: Sys)
    requires Inv(m)
    ensures forall a :: a in m.w.s.meta ==> m.w.s.Owner(a) < CLASSES
  {
    forall a | a in m.w.s.meta ensures m.w.s.Owner(a) < CLASSES { OwnerKnown(m.w, a, Odd(m.busy)); }
  }

  /** After its bump an item is not active in COLD any more. */
  lemma MovesOnce(w: World, w1: World, queue: seq<Addr>, a: Addr, now: int)
    requires ItemBumped(w, w1, queue, now, a) && a in w1.s.meta && a in w.s.meta && w.s.Owner(a) < CLASSES
    ensures Moves(w1, a, now, Segmented) <==> Moves(w, a, now, Segmented) && a !in queue
    ensures Moves(w1, a, now, Segmented) ==> w1.s.Owner(a) == w.s.Owner(a)
    ensures SlabClass(w1.s.Owner(a)) == SlabClass(w.s.Owner(a))
  {}

  lemma ItemAgain(w: World, w1: World, w': World, queue: seq<Addr>, a: Addr, now: int, b: Addr)
    requires ItemBumped(w, w1, queue, now, b) && ItemBumped(w, w1, queue, now, a)
    requires a in w1.s.meta && a in w1.held && OnlyItem(w1, w', a) && BumpedItem(w1, w', a, now)
    requires forall c :: c in w.s.meta ==> w.s.Owner(c) < CLASSES
    ensures ItemBumped(w, w', queue + [a], now, b)
  {
    TimesSnoc(queue, a, b);
    if b == a {
      MovesOnce(w, w1, queue, a, now);
    } else {
      assert SameItem(w1, w', b);
    }
  }

  lemma ListAgain(m: Sys, m1: Sys, w': World, queue: seq<Addr>, a: Addr, now: int, id: nat)
    requires Inv(m) && Inv(m1) && id < CLASSES && AllBumped(m.w, m1.w, queue, now)
    requires a in m1.w.s.meta && BumpedLists(m1.w, w', a, now)
    ensures ListBumped(m.w, w', queue + [a], id)
  {
    hide OkW, ItemBumped, ListBumped, Moves, Shifted, Heads, Movers, Keep;
    assert ItemBumped(m.w, m1.w, queue, now, a) && ListBumped(m.w, m1.w, queue, id);
    SurvivorKnown(m.w, m1.w, queue, a, now);
    OwnersKnown(m);
    ElsewhereKnown(m, a, id);
    ListsOf(m1);
    MovesOnce(m.w, m1.w, queue, a, now);
    if Moves(m1.w, a, now, Segmented) {
      MovedAgain(m.w, m1.w, w', queue, a, now, id);
    } else {
      NotMovedAgain(m.w, m1.w, w', queue, a, now, id);
    }
  }

  lemma SurvivorKnown(w: World, w1: World, queue: seq<Addr>, a: Addr, now: int)
    requires ItemBumped(w, w1, queue, now, a) && a in w1.s.meta
    ensures a in w.s.meta
  {}

  lemma ListsOf(m: Sys)
    requires Inv(m)
    ensures |m.w.lists| == CLASSES && forall id :: 0 <= id < CLASSES ==> Distinct(m.w.lists[id])
  {
    forall id | 0 <= id < CLASSES ensures Distinct(m.w.lists[id]) {
      assert ListOk(m.w.s, m.w.lists, id);
    }
  }

  /** An item is in no list but that of its class. */
  lemma ElsewhereKnown(m: Sys, a: Addr, id: nat)
    requires Inv(m) && id < CLASSES
    ensures |m.w.lists| == CLASSES && (id != m.w.s.Owner(a) ==> a !in m.w.lists[id])
  {
    if a in m.w.lists[id] { MemberKnown(m.w, id, a, Odd(m.busy)); }
  }

  lemma NotMovedAgain(w: World, w1: World, w': World, queue: seq<Addr>, a: Addr, now: int, id: nat)
    requires a in w.s.meta && a in w1.s.meta && w'.lists == w1.lists && (Moves(w, a, now, Segmented) ==> a in queue)
    requires ListBumped(w, w1, queue, id)
    ensures ListBumped(w, w', queue + [a], id)
  {
    hide Keep;
    assert (queue + [a])[..|queue|] == queue;
    assert Heads(w, queue + [a], id) == Heads(w, queue, id);
    assert Movers(w, queue + [a]) == Movers(w, queue);
  }

  lemma MovedAgain(w: World, w1: World, w': World, queue: seq<Addr>, a: Addr, now: int, id: nat)
    requires a in w.s.meta && a in w1.s.meta && Moves(w, a, now, Segmented) && a !in queue
    requires w1.s.Owner(a) == w.s.Owner(a)
    requires w.s.Owner(a) < CLASSES && |w1.lists| == CLASSES
    requires (id != w.s.Owner(a) ==> id < |w.lists| && a !in w.lists[id])
    requires Moves(w1, a, now, Segmented) && BumpedLists(w1, w', a, now) && ListBumped(w, w1, queue, id)
    requires forall j :: 0 <= j < CLASSES ==> Distinct(w1.lists[j])
    ensures ListBumped(w, w', queue + [a], id)
  {
    var from, to := w.s.Owner(a), SlabClass(w.s.Owner(a)) + WARM;
    var out := Movers(w, queue);
    SegmentsDiffer(w, queue, a);
    HeadsSnoc(w, queue, a, id);
    assert Movers(w, queue + [a]) == out + {a} by { MoversSnoc(w, queue, a); }
    hide Heads, Movers, Moves, Warms, Keep;
    if id == from {
      LeavesList(w.lists[id], out, a);
    } else {
      KeepSame(w.lists[id], out, out + {a});
      if id == to { ThreeParts(a, Heads(w, queue, id), Keep(w.lists[id], out)); }
    }
  }

  lemma LeavesList(list: seq<Addr>, out: set<Addr>, a: Addr)
    requires Distinct([] + Keep(list, out)) && a in [] + Keep(list, out)
    ensures Without([] + Keep(list, out), IndexOf([] + Keep(list, out), a)) == [] + Keep(list, out + {a})
  {
    assert [] + Keep(list, out) == Keep(list, out);
    KeepWithout(Keep(list, out), a);
    KeepTwice(list, out, {a});
  }

  lemma ThreeParts(a: Addr, s: seq<Addr>, t: seq<Addr>)
    ensures [a] + (s + t) == ([a] + s) + t
  {}

  lemma MoversSnoc(w: World, queue: seq<Addr>, a: Addr)
    requires a in w.s.meta && Moves(w, a, 0, Segmented)
    ensures Movers(w, queue + [a]) == Movers(w, queue) + {a}
  {}

  lemma HeadsSnoc(w: World, queue: seq<Addr>, a: Addr, id: nat)
    requires a in w.s.meta && Moves(w, a, 0, Segmented) && a !in queue
    ensures Heads(w, queue + [a], id) ==
      if id == SlabClass(w.s.Owner(a)) + WARM then [a] + Heads(w, queue, id) else Heads(w, queue, id)
  {
    assert (queue + [a])[..|queue|] == queue;
  }

  /** Nothing moves to a COLD list. */
  lemma SegmentsDiffer(w: World, queue: seq<Addr>, a: Addr)
    requires a in w.s.meta && Moves(w, a, 0, Segmented)
    ensures Heads(w, queue, w.s.Owner(a)) == [] && w.s.Owner(a) != SlabClass(w.s.Owner(a)) + WARM
  {
    FirstIn(Heads(w, queue, w.s.Owner(a)));
  }

  lemma FirstIn(s: seq<Addr>)
    ensures s != [] ==> s[0] in s
  {}

  predicate Active(m: Sys, a: Addr) { a in m.w.s.meta && m.w.s.meta[a].active }

  /** How often an item is queued in a run. */
  function Pushes(steps: seq<Step>, a: Addr): nat {
    if steps == [] then 0 else (if steps[0] == LruMachine.Bump(a) then 1 else 0) + Pushes(steps[1..], a)
  }

  /** How often its ITEM_ACTIVE is cleared. */
  ghost function Clears(m: Sys, steps: seq<Step>, a: Addr): nat
    decreases |steps|
  {
    if steps == [] || !Enabled(m, steps[0]) then 0
    else
      var m1 := Apply(m, steps[0]);
      (if Active(m, a) && !Active(m1, a) then 1 else 0) + Clears(m1, steps[1..], a)
  }

  /** The flag that is set before the bump keeps an item from being queued again:
  between two entries of an item the flag was cleared, and while an item stays
  active there is no further one. */
  lemma {:induction false} QueuedOncePerClear(m: Sys, steps: seq<Step>, m': Sys, a: Addr)
    requires Took(m, steps, m')
    ensures Pushes(steps, a) + (if Active(m, a) then 1 else 0) <= Clears(m, steps, a) + if Active(m', a) then 1 else 0
    decreases |steps|
  {
    hide Apply, Enabled;
    if steps != [] {
      PushActivates(m, steps[0], a);
      hide Active;
      QueuedOncePerClear(Apply(m, steps[0]), steps[1..], m', a);
    }
  }

  lemma PushActivates(m: Sys, step: Step, a: Addr)
    requires Enabled(m, step)
    ensures step == LruMachine.Bump(a) ==> !Active(m, a) && Active(Apply(m, step), a)
  {}
}

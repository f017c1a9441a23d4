/** items.c in its own form: the fields of all items and the ends and sizes of
all class lists, rewritten step by step. Each method that is a critical section
takes one step of the LRU machine, and each operation takes its steps in order. */
module Lru {
  import opened Basics
  import opened LruList
  import opened LruState
  import opened LruWorld
  import opened LruMachine
  import opened LruRuns
  import Crawler

  /** The pointer writes of do_item_crawl_q, given what it asserts. */
  method CrawlList(l0: List, a: Addr) returns (l: List, found: Addr)
    requires CrawlAsserts(l0, a)
    ensures (l, found) == Crawl(l0, a)
  {
    l := l0;
    if l.prev[a] == NULL {
      if l.next[a] != NULL {
        l := l.(head := l.next[a]);
        l := l.(prev := l.prev[l.next[a] := NULL]);
      }
      return l, NULL;
    }
    if l.head == l.prev[a] {
      l := l.(head := a);
    }
    if l.tail == a {
      l := l.(tail := l.prev[a]);
    }
    if l.next[a] != NULL {
      l := l.(next := l.next[l.prev[a] := l.next[a]]);
      l := l.(prev := l.prev[l.next[a] := l.prev[a]]);
    } else {
      l := l.(next := l.next[l.prev[a] := NULL]);
    }
    l := l.(next := l.next[a := l.prev[a]]);
    l := l.(prev := l.prev[a := l.prev[l.next[a]]]);
    l := l.(prev := l.prev[l.next[a] := a]);
    if l.prev[a] != NULL {
      l := l.(next := l.next[l.prev[a] := a]);
    }
    return l, l.next[a];
  }

  class Cache {
    /** The item fields and the heads, tails, sizes and sizes_bytes arrays. */
    var s: State
    /** What the fields stand for, and what the threads are in the middle of. */
    ghost var m: Sys

    ghost predicate Valid()
      reads this
    {
      m.w.s == s && Inv(m)
    }

    constructor ()
      ensures Valid() && m == LruMachine.Start()
    {
      s := Empty().s;
      m := LruMachine.Start();
      new;
      StartInv();
    }

    /** The pointer writes of do_item_link_q. */
    method LinkPointers(a: Addr, id: nat)
      requires s.Shaped() && id < CLASSES
      modifies this`s
      ensures s == old(s).SetList(id, LinkHead(old(s).At(id), a))
    {
      s := s.(prev := s.prev[a := NULL]);
      s := s.(next := s.next[a := s.heads[id]]);
      if s.next[a] != NULL {
        s := s.(prev := s.prev[s.next[a] := a]);
      }
      s := s.(heads := s.heads[id := a]);
      if s.tails[id] == NULL {
        s := s.(tails := s.tails[id := a]);
      }
      assert s.tails[id := s.tails[id]] == s.tails;
    }

    /** The pointer writes of do_item_unlink_q and do_item_unlinktail_q. */
    method UnlinkPointers(a: Addr, id: nat)
      requires s.Shaped() && id < CLASSES && a in s.next && a in s.prev
      modifies this`s
      ensures s == old(s).SetList(id, Unlink(old(s).At(id), a))
    {
      var n, p := s.next[a], s.prev[a];
      if s.heads[id] == a {
        s := s.(heads := s.heads[id := n]);
      }
      if s.tails[id] == a {
        s := s.(tails := s.tails[id := p]);
      }
      if n != NULL {
        s := s.(prev := s.prev[n := p]);
      }
      if p != NULL {
        s := s.(next := s.next[p := n]);
      }
      assert s.heads[id := s.heads[id]] == s.heads && s.tails[id := s.tails[id]] == s.tails;
    }

    /** The pointer writes of do_item_linktail_q. */
    method LinkTailPointers(a: Addr, id: nat)
      requires s.Shaped() && id < CLASSES && LinkAsserts(s.At(id), a)
      modifies this`s
      ensures s == old(s).SetList(id, LinkTail(old(s).At(id), a))
    {
      s := s.(prev := s.prev[a := s.tails[id]]);
      s := s.(next := s.next[a := NULL]);
      if s.prev[a] != NULL {
        s := s.(next := s.next[s.prev[a] := a]);
      }
      s := s.(tails := s.tails[id := a]);
      if s.heads[id] == NULL {
        s := s.(heads := s.heads[id := a]);
      }
      assert s.heads[id := s.heads[id]] == s.heads;
    }

    /** do_item_crawl_q on the crawler of class id. */
    method CrawlPointers(a: Addr, id: nat) returns (found: Addr)
      requires s.Shaped() && id < CLASSES && CrawlAsserts(s.At(id), a)
      modifies this`s
      ensures found == Crawl(old(s).At(id), a).1 && s == old(s).SetList(id, Crawl(old(s).At(id), a).0)
    {
      hide CrawlAsserts, Crawl;
      var l: List;
      l, found := CrawlList(s.At(id), a);
      s := s.SetList(id, l);
    }

    /** do_item_link_q. */
    method LinkQ(a: Addr)
      requires s.Shaped() && s.Owner(a) < CLASSES && !IsCrawler(a) && a in s.clsid && a in s.ntotal
      requires LinkAsserts(s.At(s.Owner(a)), a)
      modifies this`s
      ensures s == LruState.LinkQ(old(s), a)
    {
      var id := s.clsid[a];
      assert a != s.heads[id];
      assert s.heads[id] != NULL <==> s.tails[id] != NULL;
      LinkPointers(a, id);
      hide LinkHead;
      s := s.(sizes := s.sizes[id := s.sizes[id] + 1]);
      s := s.(bytes := s.bytes[id := s.bytes[id] + s.ntotal[a]]);
    }

    /** do_item_unlink_q. */
    method UnlinkQ(a: Addr)
      requires s.Shaped() && s.Owner(a) < CLASSES && !IsCrawler(a) && a in s.clsid && a in s.ntotal
      requires UnlinkAsserts(s.At(s.Owner(a)), a)
      modifies this`s
      ensures s == LruState.UnlinkQ(old(s), a)
    {
      var id := s.clsid[a];
      assert s.heads[id] == a ==> s.prev[a] == NULL;
      assert s.tails[id] == a ==> s.next[a] == NULL;
      assert s.next[a] != a && s.prev[a] != a;
      UnlinkPointers(a, id);
      hide Unlink;
      s := s.(sizes := s.sizes[id := s.sizes[id] - 1]);
      s := s.(bytes := s.bytes[id := s.bytes[id] - s.ntotal[a]]);
    }

    /** do_item_alloc, given the memory that slabs_alloc found. */
    method Alloc(a: Addr, id: nat, ntotal: nat, exptime: int, time: int)
      requires Valid() && Enabled(m, LruMachine.Alloc(a, id, ntotal, exptime, time))
      modifies this
      ensures Valid() && m == Apply(old(m), LruMachine.Alloc(a, id, ntotal, exptime, time))
    {
      hide Inv;
      ghost var step := LruMachine.Alloc(a, id, ntotal, exptime, time);
      StepInv(m, step);
      s := s.(next := s.next[a := NULL], prev := s.prev[a := NULL]);
      s := s.(clsid := s.clsid[a := id], ntotal := s.ntotal[a := ntotal]);
      s := s.(meta := s.meta[a := Meta(1, false, false, false, time, exptime)]);
      m := Apply(m, step);
    }

    /** refcount_incr, by a caller that becomes a holder. */
    method Incref(a: Addr) returns (refs: nat)
      requires Valid() && Idle(m, a)
      modifies this
      ensures Valid() && m == Apply(old(m), LruMachine.Incref(a)) && a in s.meta && refs == s.meta[a].refcount
    {
      hide Inv;
      StepInv(m, LruMachine.Incref(a));
      refs := s.meta[a].refcount + 1;
      s := s.(meta := s.meta[a := s.meta[a].(refcount := refs)]);
      m := Apply(m, LruMachine.Incref(a));
    }

    /** refcount_decr, and item_free at 0. */
    method Decref(a: Addr)
      requires a in s.meta && s.meta[a].refcount > 0
      modifies this`s
      ensures s.meta == (if old(s.meta)[a].refcount == 1 then old(s.meta) - {a}
                         else old(s.meta)[a := old(s.meta)[a].(refcount := old(s.meta)[a].refcount - 1)])
      ensures s == old(s).(meta := s.meta)
    {
      var refs := s.meta[a].refcount - 1;
      if refs == 0 {
        s := s.(meta := s.meta - {a});
      } else {
        s := s.(meta := s.meta[a := s.meta[a].(refcount := refs)]);
      }
    }

    /** do_item_remove: a holder gives up its reference; the last one frees. */
    method Remove(a: Addr)
      requires Valid() && Idle(m, a) && HasHolder(m, a)
      modifies this
      ensures Valid() && m == Apply(old(m), LruMachine.Decref(a))
    {
      hide Inv;
      StepInv(m, LruMachine.Decref(a));
      Decref(a);
      m := Apply(m, LruMachine.Decref(a));
    }

    /** Sets flags and time of an item. */
    method Mark(a: Addr, active: bool, fetched: bool, time: int)
      requires Valid() && Idle(m, a)
      modifies this
      ensures Valid() && m == Apply(old(m), LruMachine.Mark(a, active, fetched, time))
    {
      hide Inv;
      StepInv(m, LruMachine.Mark(a, active, fetched, time));
      s := s.(meta := s.meta[a := s.meta[a].(active := active, fetched := fetched, time := time)]);
      m := Apply(m, LruMachine.Mark(a, active, fetched, time));
    }

    /** it_flags |= ITEM_LINKED; time = now. */
    method LinkFlag(a: Addr, now: int)
      requires Valid() && Enabled(m, LruMachine.LinkFlag(a, now))
      modifies this
      ensures Valid() && m == Apply(old(m), LruMachine.LinkFlag(a, now))
    {
      hide Inv;
      StepInv(m, LruMachine.LinkFlag(a, now));
      s := s.(meta := s.meta[a := s.meta[a].(linked := true)]);
      s := s.(meta := s.meta[a := s.meta[a].(time := now)]);
      m := Apply(m, LruMachine.LinkFlag(a, now));
    }

    /** item_link_q. */
    method LinkList(a: Addr)
      requires Valid() && Enabled(m, LruMachine.LinkList(a))
      modifies this
      ensures Valid() && m == Apply(old(m), LruMachine.LinkList(a))
    {
      hide Inv, LinkAsserts;
      StepInv(m, LruMachine.LinkList(a));
      LinkQ(a);
      m := Apply(m, LruMachine.LinkList(a));
    }

    /** The refcount_incr of do_item_link. */
    method LinkCount(a: Addr)
      requires Valid() && Enabled(m, LruMachine.LinkCount(a))
      modifies this
      ensures Valid() && m == Apply(old(m), LruMachine.LinkCount(a))
    {
      hide Inv;
      StepInv(m, LruMachine.LinkCount(a));
      s := s.(meta := s.meta[a := s.meta[a].(refcount := s.meta[a].refcount + 1)]);
      m := Apply(m, LruMachine.LinkCount(a));
    }

    /** it_flags &= ~ITEM_LINKED. */
    method UnlinkFlag(a: Addr)
      requires Valid() && Enabled(m, LruMachine.UnlinkFlag(a))
      modifies this
      ensures Valid() && m == Apply(old(m), LruMachine.UnlinkFlag(a))
    {
      hide Inv;
      StepInv(m, LruMachine.UnlinkFlag(a));
      s := s.(meta := s.meta[a := s.meta[a].(linked := false)]);
      m := Apply(m, LruMachine.UnlinkFlag(a));
    }

    /** item_unlink_q. */
    method UnlinkList(a: Addr)
      requires Valid() && Enabled(m, LruMachine.UnlinkList(a))
      modifies this
      ensures Valid() && m == Apply(old(m), LruMachine.UnlinkList(a))
    {
      hide Inv, UnlinkAsserts;
      StepInv(m, LruMachine.UnlinkList(a));
      UnlinkQ(a);
      m := Apply(m, LruMachine.UnlinkList(a));
    }

    /** The do_item_remove of do_item_unlink. */
    method UnlinkDrop(a: Addr)
      requires Valid() && Enabled(m, LruMachine.UnlinkDrop(a))
      modifies this
      ensures Valid() && m == Apply(old(m), LruMachine.UnlinkDrop(a))
    {
      hide Inv;
      StepInv(m, LruMachine.UnlinkDrop(a));
      Decref(a);
      m := Apply(m, LruMachine.UnlinkDrop(a));
    }

    /** do_item_unlink_q on an item that stays linked. */
    method MoveOff(a: Addr)
      requires Valid() && Enabled(m, LruMachine.MoveOff(a))
      modifies this
      ensures Valid() && m == Apply(old(m), LruMachine.MoveOff(a))
    {
      hide Inv, UnlinkAsserts;
      StepInv(m, LruMachine.MoveOff(a));
      UnlinkQ(a);
      m := Apply(m, LruMachine.MoveOff(a));
    }

    /** slabs_clsid = id, ITEM_ACTIVE set or cleared, and do_item_link_q. */
    method MoveOn(a: Addr, id: nat, active: bool)
      requires Valid() && Enabled(m, LruMachine.MoveOn(a, id, active))
      modifies this
      ensures Valid() && m == Apply(old(m), LruMachine.MoveOn(a, id, active))
    {
      hide Inv, LinkAsserts;
      StepInv(m, LruMachine.MoveOn(a, id, active));
      s := s.(clsid := s.clsid[a := id]);
      s := s.(meta := s.meta[a := s.meta[a].(active := active)]);
      LinkQ(a);
      m := Apply(m, LruMachine.MoveOn(a, id, active));
    }

    /** do_item_link, with nothing between its critical sections. */
    method Link(a: Addr, now: int)
      requires Valid() && Enabled(m, LruMachine.LinkFlag(a, now))
      modifies this
      ensures Valid() && Took(old(m), LinkSteps(a, now), m)
    {
      hide Inv, Enabled, Apply;
      ghost var m0 := m;
      Begun(m, a, now);
      TookOne(m, LruMachine.LinkFlag(a, now));
      LinkFlag(a, now);
      CanGoOn(m, a, LruMachine.LinkList(a));
      Begun(m, a, now);
      TookSnoc(m0, [LruMachine.LinkFlag(a, now)], m, LruMachine.LinkList(a));
      LinkList(a);
      CanGoOn(m, a, LruMachine.LinkCount(a));
      TookSnoc(m0, [LruMachine.LinkFlag(a, now)] + [LruMachine.LinkList(a)], m, LruMachine.LinkCount(a));
      LinkCount(a);
    }

    /** do_item_unlink, and do_item_unlink_nolock by a caller with the list lock. */
    method UnlinkItem(a: Addr)
      requires Valid() && Idle(m, a)
      modifies this
      ensures Valid() && Took(old(m), UnlinkSteps(old(m.w), a), m)
    {
      hide Inv, Enabled, Apply, Took;
      NoSteps(m);
      if s.meta[a].linked {
        ghost var m0 := m;
        CanUnlink(m, a);
        Begun(m, a, 0);
        TookOne(m, LruMachine.UnlinkFlag(a));
        UnlinkFlag(a);
        CanGoOn(m, a, LruMachine.UnlinkList(a));
        Begun(m, a, 0);
        TookSnoc(m0, [LruMachine.UnlinkFlag(a)], m, LruMachine.UnlinkList(a));
        UnlinkList(a);
        CanGoOn(m, a, LruMachine.UnlinkDrop(a));
        TookSnoc(m0, [LruMachine.UnlinkFlag(a)] + [LruMachine.UnlinkList(a)], m, LruMachine.UnlinkDrop(a));
        UnlinkDrop(a);
        assert [LruMachine.UnlinkFlag(a)] + [LruMachine.UnlinkList(a)] + [LruMachine.UnlinkDrop(a)] ==
            UnlinkSteps(m0.w, a);
      }
    }

    /** do_item_update: in segmented mode a hit on an active COLD item moves it to
    WARM and other hits only set the time; else a hit after the interval moves
    the item to the head of its list. */
    method Update(a: Addr, now: int, mode: Mode)
      requires Valid() && Idle(m, a)
      modifies this
      ensures Valid() && Took(old(m), UpdateSteps(old(m.w), a, now, mode), m)
    {
      hide Inv, Enabled, Apply, Took;
      NoSteps(m);
      OwnerIdle(m, a);
      var t := s.meta[a];
      if mode.Segmented? {
        if t.linked {
          if Segment(s.clsid[a]) == COLD && t.active {
            Relink(a, now, SlabClass(s.clsid[a]) + WARM, false);
          } else {
            CanMark(m, a, t.active, t.fetched, now);
            TookOne(m, LruMachine.Mark(a, t.active, t.fetched, now));
            Mark(a, t.active, t.fetched, now);
          }
        }
      } else if t.time < now - mode.interval {
        if t.linked {
          Relink(a, now, s.clsid[a], t.active);
        }
      }
    }

    /** time = now; item_unlink_q; a new class; item_link_q. */
    method Relink(a: Addr, now: int, id: nat, active: bool)
      requires Valid() && Idle(m, a) && s.meta[a].linked && id < CLASSES && SlabClass(id) == SlabClass(s.Owner(a))
      modifies this
      ensures Valid() && Took(old(m), RelinkSteps(old(m.w), a, now, id, active), m)
    {
      hide Inv, Enabled, Apply, Took;
      ghost var m0 := m;
      var t := s.meta[a];
      CanMark(m, a, t.active, t.fetched, now);
      TookOne(m, LruMachine.Mark(a, t.active, t.fetched, now));
      Mark(a, t.active, t.fetched, now);
      CanMoveOff(m, a);
      Begun(m, a, now);
      TookSnoc(m0, [LruMachine.Mark(a, t.active, t.fetched, now)], m, LruMachine.MoveOff(a));
      MoveOff(a);
      CanGoOn(m, a, LruMachine.MoveOn(a, id, active));
      TookSnoc(m0, [LruMachine.Mark(a, t.active, t.fetched, now)] + [LruMachine.MoveOff(a)], m,
          LruMachine.MoveOn(a, id, active));
      MoveOn(a, id, active);
      assert [LruMachine.Mark(a, t.active, t.fetched, now)] + [LruMachine.MoveOff(a)] +
          [LruMachine.MoveOn(a, id, active)]
        == RelinkSteps(m0.w, a, now, id, active);
    }
  }

  /** settings.lru_segmented, or ITEM_UPDATE_INTERVAL without it. */
  datatype Mode = Segmented | Flat(interval: int)

  function LinkSteps(a: Addr, now: int): seq<Step> {
    [LruMachine.LinkFlag(a, now), LruMachine.LinkList(a), LruMachine.LinkCount(a)]
  }

  function UnlinkSteps(w: World, a: Addr): seq<Step>
    requires a in w.s.meta
  {
    if w.s.meta[a].linked then [LruMachine.UnlinkFlag(a), LruMachine.UnlinkList(a), LruMachine.UnlinkDrop(a)] else []
  }

  function RelinkSteps(w: World, a: Addr, now: int, id: nat, active: bool): seq<Step>
    requires a in w.s.meta
  {
    var t := w.s.meta[a];
    [LruMachine.Mark(a, t.active, t.fetched, now), LruMachine.MoveOff(a), LruMachine.MoveOn(a, id, active)]
  }

  function UpdateSteps(w: World, a: Addr, now: int, mode: Mode): seq<Step>
    requires a in w.s.meta
  {
    var t := w.s.meta[a];
    var id := w.s.Owner(a);
    if !t.linked then []
    else if mode.Segmented? then
      (if Segment(id) == COLD && t.active then RelinkSteps(w, a, now, SlabClass(id) + WARM, false)
       else [LruMachine.Mark(a, t.active, t.fetched, now)])
    else if t.time < now - mode.interval then RelinkSteps(w, a, now, id, t.active)
    else []
  }

  lemma NoSteps(m: Sys)
    ensures Took(m, [], m)
  {}

  lemma CanUnlink(m: Sys, a: Addr)
    requires Idle(m, a) && m.w.s.meta[a].linked
    ensures Enabled(m, LruMachine.UnlinkFlag(a))
  {}

  lemma CanMark(m: Sys, a: Addr, active: bool, fetched: bool, time: int)
    requires Idle(m, a)
    ensures var step := LruMachine.Mark(a, active, fetched, time);
      Enabled(m, step) && Idle(Apply(m, step), a) && Apply(m, step).w.s.Owner(a) == m.w.s.Owner(a) &&
      Apply(m, step).w.s.meta[a] == m.w.s.meta[a].(active := active, fetched := fetched, time := time)
  {}

  lemma OwnerIdle(m: Sys, a: Addr)
    requires Inv(m) && Idle(m, a)
    ensures a in m.w.s.clsid && m.w.s.Owner(a) == m.w.s.clsid[a] < CLASSES
  {
    hide OkW;
    OwnerKnown(m.w, a, Odd(m.busy));
  }
}

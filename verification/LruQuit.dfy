/** A crawler that leaves without the list lock while other threads work: as long as
none of them links or unlinks in its class, the four statements may lie apart by any
number of their steps, and the outcome is that of leaving in one step at the end. */
module LruQuit {
  import opened Basics
  import opened LruList
  import opened LruRace
  import opened LruState
  import opened LruWorld
  import opened LruCrawl
  import opened LruMachine
  import opened LruRuns
  import opened LruCrawler
  import Crawler

  /** Pointers of a few items, and the ends of one list, written over. */
  datatype Area = Area(next: Ptrs, prev: Ptrs, head: Addr, tail: Addr) {
    predicate Has(a: Addr) { a in next || a in prev }
  }

  function OverPtrs(l: List, r: Area): List {
    l.(next := l.next + r.next, prev := l.prev + r.prev)
  }

  /** What the first k statements have written so far. */
  function Written(l: List, c: Addr, k: nat): Area
    requires c in l.next && c in l.prev
  {
    var n, p := l.next[c], l.prev[c];
    Area(if k >= 4 && p != NULL then map[p := n] else map[],
         if k >= 3 && n != NULL then map[n := p] else map[],
         if k >= 1 && l.head == c then n else l.head,
         if k >= 2 && l.tail == c then p else l.tail)
  }

  function OverList(l: List, r: Area): List {
    OverPtrs(l, r).(head := r.head, tail := r.tail)
  }

  lemma WrittenStep(l: List, c: Addr, k: nat)
    requires c in l.next && c in l.prev && l.next[c] != c && l.prev[c] != c && k < 4
    ensures c in OverList(l, Written(l, c, k)).next && c in OverList(l, Written(l, c, k)).prev
    ensures Statement(OverList(l, Written(l, c, k)), c, k) == OverList(l, Written(l, c, k + 1))
  {}

  lemma Merge(m: Ptrs, r: Ptrs, a: Addr, v: Addr)
    requires a !in r
    ensures (m + r)[a := v] == m[a := v] + r
  {}

  lemma LinkHeadApart(l: List, a: Addr, r: Area)
    requires !r.Has(a) && !r.Has(l.head)
    ensures LinkHead(OverPtrs(l, r), a) == OverPtrs(LinkHead(l, a), r)
  {
    Merge(l.next, r.next, a, l.head);
    Merge(l.prev, r.prev, a, NULL);
    Merge(l.prev[a := NULL], r.prev, l.head, a);
  }

  lemma LinkTailApart(l: List, a: Addr, r: Area)
    requires !r.Has(a) && !r.Has(l.tail)
    ensures LinkTail(OverPtrs(l, r), a) == OverPtrs(LinkTail(l, a), r)
  {
    Merge(l.prev, r.prev, a, l.tail);
    Merge(l.next, r.next, a, NULL);
    Merge(l.next[a := NULL], r.next, l.tail, a);
  }

  lemma UnlinkApart(l: List, a: Addr, r: Area)
    requires a in l.next && a in l.prev && !r.Has(a) && !r.Has(l.next[a]) && !r.Has(l.prev[a])
    ensures Unlink(OverPtrs(l, r), a) == OverPtrs(Unlink(l, a), r)
  {
    var n, p := l.next[a], l.prev[a];
    Merge(l.next, r.next, p, n);
    Merge(l.prev, r.prev, n, p);
  }

  lemma CrawlApart(l: List, a: Addr, r: Area)
    requires CrawlAsserts(l, a) && !r.Has(a) && !r.Has(l.next[a]) && !r.Has(l.prev[a])
    requires l.prev[a] != NULL ==> !r.Has(l.prev[l.prev[a]])
    ensures CrawlAsserts(OverPtrs(l, r), a)
    ensures Crawl(OverPtrs(l, r), a) == (OverPtrs(Crawl(l, a).0, r), Crawl(l, a).1)
  {
    var n, p := l.next[a], l.prev[a];
    if p == NULL {
      Merge(l.prev, r.prev, n, NULL);
    } else {
      var next := l.next[p := n];
      Merge(l.next, r.next, p, n);
      Merge(next, r.next, a, p);
      var prev := if n != NULL then l.prev[n := p] else l.prev;
      Merge(l.prev, r.prev, n, p);
      var pp := prev[p];
      Merge(next[a := p], r.next, pp, a);
      Merge(prev, r.prev, a, pp);
      Merge(prev[a := pp], r.prev, p, a);
    }
  }

  lemma AssertsApart(l: List, a: Addr, r: Area)
    requires !r.Has(a)
    ensures UnlinkAsserts(OverPtrs(l, r), a) == UnlinkAsserts(l, a)
    ensures !r.Has(l.tail) ==> LinkAsserts(OverPtrs(l, r), a) == LinkAsserts(l, a)
  {}

  /** The state with an area of class id written over. */
  function Over(s: State, id: nat, r: Area): State
    requires s.Shaped() && id < CLASSES
  {
    s.(next := s.next + r.next, prev := s.prev + r.prev, heads := s.heads[id := r.head], tails := s.tails[id := r.tail])
  }

  lemma OverAt(s: State, id: nat, r: Area, j: nat)
    requires s.Shaped() && id < CLASSES && j < CLASSES
    ensures Over(s, id, r).Shaped() && Over(s, id, r).At(id) == OverList(s.At(id), r)
    ensures j != id ==> Over(s, id, r).At(j) == OverPtrs(s.At(j), r)
    ensures j != id ==> forall l: List :: Over(s, id, r).SetList(j, OverPtrs(l, r)) == Over(s.SetList(j, l), id, r)
    ensures forall a :: Over(s, id, r).Owner(a) == s.Owner(a)
  {
    if j != id {
      forall l: List ensures Over(s, id, r).SetList(j, OverPtrs(l, r)) == Over(s.SetList(j, l), id, r) {
        assert s.heads[id := r.head][j := l.head] == s.heads[j := l.head][id := r.head];
        assert s.tails[id := r.tail][j := l.tail] == s.tails[j := l.tail][id := r.tail];
      }
    }
  }

  /** The area is the business of class id. */
  ghost predicate Mine(w: World, id: nat, r: Area) {
    id < |w.lists| && forall a :: r.Has(a) ==> a in w.lists[id]
  }

  function OverWorld(w: World, id: nat, r: Area): World
    requires w.s.Shaped() && id < CLASSES
  {
    w.(s := Over(w.s, id, r))
  }

  /** NULL, the members of other lists, and items of other classes lie outside. */
  lemma Outside(w: World, id: nat, r: Area, j: nat, transit: set<Addr>)
    requires OkW(w, transit) && Mine(w, id, r) && id < CLASSES && j < CLASSES && j != id && |w.lists| == CLASSES
    ensures w.s.Shaped() && !r.Has(NULL)
    ensures forall a :: a in w.lists[j] || w.s.Owner(a) == j ==> !r.Has(a)
    ensures Dll(w.s.At(j), w.lists[j])
  {
    hide FlagsOk, RefsOk, Dll;
    NullNotIn(w.s, w.lists, id);
    assert ListOk(w.s, w.lists, id) && ListOk(w.s, w.lists, j);
  }

  lemma EndsOutside(l: List, s: seq<Addr>, r: Area)
    requires Dll(l, s) && !r.Has(NULL) && forall a :: a in s ==> !r.Has(a)
    ensures !r.Has(l.head) && !r.Has(l.tail)
  {}

  lemma NeighboursOutside(l: List, s: seq<Addr>, i: nat, r: Area)
    requires Dll(l, s) && i < |s| && !r.Has(NULL) && forall a :: a in s ==> !r.Has(a)
    ensures s[i] in l.next && s[i] in l.prev && !r.Has(l.next[s[i]]) && !r.Has(l.prev[s[i]])
    ensures l.prev[s[i]] != NULL && l.prev[s[i]] in l.prev ==> !r.Has(l.prev[l.prev[s[i]]])
  {
    assert Node(l, s, i);
    if i > 0 { assert Node(l, s, i - 1); }
  }

  lemma LinkQApart(s: State, id: nat, r: Area, a: Addr)
    requires s.Shaped() && id < CLASSES && s.Owner(a) < CLASSES && s.Owner(a) != id
    requires LinkHead(OverPtrs(s.At(s.Owner(a)), r), a) == OverPtrs(LinkHead(s.At(s.Owner(a)), a), r)
    ensures Over(s, id, r).Shaped() && Over(s, id, r).Owner(a) == s.Owner(a)
    ensures LinkQ(Over(s, id, r), a) == Over(LinkQ(s, a), id, r)
  {
    hide LinkHead;
    OverAt(s, id, r, s.Owner(a));
  }

  lemma UnlinkQApart(s: State, id: nat, r: Area, a: Addr)
    requires s.Shaped() && id < CLASSES && s.Owner(a) < CLASSES && s.Owner(a) != id && a in s.next && a in s.prev
    requires Unlink(OverPtrs(s.At(s.Owner(a)), r), a) == OverPtrs(Unlink(s.At(s.Owner(a)), a), r)
    ensures Over(s, id, r).Shaped() && Over(s, id, r).Owner(a) == s.Owner(a)
    ensures UnlinkQ(Over(s, id, r), a) == Over(UnlinkQ(s, a), id, r)
  {
    hide Unlink;
    OverAt(s, id, r, s.Owner(a));
  }

  lemma AttachApart(w: World, id: nat, r: Area, a: Addr, transit: set<Addr>)
    requires OkW(w, transit) && Mine(w, id, r) && id < CLASSES && |w.lists| == CLASSES && w.s.Shaped()
    requires w.s.Owner(a) != id && CanAttach(w, a)
    ensures CanAttach(OverWorld(w, id, r), a)
    ensures Attach(OverWorld(w, id, r), a) == OverWorld(Attach(w, a), id, r)
  {
    var j := w.s.Owner(a);
    hide OkW, LinkAsserts, LinkHead, LinkQ, Dll, Mine;
    Outside(w, id, r, j, transit);
    OverAt(w.s, id, r, j);
    EndsOutside(w.s.At(j), w.lists[j], r);
    AssertsApart(w.s.At(j), a, r);
    LinkHeadApart(w.s.At(j), a, r);
    LinkQApart(w.s, id, r, a);
  }

  lemma DetachApart(w: World, id: nat, r: Area, a: Addr, transit: set<Addr>)
    requires OkW(w, transit) && Mine(w, id, r) && id < CLASSES && |w.lists| == CLASSES && w.s.Shaped()
    requires w.s.Owner(a) != id && CanDetach(w, a)
    ensures CanDetach(OverWorld(w, id, r), a)
    ensures Detach(OverWorld(w, id, r), a) == OverWorld(Detach(w, a), id, r)
  {
    var j := w.s.Owner(a);
    hide OkW, UnlinkAsserts, Unlink, UnlinkQ, Dll, Mine;
    Outside(w, id, r, j, transit);
    OverAt(w.s, id, r, j);
    NeighboursOutside(w.s.At(j), w.lists[j], IndexOf(w.lists[j], a), r);
    AssertsApart(w.s.At(j), a, r);
    UnlinkApart(w.s.At(j), a, r);
    UnlinkQApart(w.s, id, r, a);
  }

  lemma JoinApart(w: World, id: nat, r: Area, j: nat, transit: set<Addr>)
    requires OkW(w, transit) && Mine(w, id, r) && id < CLASSES && |w.lists| == CLASSES && w.s.Shaped() && j != id
    requires CanJoin(w, j)
    ensures CanJoin(OverWorld(w, id, r), j)
    ensures Joined(OverWorld(w, id, r), j) == OverWorld(Joined(w, j), id, r)
  {
    Outside(w, id, r, j, transit);
    OverAt(w.s, id, r, j);
    assert w.s.Owner(CrawlerOf(j)) == j;
    hide OkW, LinkAsserts, LinkTail, Dll;
    EndsOutside(w.s.At(j), w.lists[j], r);
    AssertsApart(w.s.At(j), CrawlerOf(j), r);
    LinkTailApart(w.s.At(j), CrawlerOf(j), r);
  }

  lemma LeaveApart(w: World, id: nat, r: Area, j: nat)
    requires Mine(w, id, r) && id < CLASSES && |w.lists| == CLASSES && w.s.Shaped() && j != id && CanLeave(w, j)
    requires !r.Has(CrawlerOf(j)) && !r.Has(w.s.next[CrawlerOf(j)]) && !r.Has(w.s.prev[CrawlerOf(j)])
    ensures CanLeave(OverWorld(w, id, r), j)
    ensures Left(OverWorld(w, id, r), j) == OverWorld(Left(w, j), id, r)
  {
    OverAt(w.s, id, r, j);
    hide UnlinkAsserts, Unlink;
    AssertsApart(w.s.At(j), CrawlerOf(j), r);
    UnlinkApart(w.s.At(j), CrawlerOf(j), r);
  }

  lemma CrawledApart(w: World, id: nat, r: Area, j: nat, transit: set<Addr>)
    requires OkW(w, transit) && Mine(w, id, r) && id < CLASSES && |w.lists| == CLASSES && w.s.Shaped() && j != id
    requires CanCrawl(w, j)
    ensures CanCrawl(OverWorld(w, id, r), j)
    ensures Crawled(OverWorld(w, id, r), j) == OverWorld(Crawled(w, j), id, r)
  {
    Outside(w, id, r, j, transit);
    OverAt(w.s, id, r, j);
    hide OkW, Crawl, Dll;
    NeighboursOutside(w.s.At(j), w.lists[j], IndexOf(w.lists[j], CrawlerOf(j)), r);
    CrawlApart(w.s.At(j), CrawlerOf(j), r);
  }

  /** The memory as the machine sees it, with an area written over. */
  function OverSys(m: Sys, id: nat, r: Area): Sys
    requires m.w.s.Shaped() && id < CLASSES
  {
    m.(w := OverWorld(m.w, id, r))
  }

  /** A step of another thread that is no link, unlink or crawl of class id. */
  predicate Foreign(m: Sys, step: Step, id: nat) {
    match step
    case LinkList(a) => m.w.s.Owner(a) != id
    case UnlinkList(a) => m.w.s.Owner(a) != id
    case MoveOff(a) => m.w.s.Owner(a) != id
    case MoveOn(_, to, _) => to != id
    case CrawlStart(j, _) => j != id
    case CrawlTurn(j) => j != id
    case CrawlQuit(j) => j != id
    case _ => true
  }

  predicate ListStep(step: Step) { step.LinkList? || step.UnlinkList? || step.MoveOff? || step.MoveOn? }

  predicate CrawlerStep(step: Step) { step.CrawlStart? || step.CrawlTurn? || step.CrawlQuit? }

  /** The step does the same with and without the area. */
  ghost predicate Commutes(m: Sys, id: nat, r: Area, step: Step)
    requires m.w.s.Shaped() && id < CLASSES
  {
    && Enabled(m, step) && Enabled(OverSys(m, id, r), step) && Apply(m, step).w.s.Shaped()
    && Apply(OverSys(m, id, r), step) == OverSys(Apply(m, step), id, r)
    && id < |m.w.lists| == |Apply(m, step).w.lists| && Apply(m, step).w.lists[id] == m.w.lists[id]
  }

  lemma CountsApart(w: World, id: nat, r: Area, a: Addr)
    requires w.s.Shaped() && id < CLASSES && a in w.s.meta && a in w.held
    ensures Hold(w, a).s.Shaped() && Hold(OverWorld(w, id, r), a) == OverWorld(Hold(w, a), id, r)
    ensures w.held[a] > 0 && w.s.meta[a].refcount > 0 ==>
      Drop(w, a).s.Shaped() && Drop(OverWorld(w, id, r), a) == OverWorld(Drop(w, a), id, r)
    ensures Hold(w, a).lists == w.lists
    ensures w.held[a] > 0 && w.s.meta[a].refcount > 0 ==> Drop(w, a).lists == w.lists
  {}

  lemma FlagsApart(w: World, id: nat, r: Area, a: Addr, active: bool, fetched: bool, time: int)
    requires w.s.Shaped() && id < CLASSES && a in w.s.meta && a in w.held
    ensures Touch(w, a, active, fetched, time).s.Shaped() && ClearLinked(w, a).s.Shaped()
    ensures Touch(OverWorld(w, id, r), a, active, fetched, time) == OverWorld(Touch(w, a, active, fetched, time), id, r)
    ensures ClearLinked(OverWorld(w, id, r), a) == OverWorld(ClearLinked(w, a), id, r)
    ensures w.held[a] > 0 ==>
      SetLinked(w, a, time).s.Shaped() && SetLinked(OverWorld(w, id, r), a, time) ==
          OverWorld(SetLinked(w, a, time), id, r)
    ensures Touch(w, a, active, fetched, time).lists == w.lists && ClearLinked(w, a).lists == w.lists
    ensures w.held[a] > 0 ==> SetLinked(w, a, time).lists == w.lists
  {}

  lemma RecordsSame(w: World, id: nat, r: Area)
    requires w.s.Shaped() && id < CLASSES
    ensures var w' := OverWorld(w, id, r);
      && w'.s.meta == w.s.meta && w'.held == w.held && w'.lists == w.lists && w'.s.clsid == w.s.clsid
      && w'.s.ntotal == w.s.ntotal && forall a :: w'.s.Owner(a) == w.s.Owner(a)
  {}

  lemma CountStepApart(m: Sys, id: nat, r: Area, step: Step)
    requires m.w.s.Shaped() && id < CLASSES == |m.w.lists| && Enabled(OverSys(m, id, r), step)
    requires step.Incref? || step.Decref? || step.LinkCount? || step.UnlinkDrop? || step.BumpDrop?
    ensures Commutes(m, id, r, step)
  {
    hide Hold, Drop, Over;
    var a := if step.BumpDrop? then m.pending[0] else step.a;
    RecordsSame(m.w, id, r);
    CountsApart(m.w, id, r, a);
  }

  lemma FlagStepApart(m: Sys, id: nat, r: Area, step: Step)
    requires m.w.s.Shaped() && id < CLASSES == |m.w.lists| && Enabled(OverSys(m, id, r), step)
    requires step.Mark? || step.LinkFlag? || step.UnlinkFlag?
    ensures Commutes(m, id, r, step)
  {
    hide Touch, SetLinked, ClearLinked, Over;
    RecordsSame(m.w, id, r);
    match step
    case Mark(a, active, fetched, time) => FlagsApart(m.w, id, r, a, active, fetched, time);
    case LinkFlag(a, now) => FlagsApart(m.w, id, r, a, false, false, now);
    case UnlinkFlag(a) => FlagsApart(m.w, id, r, a, false, false, 0);
  }

  lemma BumpWorld(w: World, id: nat, r: Area, a: Addr)
    requires w.s.Shaped() && id < CLASSES && a in w.s.meta && a in w.held
    ensures var time := w.s.meta[a].time; var w' := Hold(Touch(w, a, true, true, time), a);
      w'.s.Shaped() && w'.lists == w.lists && Hold(Touch(OverWorld(w, id, r), a, true, true, time), a) ==
          OverWorld(w', id, r)
  {
    var time := w.s.meta[a].time;
    FlagsApart(w, id, r, a, true, true, time);
    CountsApart(Touch(w, a, true, true, time), id, r, a);
    hide Hold, Over;
  }

  lemma BumpApart(m: Sys, id: nat, r: Area, step: Step)
    requires m.w.s.Shaped() && id < CLASSES == |m.w.lists| && Enabled(OverSys(m, id, r), step) && step.Bump?
    ensures Commutes(m, id, r, step)
  {
    hide Touch, Hold, Over;
    RecordsSame(m.w, id, r);
    BumpWorld(m.w, id, r, step.a);
  }

  lemma AllocApart(m: Sys, id: nat, r: Area, step: Step)
    requires Inv(m) && Mine(m.w, id, r) && id < CLASSES && m.w.s.Shaped() && Enabled(OverSys(m, id, r), step)
    requires step.Alloc?
    ensures Commutes(m, id, r, step)
  {
    if r.Has(step.a) { MemberIsItem(m.w, id, step.a, Odd(m.busy)); }
    hide OkW, Mine;
    Merge(m.w.s.next, r.next, step.a, NULL);
    Merge(m.w.s.prev, r.prev, step.a, NULL);
  }

  lemma MemberIsItem(w: World, id: nat, a: Addr, transit: set<Addr>)
    requires OkW(w, transit) && id < |w.lists| && a in w.lists[id] && !IsCrawler(a)
    ensures a in w.s.meta
  {
    assert Known(w.s, w.lists[id]);
  }

  /** Links and unlinks in other classes. */
  lemma LinkStepApart(m: Sys, id: nat, r: Area, a: Addr)
    requires Inv(m) && Mine(m.w, id, r) && id < CLASSES && m.w.s.Shaped()
    requires Enabled(OverSys(m, id, r), LinkList(a)) && m.w.s.Owner(a) != id
    ensures Commutes(m, id, r, LinkList(a))
  {
    hide OkW, Mine, CanAttach, Attach, LinkAsserts;
    Disagree(m, a);
    LinkShadow(m.w, a, id, Odd(m.busy));
    AttachApart(m.w, id, r, a, Odd(m.busy));
    AttachFacts(m.w, a);
    AttachShape(m.w, a);
  }

  lemma AttachShape(w: World, a: Addr)
    requires CanAttach(w, a)
    ensures Attach(w, a).s.Shaped()
  {}

  lemma DetachShape(w: World, a: Addr)
    requires CanDetach(w, a)
    ensures Detach(w, a).s.Shaped()
  {}

  lemma UnlinkStepApart(m: Sys, id: nat, r: Area, a: Addr)
    requires Inv(m) && Mine(m.w, id, r) && id < CLASSES && m.w.s.Shaped()
    requires Enabled(OverSys(m, id, r), UnlinkList(a)) && m.w.s.Owner(a) != id
    ensures Commutes(m, id, r, UnlinkList(a))
  {
    hide OkW, Mine, CanDetach, Detach;
    Disagree(m, a);
    UnlinkShadow(m.w, a, id, Odd(m.busy));
    DetachApart(m.w, id, r, a, Odd(m.busy));
    DetachFacts(m.w, a);
    DetachShape(m.w, a);
  }

  lemma MoveOffApart(m: Sys, id: nat, r: Area, a: Addr)
    requires Inv(m) && Mine(m.w, id, r) && id < CLASSES && m.w.s.Shaped()
    requires Enabled(OverSys(m, id, r), MoveOff(a)) && m.w.s.Owner(a) != id
    ensures Commutes(m, id, r, MoveOff(a))
  {
    hide OkW, Mine, CanDetach, Detach;
    NotOdd(m, a);
    UnlinkShadow(m.w, a, id, Odd(m.busy));
    DetachApart(m.w, id, r, a, Odd(m.busy));
    DetachFacts(m.w, a);
    DetachShape(m.w, a);
  }

  lemma ReclassApart(w: World, id: nat, r: Area, a: Addr, to: nat, active: bool)
    requires w.s.Shaped() && id < CLASSES && a in w.s.meta && !IsCrawler(a)
    ensures var w' := Reclass(w, a, to, active);
      && w'.s.Shaped() && Reclass(OverWorld(w, id, r), a, to, active) == OverWorld(w', id, r)
      && w'.lists == w.lists && w'.s.Owner(a) == to
  {}

  lemma MoveOnApart(m: Sys, id: nat, r: Area, a: Addr, to: nat, active: bool)
    requires Inv(m) && Mine(m.w, id, r) && id < CLASSES && m.w.s.Shaped()
    requires Enabled(OverSys(m, id, r), MoveOn(a, to, active)) && to != id
    ensures Commutes(m, id, r, MoveOn(a, to, active))
  {
    hide OkW, Mine, CanAttach, Attach, Reclass, Over;
    Disagree(m, a);
    RecordsSame(m.w, id, r);
    OwnerKnown(m.w, a, Odd(m.busy));
    ReclassApart(m.w, id, r, a, to, active);
    var w1 := Reclass(m.w, a, to, active);
    ReclassKeeps(m.w, a, to, active, Odd(m.busy));
    ReclassMeta(m.w, a, to, active);
    LinkShadow(w1, a, id, Odd(m.busy));
    MineSame(m.w, w1, id, r);
    AttachApart(w1, id, r, a, Odd(m.busy));
    AttachFacts(w1, a);
    AttachShape(w1, a);
  }

  lemma ReclassMeta(w: World, a: Addr, to: nat, active: bool)
    requires a in w.s.meta
    ensures a in Reclass(w, a, to, active).s.meta && Reclass(w, a, to, active).s.meta[a].linked == w.s.meta[a].linked
  {}

  lemma MineSame(w: World, w': World, id: nat, r: Area)
    requires Mine(w, id, r) && id < |w'.lists| && w'.lists[id] == w.lists[id]
    ensures Mine(w', id, r)
  {}

  lemma CrawlStartApart(m: Sys, id: nat, r: Area, j: nat, request: Crawler.Request)
    requires Inv(m) && Mine(m.w, id, r) && id < CLASSES && m.w.s.Shaped() && j != id
    requires Enabled(OverSys(m, id, r), CrawlStart(j, request))
    ensures Commutes(m, id, r, CrawlStart(j, request))
  {
    JoinedOk(m.w, j, Odd(m.busy));
    hide OkW, Mine, CanJoin, Joined;
    JoinApart(m.w, id, r, j, Odd(m.busy));
    JoinedFacts(m.w, j);
    JoinedShape(m.w, j);
  }

  lemma JoinedShape(w: World, j: nat)
    requires CanJoin(w, j)
    ensures Joined(w, j).s.Shaped()
  {}

  lemma QuitApart(m: Sys, id: nat, r: Area, j: nat)
    requires Inv(m) && Mine(m.w, id, r) && id < CLASSES && m.w.s.Shaped() && j != id
    requires Enabled(OverSys(m, id, r), CrawlQuit(j))
    ensures Commutes(m, id, r, CrawlQuit(j))
  {
    hide OkW, Mine, CanLeave, Left, Dll, Over;
    RecordsSame(m.w, id, r);
    QuitMember(m, j);
    LeftOk(m.w, j, Odd(m.busy));
    ListsKnown(m.w, j, Odd(m.busy));
    Outside(m.w, id, r, j, Odd(m.busy));
    NeighboursOutside(m.w.s.At(j), m.w.lists[j], IndexOf(m.w.lists[j], CrawlerOf(j)), r);
    LeaveApart(m.w, id, r, j);
    LeftFacts(m.w, j);
    LeftShape(m.w, j);
  }

  lemma QuitMember(m: Sys, j: nat)
    requires Inv(m) && Running(m, j)
    ensures j < CLASSES == |m.w.lists| && CrawlerOf(j) in m.w.lists[j]
  {
    hide OkW;
  }

  lemma LeftShape(w: World, j: nat)
    requires w.s.Shaped() && |w.lists| == CLASSES && j < CLASSES && CrawlerOf(j) in w.s.next && CrawlerOf(j) in w.s.prev
    ensures Left(w, j).s.Shaped()
  {}

  /** Where a crawl step leaves the pointers of the crawler itself. */
  lemma CrawledPlace(l: List, c: Addr, r: Area)
    requires CrawlAsserts(l, c) && !r.Has(c) && !r.Has(l.next[c]) && !r.Has(l.prev[c])
    requires l.prev[c] != NULL ==> !r.Has(l.prev[l.prev[c]])
    ensures var l' := Crawl(l, c).0; c in l'.next && c in l'.prev && !r.Has(l'.next[c]) && !r.Has(l'.prev[c])
  {}

  lemma TurnedApart(w: World, id: nat, r: Area, j: nat, done: bool, transit: set<Addr>)
    requires OkW(w, transit) && Mine(w, id, r) && id < CLASSES && |w.lists| == CLASSES && w.s.Shaped() && j != id
    requires CanCrawl(w, j)
    ensures CanCrawl(OverWorld(w, id, r), j) && Turned(w, j, done).s.Shaped()
    ensures Turned(OverWorld(w, id, r), j, done) == OverWorld(Turned(w, j, done), id, r)
  {
    hide OkW, Crawled, Crawl, Left, Dll, Over, Mine, UnlinkAsserts, IndexOf;
    CrawledApart(w, id, r, j, transit);
    CrawledOk(w, j, transit);
    Outside(w, id, r, j, transit);
    var w1 := Crawled(w, j);
    CrawledFacts(w, j);
    NeighboursOutside(w.s.At(j), w.lists[j], IndexOf(w.lists[j], CrawlerOf(j)), r);
    CrawledPlace(w.s.At(j), CrawlerOf(j), r);
    CrawledState(w, j);
    CrawledMember(w, j);
    MineSame(w, w1, id, r);
    if done {
      LeaveApart(w1, id, r, j);
      LeftShape(w1, j);
    }
  }

  lemma CrawledMember(w: World, j: nat)
    requires CanCrawl(w, j)
    ensures |Crawled(w, j).lists| == CLASSES && CrawlerOf(j) in Crawled(w, j).lists[j]
    ensures forall id :: 0 <= id < CLASSES && id != j ==> Crawled(w, j).lists[id] == w.lists[id]
  {
    var list := w.lists[j];
    var i := IndexOf(list, CrawlerOf(j));
    if i > 0 { Crawler.SwapMember(list, i, CrawlerOf(j)); }
    hide CrawlAsserts, Crawl;
  }

  lemma CrawlTurnApart(m: Sys, id: nat, r: Area, j: nat)
    requires Inv(m) && Mine(m.w, id, r) && id < CLASSES && m.w.s.Shaped() && j != id
    requires Enabled(OverSys(m, id, r), CrawlTurn(j))
    ensures Commutes(m, id, r, CrawlTurn(j))
  {
    hide OkW, Mine, CanCrawl, Turned, Crawler.CrawlOnce, Over;
    RecordsSame(m.w, id, r);
    CanTurn(m, j);
    TurnShape(m, j);
    var done := !Crawler.CrawlOnce(CrawlerOf(j), View(m, j)).running;
    TurnedApart(m.w, id, r, j, done, Odd(m.busy));
    TurnedFacts(m.w, j, done);
  }

  /** No step that leaves the list of the class alone can tell. */
  lemma StepApart(m: Sys, id: nat, r: Area, step: Step)
    requires Inv(m) && Mine(m.w, id, r) && id < CLASSES && m.w.s.Shaped() && Foreign(m, step, id)
    requires Enabled(OverSys(m, id, r), step)
    ensures Commutes(m, id, r, step)
  {
    hide Inv, Enabled, Apply, Commutes, Mine, Over;
    ShapeKnown(m);
    match step
    case Alloc(_, _, _, _, _) => AllocApart(m, id, r, step);
    case LinkList(a) => LinkStepApart(m, id, r, a);
    case UnlinkList(a) => UnlinkStepApart(m, id, r, a);
    case MoveOff(a) => MoveOffApart(m, id, r, a);
    case MoveOn(a, to, active) => MoveOnApart(m, id, r, a, to, active);
    case CrawlStart(j, request) => CrawlStartApart(m, id, r, j, request);
    case CrawlTurn(j) => CrawlTurnApart(m, id, r, j);
    case CrawlQuit(j) => QuitApart(m, id, r, j);
    case Bump(_) => BumpApart(m, id, r, step);
    case Mark(_, _, _, _) => FlagStepApart(m, id, r, step);
    case LinkFlag(_, _) => FlagStepApart(m, id, r, step);
    case UnlinkFlag(_) => FlagStepApart(m, id, r, step);
    case _ => CountStepApart(m, id, r, step);
  }

  /** A run in which the crawler of class id leaves without a lock: its statements,
  and the steps of the other threads. */
  datatype Move = Thread(step: Step) | Own

  predicate CanWrite(m: Sys, id: nat) {
    m.w.s.Shaped() && id < CLASSES && CrawlerOf(id) in m.w.s.next && CrawlerOf(id) in m.w.s.prev
  }

  /** Statement number k carried out in memory. */
  function Write(m: Sys, id: nat, k: nat): Sys
    requires CanWrite(m, id)
  {
    m.(w := m.w.(s := m.w.s.SetList(id, Statement(m.w.s.At(id), CrawlerOf(id), k))))
  }

  /** From m, with k statements done, the moves lead to m', when all four are done. */
  ghost predicate Races(m: Sys, id: nat, k: nat, moves: seq<Move>, m': Sys)
    decreases |moves|
  {
    if moves == [] then k == 4 && m' == m
    else match moves[0]
      case Thread(step) => Foreign(m, step, id) && Enabled(m, step) && Races(Apply(m, step), id, k, moves[1..], m')
      case Own => k < 4 && CanWrite(m, id) && Races(Write(m, id, k), id, k + 1, moves[1..], m')
  }

  /** The record of the crawl once it has left. */
  function Gone(m: Sys, id: nat): Sys
    requires id < |m.crawls| && id < |m.w.lists|
  {
    var v := Crawler.ClassDone(CrawlerOf(id), View(m, id));
    SetCrawl(m, m.w.(lists := m.w.lists[id := v.list]), id, v)
  }

  /** The steps of the other threads. */
  function Threads(moves: seq<Move>): seq<Step> {
    if moves == [] then [] else (if moves[0].Thread? then [moves[0].step] else []) + Threads(moves[1..])
  }

  /** Which pointers that is depends on the sequence of the list alone. */
  lemma WrittenSame(l: List, l': List, s: seq<Addr>, c: Addr, k: nat)
    requires Dll(l, s) && Dll(l', s) && c in s
    ensures c in l.next && c in l.prev && c in l'.next && c in l'.prev && Written(l', c, k) == Written(l, c, k)
  {
    var i := IndexOf(s, c);
    assert Node(l, s, i) && Node(l', s, i);
  }

  lemma WrittenMine(w: World, id: nat, k: nat)
    requires ListsOk(w.s, w.lists) && id < CLASSES && CrawlerOf(id) in w.lists[id]
    ensures CrawlerOf(id) in w.s.next && CrawlerOf(id) in w.s.prev && Mine(w, id, Written(w.s.At(id), CrawlerOf(id), k))
    ensures w.s.next[CrawlerOf(id)] != CrawlerOf(id) && w.s.prev[CrawlerOf(id)] != CrawlerOf(id)
  {
    assert ListOk(w.s, w.lists, id);
    var list := w.lists[id];
    var i := IndexOf(list, CrawlerOf(id));
    assert Node(w.s.At(id), list, i);
    if i > 0 { assert list[i - 1] in list; }
    if i + 1 < |list| { assert list[i + 1] in list; }
  }

  lemma WriteOver(m: Sys, id: nat, k: nat)
    requires m.w.s.Shaped() && id < CLASSES && k < 4
    requires var c := CrawlerOf(id); c in m.w.s.next && c in m.w.s.prev && m.w.s.next[c] != c && m.w.s.prev[c] != c
    ensures var l, c := m.w.s.At(id), CrawlerOf(id);
      && CanWrite(OverSys(m, id, Written(l, c, k)), id)
      && Write(OverSys(m, id, Written(l, c, k)), id, k) == OverSys(m, id, Written(l, c, k + 1))
  {
    var l, c := m.w.s.At(id), CrawlerOf(id);
    WrittenStep(l, c, k);
    OverAt(m.w.s, id, Written(l, c, k), id);
    hide Written, Statement;
    SetOver(m.w.s, id, Written(l, c, k), Written(l, c, k + 1));
  }

  lemma SetOver(s: State, id: nat, r: Area, r': Area)
    requires s.Shaped() && id < CLASSES
    ensures Over(s, id, r).Shaped() && Over(s, id, r).SetList(id, OverList(s.At(id), r')) == Over(s, id, r')
  {}

  lemma NothingWritten(m: Sys, id: nat)
    requires CanWrite(m, id)
    ensures OverSys(m, id, Written(m.w.s.At(id), CrawlerOf(id), 0)) == m
  {
    var s := m.w.s;
    assert s.heads[id := s.heads[id]] == s.heads && s.tails[id := s.tails[id]] == s.tails;
    assert s.next + map[] == s.next && s.prev + map[] == s.prev;
  }

  lemma AllWritten(m: Sys, id: nat)
    requires CanWrite(m, id) && id < |m.crawls| && |m.w.lists| == CLASSES
    requires Enabled(m, CrawlQuit(id))
    ensures Gone(OverSys(m, id, Written(m.w.s.At(id), CrawlerOf(id), 4)), id) == Apply(m, CrawlQuit(id))
  {
    hide Crawler.Remove, UnlinkAsserts, Unlink, Written, Over;
    AllOver(m.w.s, id);
  }

  lemma AllOver(s: State, id: nat)
    requires s.Shaped() && id < CLASSES && CrawlerOf(id) in s.next && CrawlerOf(id) in s.prev
    ensures Over(s, id, Written(s.At(id), CrawlerOf(id), 4)) == s.SetList(id, Unlink(s.At(id), CrawlerOf(id)))
  {
    AllList(s.At(id), CrawlerOf(id));
    OverIs(s, id, Written(s.At(id), CrawlerOf(id), 4));
    hide Written, Unlink;
  }

  lemma OverIs(s: State, id: nat, r: Area)
    requires s.Shaped() && id < CLASSES
    ensures Over(s, id, r) == s.SetList(id, OverList(s.At(id), r))
  {}

  lemma AllList(l: List, c: Addr)
    requires c in l.next && c in l.prev
    ensures OverList(l, Written(l, c, 4)) == Unlink(l, c)
  {
    var n, p := l.next[c], l.prev[c];
    UnlinkIs(l, c);
    hide Unlink;
    assert l.next + (if p != NULL then map[p := n] else map[]) == if p != NULL then l.next[p := n] else l.next;
    assert l.prev + (if n != NULL then map[n := p] else map[]) == if n != NULL then l.prev[n := p] else l.prev;
  }

  /** While the crawler is on its way out, memory is that of a machine in which it
  is still in the list, with what its statements have written so far. */
  lemma {:induction false} RaceIsQuit(m: Sys, id: nat, k: nat, moves: seq<Move>, m': Sys) returns (last: Sys)
    requires Inv(m) && Running(m, id) && CanWrite(m, id) && k <= 4
    requires Races(OverSys(m, id, Written(m.w.s.At(id), CrawlerOf(id), k)), id, k, moves, m')
    ensures Took(m, Threads(moves), last) && Inv(last) && Enabled(last, CrawlQuit(id))
    ensures id < |m'.crawls| && id < |m'.w.lists| && Gone(m', id) == Apply(last, CrawlQuit(id))
    decreases |moves|
  {
    hide Inv, Enabled, Apply, Written, OverWorld, Mine, Took, Gone, Write, Foreign, Commutes;
    var c := CrawlerOf(id);
    var r := Written(m.w.s.At(id), c, k);
    CanQuit(m, id);
    ShapeKnown(m);
    RunningMine(m, id, k);
    if moves == [] {
      RecordsSame(m.w, id, r);
      AllWritten(m, id);
      TookNone(m);
      last := m;
    } else if moves[0].Own? {
      WriteOver(m, id, k);
      last := RaceIsQuit(m, id, k + 1, moves[1..], m');
      assert Threads(moves) == Threads(moves[1..]);
    } else {
      var step := moves[0].step;
      OverForeign(m, id, r, step);
      StepApart(m, id, r, step);
      CommutesFacts(m, id, r, step);
      StepInv(m, step);
      var m1 := Apply(m, step);
      StillRunning(m, m1, id, k);
      last := RaceIsQuit(m1, id, k, moves[1..], m');
      assert Threads(moves) == [step] + Threads(moves[1..]);
      TookFirst(m, step, Threads(moves[1..]), last);
    }
  }

  lemma OverForeign(m: Sys, id: nat, r: Area, step: Step)
    requires m.w.s.Shaped() && id < CLASSES
    ensures Foreign(OverSys(m, id, r), step, id) == Foreign(m, step, id)
  {
    RecordsSame(m.w, id, r);
  }

  lemma CommutesFacts(m: Sys, id: nat, r: Area, step: Step)
    requires m.w.s.Shaped() && id < CLASSES && Commutes(m, id, r, step)
    ensures Enabled(m, step) && Apply(m, step).w.s.Shaped() && Enabled(OverSys(m, id, r), step)
    ensures Apply(OverSys(m, id, r), step) == OverSys(Apply(m, step), id, r)
    ensures id < |m.w.lists| == |Apply(m, step).w.lists| && Apply(m, step).w.lists[id] == m.w.lists[id]
  {}

  lemma TookNone(m: Sys)
    ensures Took(m, [], m)
  {}

  lemma TookFirst(m: Sys, step: Step, rest: seq<Step>, m': Sys)
    requires Enabled(m, step) && Took(Apply(m, step), rest, m')
    ensures Took(m, [step] + rest, m')
  {
    hide Enabled, Apply;
    assert ([step] + rest)[1..] == rest;
  }

  lemma RunningMine(m: Sys, id: nat, k: nat)
    requires Inv(m) && Running(m, id) && id < CLASSES && CanWrite(m, id)
    ensures CrawlerOf(id) in m.w.lists[id] && Mine(m.w, id, Written(m.w.s.At(id), CrawlerOf(id), k))
    ensures var c := CrawlerOf(id); m.w.s.next[c] != c && m.w.s.prev[c] != c
  {
    WrittenMine(m.w, id, k);
  }

  lemma StillRunning(m: Sys, m1: Sys, id: nat, k: nat)
    requires Inv(m) && Inv(m1) && Running(m, id) && CanWrite(m, id) && id < |m.w.lists| == |m1.w.lists|
    requires m1.w.lists[id] == m.w.lists[id]
    ensures Running(m1, id) && CanWrite(m1, id)
    ensures Written(m1.w.s.At(id), CrawlerOf(id), k) == Written(m.w.s.At(id), CrawlerOf(id), k)
  {
    assert ListOk(m.w.s, m.w.lists, id) && ListOk(m1.w.s, m1.w.lists, id);
    WrittenSame(m.w.s.At(id), m1.w.s.At(id), m.w.lists[id], CrawlerOf(id), k);
  }

  /** The theorem: however the four statements are spread over the steps of the
  other threads, as long as those leave the list of the class alone, they keep the
  invariant, and the crawler ends up as if it had left in one step after all. */
  lemma QuitUnlocked(m: Sys, id: nat, moves: seq<Move>, m': Sys) returns (last: Sys)
    requires Inv(m) && Running(m, id) && Races(m, id, 0, moves, m')
    ensures Took(m, Threads(moves), last) && Inv(last) && Enabled(last, CrawlQuit(id))
    ensures id < |m'.crawls| && id < |m'.w.lists|
    ensures Gone(m', id) == Apply(last, CrawlQuit(id)) && Inv(Gone(m', id))
  {
    CanQuit(m, id);
    hide Inv, Enabled, Apply, Races, Written;
    QuitWrites(m, id);
    NothingWritten(m, id);
    last := RaceIsQuit(m, id, 0, moves, m');
    StepInv(last, CrawlQuit(id));
  }

  lemma QuitWrites(m: Sys, id: nat)
    requires Enabled(m, CrawlQuit(id))
    ensures CanWrite(m, id)
  {}
}

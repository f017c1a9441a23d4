/** What a call of lru_pull_tail amounts to: what it does to each item and each
list, when it stops, and when its result hides a change. */
module LruWalk {
  import opened Basics
  import opened LruList
  import opened LruState
  import opened LruWorld
  import opened LruMachine
  import opened LruRuns
  import opened Lru
  import opened LruPull

  function Acted(acts: seq<Act>): set<Addr> {
    set act | act in acts :: act.a
  }

  /** The items put back at the head of the list, the last one first. */
  function Queued(acts: seq<Act>): seq<Addr> {
    if acts == [] then []
    else
      var act, before := acts[|acts| - 1], Queued(acts[..|acts| - 1]);
      if act.Requeue? then [act.a] + before else before
  }

  lemma ActedSnoc(acts: seq<Act>, act: Act)
    ensures Acted(acts + [act]) == Acted(acts) + {act.a}
    ensures Queued(acts + [act]) == if act.Requeue? then [act.a] + Queued(acts) else Queued(acts)
  {
    assert (acts + [act])[..|acts|] == acts;
    forall a ensures a in Acted(acts + [act]) <==> a in Acted(acts) + {act.a} {
      if a in Acted(acts) {
        var b :| b in acts && b.a == a;
        assert b in acts + [act];
      }
      if a == act.a { assert act in acts + [act]; }
    }
  }

  lemma {:induction false} QueuedActs(acts: seq<Act>, a: Addr)
    ensures a in Queued(acts) <==> Requeue(a) in acts
  {
    if acts != [] {
      QueuedActs(acts[..|acts| - 1], a);
      assert acts == acts[..|acts| - 1] + [acts[|acts| - 1]];
    }
  }

  /** What the acts so far have made of an item. */
  ghost predicate ItemSofar(p: Pull, w0: World, w: World, acts: seq<Act>, b: Addr) {
    if Reclaim(b) in acts then
      && Mine(p, w0, b) && p.Dead(w0, b) && Requeue(b) !in acts && w0.s.meta[b].refcount > 0
      && var t := w0.s.meta[b];
        if w0.held[b] == 0 then b !in w.s.meta && b !in w.held
        else Is(w, b, t.(linked := false, refcount := t.refcount - 1), w0.held[b], p.Id())
    else if Requeue(b) in acts then
      && Mine(p, w0, b) && !p.Dead(w0, b) && p.segment == WARM && w0.s.meta[b].active
      && Is(w, b, w0.s.meta[b].(active := false), w0.held[b], p.Id())
    else SameItem(w0, w, b)
  }

  /** A linked item of the list, whose lock the call gets. */
  ghost predicate Mine(p: Pull, w0: World, b: Addr) {
    && !IsCrawler(b) && b in w0.s.meta && b in w0.held && w0.s.meta[b].linked && w0.s.Owner(b) == p.Id() && p.canLock(b)
  }

  ghost predicate Is(w: World, b: Addr, t: Meta, held: nat, owner: nat) {
    b in w.s.meta && w.s.meta[b] == t && b in w.held && w.held[b] == held && w.s.Owner(b) == owner
  }

  /** Of the list before the call, what has been walked past: crawlers, items
  whose lock is taken, and items that were reclaimed or put back at the head. */
  ghost predicate WalkedPast(p: Pull, past: seq<Addr>, acts: seq<Act>) {
    forall b :: b in past ==> if IsCrawler(b) then !p.crawlBlocks else !p.canLock(b) || b in Acted(acts)
  }

  ghost predicate ListSofar(p: Pull, list0: seq<Addr>, list: seq<Addr>, x: Spot) {
    && x.n <= |list0| && list == Queued(x.acts) + list0[..x.n] + Keep(list0[x.n..], Acted(x.acts))
    && (forall b :: b in Acted(x.acts) ==> b in list0[x.n..])
    && x.at == Place(list0, x.n, Queued(x.acts))
    && WalkedPast(p, list0[x.n..], x.acts)
    && x.tries + Count(list0[x.n..]) == 5
  }

  /** Where the walk is: at the last member still ahead, or, past the head, at the
  first of the items that were put before it when it was reached. */
  function Place(list0: seq<Addr>, n: nat, queued: seq<Addr>): Addr
    requires n <= |list0|
  {
    if n > 0 then list0[n - 1] else if list0 == [] then NULL else Last(Keep(queued, {list0[0]}))
  }

  function Last(s: seq<Addr>): Addr { if s == [] then NULL else s[|s| - 1] }

  ghost predicate Sofar(p: Pull, m0: Sys, x: Spot) {
    && Inv(x.m) && SameRest(m0, x.m) && |m0.w.lists| == CLASSES == |x.m.w.lists| && p.Valid() && 0 < p.origId
    && (forall b :: ItemSofar(p, m0.w, x.m.w, x.acts, b))
    && (forall act :: act in x.acts ==> !Stops(act)) && |x.acts| + x.tries <= 5 && |Acted(x.acts)| == |x.acts|
    && (forall j :: 0 <= j < CLASSES && j != p.Id() ==> x.m.w.lists[j] == m0.w.lists[j])
    && ListSofar(p, m0.w.lists[p.Id()], x.m.w.lists[p.Id()], x)
  }

  /** The item locks that threads in the middle of an operation hold. */
  ghost predicate LocksTaken(p: Pull, m: Sys) {
    forall a :: a in m.busy ==> !p.canLock(a)
  }

  lemma FirstSofar(p: Pull, m: Sys)
    requires Inv(m) && p.Valid() && 0 < p.origId
    ensures p.Id() < |m.w.lists| && Sofar(p, m, First(p, m))
  {
    hide OkW;
    var list := m.w.lists[p.Id()];
    var x := First(p, m);
    assert list[..|list|] == list && list[|list|..] == [];
    assert [] + list + [] == list;
    forall b ensures ItemSofar(p, m.w, m.w, [], b) {}
  }

  /** The member before the walk's place. */
  lemma BeforeAt(q: seq<Addr>, list0: seq<Addr>, n: nat, k: seq<Addr>, list: seq<Addr>)
    requires 0 < n <= |list0| && list == q + list0[..n] + k && Distinct(list)
    ensures list0[n - 1] in list && Before(list, list0[n - 1]) == (if n > 1 then list0[n - 2] else Last(q))
    ensures Without(list, IndexOf(list, list0[n - 1])) == q + list0[..n - 1] + k
  {
    var i := |q| + n - 1;
    assert list[i] == list0[n - 1];
    IndexUnique(list, i);
    if n > 1 { assert list[i - 1] == list0[n - 2]; }
    assert Without(list, i) == q + list0[..n - 1] + k;
  }

  /** Walking past a member without an act. */
  lemma ListPassed(p: Pull, list0: seq<Addr>, list: seq<Addr>, x: Spot, tries: nat)
    requires ListSofar(p, list0, list, x) && x.n > 0 && Distinct(list) && Distinct(list0)
    requires if IsCrawler(x.at) then !p.crawlBlocks && tries == x.tries else !p.canLock(x.at) && tries + 1 == x.tries
    ensures ListSofar(p, list0, list, x.(at := Before(list, x.at), tries := tries, n := x.n - 1))
  {
    hide Keep, Acted, Queued, Count, WalkedPast, Distinct, Before, Place;
    var n, q := x.n, Queued(x.acts);
    AtMember(list0, n, q);
    BeforeAt(q, list0, n, Keep(list0[n..], Acted(x.acts)), list);
    PlaceBefore(list0, n, q, x.acts, []);
    assert [] + q == q;
    NotActed(list0, n, x.acts);
    Unroll(list0, n);
    PastOne(p, list0, n, x.acts);
    KeepFirst(list0, n, Acted(x.acts));
    Regrouped(q, list0[..n - 1], list0[n - 1], Keep(list0[n..], Acted(x.acts)));
    Wider(list0, n, x.acts);
  }

  lemma Unroll(list0: seq<Addr>, n: nat)
    requires 0 < n <= |list0|
    ensures list0[..n] == list0[..n - 1] + [list0[n - 1]]
    ensures list0[n - 1..] == [list0[n - 1]] + list0[n..] && list0[n - 1..][1..] == list0[n..]
    ensures Count(list0[n - 1..]) == (if IsCrawler(list0[n - 1]) then 0 else 1) + Count(list0[n..])
  {
    var s := list0[n - 1..];
    assert s[1..] == list0[n..] && s[0] == list0[n - 1];
    assert Count(s) == (if IsCrawler(s[0]) then 0 else 1) + Count(s[1..]);
  }

  lemma AtMember(list0: seq<Addr>, n: nat, q: seq<Addr>)
    requires 0 < n <= |list0|
    ensures Place(list0, n, q) == list0[n - 1]
  {}

  /** The items acted on lie behind the walk. */
  lemma NotActed(list0: seq<Addr>, n: nat, acts: seq<Act>)
    requires 0 < n <= |list0| && Distinct(list0) && forall b :: b in Acted(acts) ==> b in list0[n..]
    ensures forall j :: 0 <= j < n ==> list0[j] !in Acted(acts)
    ensures list0[n - 1] !in list0[n..]
  {
    hide Acted;
    forall j | 0 <= j < n ensures list0[j] !in list0[n..] {}
  }

  lemma Wider(list0: seq<Addr>, n: nat, acts: seq<Act>)
    requires 0 < n <= |list0| && forall b :: b in Acted(acts) ==> b in list0[n..]
    ensures forall b :: b in Acted(acts) ==> b in list0[n - 1..]
  {
    hide Acted;
    Unroll(list0, n);
  }

  lemma KeepFirst(list0: seq<Addr>, n: nat, out: set<Addr>)
    requires 0 < n <= |list0|
    ensures Keep(list0[n - 1..], out) == (if list0[n - 1] in out then [] else [list0[n - 1]]) + Keep(list0[n..], out)
  {
    Unroll(list0, n);
  }

  lemma Regrouped(q: seq<Addr>, front: seq<Addr>, a: Addr, k: seq<Addr>)
    ensures q + (front + [a]) + k == q + front + ([a] + k)
  {}

  lemma PastOne(p: Pull, list0: seq<Addr>, n: nat, acts: seq<Act>)
    requires 0 < n <= |list0| && WalkedPast(p, list0[n..], acts)
    requires var a := list0[n - 1]; if IsCrawler(a) then !p.crawlBlocks else !p.canLock(a) || a in Acted(acts)
    ensures WalkedPast(p, list0[n - 1..], acts)
  {
    hide Acted;
    Unroll(list0, n);
  }

  /** The place before is where the walk goes. */
  lemma PlaceBefore(list0: seq<Addr>, n: nat, q: seq<Addr>, acts: seq<Act>, more: seq<Addr>)
    requires 0 < n <= |list0| && Distinct(list0) && q == Queued(acts)
    requires (forall b :: b in Acted(acts) ==> b in list0[n..])
    requires more == [] || more == [list0[n - 1]]
    ensures Place(list0, n - 1, more + q) == if n > 1 then list0[n - 2] else Last(q)
  {
    if n == 1 {
      NotActed(list0, n, acts);
      forall b | b in q ensures b != list0[0] {
        QueuedActs(acts, b);
        assert b in Acted(acts);
      }
      KeepConcat(more, q, {list0[0]});
      KeepAll(q, {list0[0]});
      assert Keep(more, {list0[0]}) == [];
      assert [] + q == q;
    }
  }

  /** Walking past a member with an act. */
  lemma ListActed(p: Pull, list0: seq<Addr>, list: seq<Addr>, x: Spot, act: Act, list': seq<Addr>)
    requires ListSofar(p, list0, list, x) && x.n > 0 && x.tries > 0 && Distinct(list) && Distinct(list0) && x.at in list
    requires !IsCrawler(x.at) && p.canLock(x.at) && act.a == x.at && (act.Reclaim? || act.Requeue?)
    requires list' == (if act.Requeue? then [x.at] else []) + Without(list, IndexOf(list, x.at))
    ensures ListSofar(p, list0, list', x.(at := Before(list, x.at), tries := x.tries - 1, n := x.n - 1,
        acts := x.acts + [act]))
  {
    hide Keep, Acted, Queued, Count, WalkedPast, Distinct, Before, Place, Without, IndexOf;
    var n, a, q, out := x.n, x.at, Queued(x.acts), Acted(x.acts);
    AtMember(list0, n, q);
    BeforeAt(q, list0, n, Keep(list0[n..], out), list);
    var more := if act.Requeue? then [a] else [];
    PlaceBefore(list0, n, q, x.acts, more);
    assert [] + q == q;
    Unroll(list0, n);
    ActedSnoc(x.acts, act);
    PastMore(p, list0[n..], x.acts, act);
    PastOne(p, list0, n, x.acts + [act]);
    Wider(list0, n, x.acts);
    assert Without(list, IndexOf(list, a)) == q + list0[..n - 1] + Keep(list0[n..], out);
    assert list' == more + (q + list0[..n - 1] + Keep(list0[n..], out));
    ListRegrouped(list0, n, x.acts, act, more, list');
  }

  lemma ListRegrouped(list0: seq<Addr>, n: nat, acts: seq<Act>, act: Act, more: seq<Addr>, list': seq<Addr>)
    requires 0 < n <= |list0| && Distinct(list0) && act.a == list0[n - 1]
    requires forall b :: b in Acted(acts) ==> b in list0[n..]
    requires more == if act.Requeue? then [act.a] else []
    requires list' == more + (Queued(acts) + list0[..n - 1] + Keep(list0[n..], Acted(acts)))
    ensures list' == Queued(acts + [act]) + list0[..n - 1] + Keep(list0[n - 1..], Acted(acts + [act]))
  {
    hide Keep, Acted, Queued, Distinct;
    var a, q, out := act.a, Queued(acts), Acted(acts);
    ActedSnoc(acts, act);
    NotActed(list0, n, acts);
    KeepFirst(list0, n, out + {a});
    KeepSame(list0[n..], out, out + {a});
    assert [] + Keep(list0[n..], out) == Keep(list0[n..], out) && [] + q == q;
    Prepended(more, q, list0[..n - 1], Keep(list0[n..], out));
  }

  lemma PastMore(p: Pull, past: seq<Addr>, acts: seq<Act>, act: Act)
    requires WalkedPast(p, past, acts)
    ensures WalkedPast(p, past, acts + [act])
  {
    ActedSnoc(acts, act);
  }

  lemma Prepended(more: seq<Addr>, q: seq<Addr>, front: seq<Addr>, k: seq<Addr>)
    ensures more + (q + front + k) == (more + q) + front + k
  {}

  /** What an act makes of the items. */
  lemma ItemActed(p: Pull, w0: World, w: World, w': World, acts: seq<Act>, act: Act, b: Addr)
    requires ItemSofar(p, w0, w, acts, b) && (b == act.a ==> SameItem(w0, w, b))
    requires p.Valid() && act.a in w.s.meta && act.a in w.held && Reclaim(act.a) !in acts && Requeue(act.a) !in acts
    requires !IsCrawler(act.a) && w.s.meta[act.a].linked && w.s.Owner(act.a) == p.Id() && p.canLock(act.a)
    requires w.s.Shaped() && act == Choose(w, p, act.a) && (act.Reclaim? || act.Requeue?)
    requires if act.Reclaim? then Gone(w, w', act.a, 0) else Rehomed(w, w', act.a, p.Id(), 0)
    ensures ItemSofar(p, w0, w', acts + [act], b)
  {
    hide TakenFrom, Shifted;
    assert forall x :: x in acts + [act] <==> x in acts || x == act;
    if b != act.a { assert SameItem(w, w', b); }
  }

  /** What is known of a place of the walk. */
  lemma AtPlace(p: Pull, m0: Sys, x: Spot)
    requires Sofar(p, m0, x) && x.at != NULL && LocksTaken(p, m0)
    ensures |x.m.w.lists| == CLASSES && p.Id() < CLASSES && x.at in x.m.w.lists[p.Id()] && x.m.w.s.Shaped()
    ensures Distinct(m0.w.lists[p.Id()]) ==> x.n > 0 || Requeue(x.at) in x.acts
    ensures Distinct(x.m.w.lists[p.Id()])
    ensures !IsCrawler(x.at) && p.canLock(x.at) ==>
      Idle(x.m, x.at) && x.m.w.s.meta[x.at].linked && x.m.w.s.Owner(x.at) == p.Id() && Locks(p, x) == (x.tries > 0)
  {
    var id := p.Id();
    ListOfSofar(p, m0.w.lists[id], x.m.w.lists[id], x);
    ListDistinct(x.m, id);
    if !IsCrawler(x.at) && p.canLock(x.at) { AtItem(x.m, id, x.at); }
  }

  lemma ListDistinct(m: Sys, id: nat)
    requires Inv(m) && id < CLASSES
    ensures |m.w.lists| == CLASSES && Distinct(m.w.lists[id]) && m.w.s.Shaped()
  {
    assert ListOk(m.w.s, m.w.lists, id);
  }

  lemma ListOfSofar(p: Pull, list0: seq<Addr>, list: seq<Addr>, x: Spot)
    requires ListSofar(p, list0, list, x) && x.at != NULL
    ensures x.at in list && (x.n > 0 || Requeue(x.at) in x.acts)
  {
    if x.n > 0 {
      assert x.at in list0[..x.n];
    } else {
      var rest := Keep(Queued(x.acts), {list0[0]});
      assert x.at in rest;
      QueuedActs(x.acts, x.at);
    }
  }

  /** Past the head the walk can only meet what it put there itself, and stops. */
  lemma WrapStops(p: Pull, m0: Sys, x: Spot)
    requires Sofar(p, m0, x) && x.at != NULL && x.n == 0 && x.tries > 0 && LocksTaken(p, m0)
    ensures Locks(p, x) && Stops(Choose(x.m.w, p, x.at)) && p.segment == WARM && p.canLock(x.at) && !IsCrawler(x.at)
  {
    hide OkW;
    AtPlace(p, m0, x);
    ListOfSofar(p, m0.w.lists[p.Id()], x.m.w.lists[p.Id()], x);
    assert ItemSofar(p, m0.w, x.m.w, x.acts, x.at);
  }

  /** The member that the walk reaches has not been acted on. */
  lemma Untouched(p: Pull, m0: Sys, x: Spot)
    requires Sofar(p, m0, x) && x.n > 0 && Distinct(m0.w.lists[p.Id()])
    ensures x.n <= |m0.w.lists[p.Id()]| && x.at == m0.w.lists[p.Id()][x.n - 1]
    ensures Reclaim(x.at) !in x.acts && Requeue(x.at) !in x.acts && SameItem(m0.w, x.m.w, x.at)
    ensures x.at !in Acted(x.acts)
  {
    hide OkW;
    var list0 := m0.w.lists[p.Id()];
    NotActed(list0, x.n, x.acts);
    assert ItemSofar(p, m0.w, x.m.w, x.acts, x.at);
    ActedHas(x.acts, Reclaim(x.at));
    ActedHas(x.acts, Requeue(x.at));
  }

  lemma ActedHas(acts: seq<Act>, act: Act)
    ensures act in acts ==> act.a in Acted(acts)
  {}

  lemma SameListSofar(p: Pull, list0: seq<Addr>, list: seq<Addr>, x: Spot, y: Spot)
    requires ListSofar(p, list0, list, x) && y == x.(m := y.m)
    ensures ListSofar(p, list0, list, y)
  {}

  /** Every turn of the loop keeps what is known of the walk. */
  lemma AdvanceSofar(p: Pull, m0: Sys, x: Spot, y: Spot)
    requires Sofar(p, m0, x) && Advance(p, x, y) && LocksTaken(p, m0) && Distinct(m0.w.lists[p.Id()])
    ensures Sofar(p, m0, y) && x.n > 0 && y.n == x.n - 1
  {
    hide Inv, Took, Before, ListSofar, ItemSofar;
    AtPlace(p, m0, x);
    if x.n == 0 { WrapStops(p, m0, x); }
    if IsCrawler(x.at) || !p.canLock(x.at) {
      ListPassed(p, m0.w.lists[p.Id()], x.m.w.lists[p.Id()], x, y.tries);
    } else {
      ActSofar(p, m0, x, y);
    }
  }

  lemma ActSofar(p: Pull, m0: Sys, x: Spot, y: Spot)
    requires Sofar(p, m0, x) && Advance(p, x, y) && LocksTaken(p, m0) && Distinct(m0.w.lists[p.Id()])
    requires x.n > 0 && !IsCrawler(x.at) && p.canLock(x.at)
    ensures Sofar(p, m0, y)
  {
    hide Inv, Took, Before, ListSofar, ItemSofar, Gone, Rehomed, Distinct, Acted, ActSteps, IndexOf, Without;
    var id := p.Id();
    var act := Choose(x.m.w, p, x.at);
    AtPlace(p, m0, x);
    Untouched(p, m0, x);
    RunInv(x.m, ActSteps(x.m.w, p, act), y.m);
    ActChanges(p, x.m, act, y.m);
    forall b ensures ItemSofar(p, m0.w, y.m.w, y.acts, b) {
      ItemActed(p, m0.w, x.m.w, y.m.w, x.acts, act, b);
    }
    ActLists(x.m.w, y.m.w, p, act);
    ListActed(p, m0.w.lists[id], x.m.w.lists[id], x, act, y.m.w.lists[id]);
    OneMoreAct(x.acts, act);
    SameListSofar(p, m0.w.lists[id], y.m.w.lists[id], y.(m := x.m), y);
  }

  lemma OneMoreAct(acts: seq<Act>, act: Act)
    requires act.a !in Acted(acts) && |Acted(acts)| == |acts| && !Stops(act) && forall b :: b in acts ==> !Stops(b)
    ensures |Acted(acts + [act])| == |acts + [act]| && forall b :: b in acts + [act] ==> !Stops(b)
  {
    ActedSnoc(acts, act);
  }

  lemma ActChanges(p: Pull, m: Sys, act: Act, m': Sys)
    requires Inv(m) && p.Valid() && Idle(m, act.a) && m.w.s.meta[act.a].linked && m.w.s.Owner(act.a) == p.Id()
    requires |m.w.lists| == CLASSES
    requires (act.Reclaim? || act.Requeue?) && Took(m, ActSteps(m.w, p, act), m')
    ensures SameRest(m, m') && if act.Reclaim? then Gone(m.w, m'.w, act.a, 0) else Rehomed(m.w, m'.w, act.a, p.Id(), 0)
  {
    hide Inv, Took, Gone, Rehomed;
    if act.Reclaim? { ReclaimEffect(m, act.a, m'); } else { RequeueEffect(m, act.a, m'); }
  }

  lemma ActLists(w: World, w': World, p: Pull, act: Act)
    requires p.Valid() && act.a in w.s.meta && act.a in w.held && w.s.Owner(act.a) == p.Id() && |w.lists| == CLASSES
    requires (act.Reclaim? || act.Requeue?)
    requires if act.Reclaim? then Gone(w, w', act.a, 0) else Rehomed(w, w', act.a, p.Id(), 0)
    ensures |w'.lists| == CLASSES && act.a in w.lists[p.Id()]
    ensures forall j :: 0 <= j < CLASSES && j != p.Id() ==> w'.lists[j] == w.lists[j]
    ensures w'.lists[p.Id()] ==
      (if act.Requeue? then [act.a] else []) + Without(w.lists[p.Id()], IndexOf(w.lists[p.Id()], act.a))
  {
    hide IndexOf, Without, Became, Freed;
    var list := Without(w.lists[p.Id()], IndexOf(w.lists[p.Id()], act.a));
    assert [] + list == list;
  }

  /** A call: the walk under the list lock, then what is left to do with the item
  it stopped at. */
  ghost predicate Pulling(p: Pull, m: Sys, trail: seq<Spot>, r: Outcome, m': Sys) {
    && p.Valid() && 0 < p.origId && Walk(p, m, trail, r)
    && if r.stop.Some? then Took(r.m, FinishSteps(p, r.stop.value), m') else m' == r.m
  }

  /** The acts before the one that the walk stopped at. */
  function Earlier(r: Outcome): seq<Act> {
    if r.stop.Some? && r.acts != [] then r.acts[..|r.acts| - 1] else r.acts
  }

  /** All turns of the walk keep what is known of it. */
  lemma {:induction false} TrailSofar(p: Pull, m: Sys, trail: seq<Spot>, r: Outcome, k: nat)
    requires Inv(m) && LocksTaken(p, m) && p.Valid() && 0 < p.origId && Walk(p, m, trail, r) && k < |trail|
    ensures Sofar(p, m, trail[k]) && trail[k].n + k == |m.w.lists[p.Id()]| && Distinct(m.w.lists[p.Id()])
  {
    hide Inv, Took, Advance, Sofar, Ends, First;
    ListDistinct(m, p.Id());
    if k == 0 {
      FirstSofar(p, m);
      FirstPlace(p, m);
    } else {
      TrailSofar(p, m, trail, r, k - 1);
      assert trail[k] == trail[k] && Advance(p, trail[k - 1], trail[k]);
      AdvanceSofar(p, m, trail[k - 1], trail[k]);
    }
  }

  lemma FirstPlace(p: Pull, m: Sys)
    requires p.Id() < |m.w.lists|
    ensures First(p, m).n == |m.w.lists[p.Id()]|
  {}

  /** How the walk ends, with what is known of its last place. */
  lemma WalkEnds(p: Pull, m: Sys, trail: seq<Spot>, r: Outcome) returns (x: Spot)
    requires Inv(m) && LocksTaken(p, m) && p.Valid() && 0 < p.origId && Walk(p, m, trail, r)
    ensures Sofar(p, m, x) && Ends(p, x, r) && Distinct(m.w.lists[p.Id()]) && Earlier(r) == x.acts
    ensures r.stop.Some? ==>
      && x.at != NULL && !IsCrawler(x.at) && p.canLock(x.at) && r.stop.value.a == x.at && Locks(p, x)
      && r.stop.value == Choose(x.m.w, p, x.at) && Stops(r.stop.value)
      && Took(x.m, ActSteps(x.m.w, p, r.stop.value), r.m)
    ensures r.stop.None? ==> r.m == x.m && r.acts == x.acts
  {
    hide Inv, Took, Sofar, Advance;
    TrailSofar(p, m, trail, r, |trail| - 1);
    x := trail[|trail| - 1];
    if r.stop.Some? { assert r.acts[..|r.acts| - 1] == x.acts; }
  }

  /** What has become of the item that the walk stopped at; `w` is the world when
  it was reached, where it may already have been put back once. */
  ghost predicate StopItem(p: Pull, w0: World, w: World, w': World, acts: seq<Act>, act: Act) {
    var b, k := act.a, p.Kept();
    && Mine(p, w0, b) && !p.Dead(w0, b) && Reclaim(b) !in acts && w.s.Shaped() && p.Valid() && w0.s.meta[b].refcount > 0
    && var t0 := w0.s.meta[b]; var t := if Requeue(b) in acts then t0.(active := false) else t0;
      && b in w.s.meta && w.s.meta[b] == t && act == Choose(w, p, b)
      && match act
         case Send(_, id) => Is(w', b, t.(active := false, refcount := t.refcount + k), w0.held[b] + k, id)
         case Evict(_) =>
           if w0.held[b] + k == 0 then b !in w'.s.meta && b !in w'.held
           else Is(w', b, t.(linked := false, refcount := t.refcount - 1 + k), w0.held[b] + k, p.Id())
         case _ => Is(w', b, t.(refcount := t.refcount + k), w0.held[b] + k, p.Id())
  }

  /** What the call has made of an item: it is the one that the walk stopped at;
  or it was reclaimed, dead; or put back, active in WARM; or it is untouched. */
  ghost predicate ItemPulled(p: Pull, w0: World, w: World, w': World, r: Outcome, b: Addr) {
    if r.stop.Some? && b == r.stop.value.a then StopItem(p, w0, w, w', Earlier(r), r.stop.value)
    else ItemSofar(p, w0, w', Earlier(r), b)
  }

  lemma StopKnown(p: Pull, m: Sys, x: Spot)
    requires Sofar(p, m, x) && x.at != NULL && LocksTaken(p, m) && !IsCrawler(x.at) && p.canLock(x.at)
    ensures Idle(x.m, x.at) && x.m.w.s.meta[x.at].linked && x.m.w.s.Owner(x.at) == p.Id() < |x.m.w.lists| == CLASSES
    ensures Mine(p, m.w, x.at) && Reclaim(x.at) !in x.acts && m.w.held[x.at] == x.m.w.held[x.at]
    ensures x.m.w.s.meta[x.at] == if Requeue(x.at) in x.acts then m.w.s.meta[x.at].(active := false)
        else m.w.s.meta[x.at]
    ensures p.Dead(m.w, x.at) == p.Dead(x.m.w, x.at) && x.m.w.s.meta[x.at].refcount > 0 && p.Valid()
  {
    hide OkW;
    AtPlace(p, m, x);
    CountKnown(x.m, x.at);
    assert ItemSofar(p, m.w, x.m.w, x.acts, x.at);
  }

  /** The acts that end a walk. */
  lemma StopChanges(p: Pull, m: Sys, act: Act, m1: Sys, m': Sys)
    requires Inv(m) && p.Valid() && Idle(m, act.a) && m.w.s.meta[act.a].linked
    requires m.w.s.Owner(act.a) == p.Id() < |m.w.lists|
    requires Stops(act) && Took(m, ActSteps(m.w, p, act), m1) && Took(m1, FinishSteps(p, act), m')
    ensures SameRest(m, m')
    ensures match act
      case Send(a, id) => Rehomed(m.w, m'.w, a, id, p.Kept())
      case Evict(a) => Gone(m.w, m'.w, a, p.Kept())
      case _ => Stayed(m.w, m'.w, act.a, p.Kept())
  {
    hide Inv, Took, Gone, Rehomed, Stayed;
    match act
    case Send(a, id) => SendEffect(m, p, a, id, m1, m');
    case Evict(a) => EvictEffect(m, p, a, m1, m');
    case _ => StayEffect(m, p, act.a, m1, m');
  }

  lemma StopItemIs(p: Pull, m: Sys, x: Spot, act: Act, w': World)
    requires Sofar(p, m, x) && x.at != NULL && LocksTaken(p, m) && !IsCrawler(x.at) && p.canLock(x.at) && act.a == x.at
    requires x.m.w.s.Shaped() && x.at in x.m.w.s.meta && x.at in x.m.w.held && act == Choose(x.m.w, p, x.at)
    requires Stops(act)
    requires match act
      case Send(a, id) => Rehomed(x.m.w, w', a, id, p.Kept())
      case Evict(a) => Gone(x.m.w, w', a, p.Kept())
      case _ => Stayed(x.m.w, w', act.a, p.Kept())
    ensures StopItem(p, m.w, x.m.w, w', x.acts, act) && OnlyItem(x.m.w, w', x.at)
  {
    hide Sofar, Shifted, TakenFrom, OnlyItem, Inv, ItemSofar, LocksTaken;
    StopKnown(p, m, x);
  }

  /** No item is changed except in these ways. */
  lemma ItemsPulled(p: Pull, m: Sys, trail: seq<Spot>, r: Outcome, m': Sys) returns (x: Spot)
    requires Inv(m) && LocksTaken(p, m) && Pulling(p, m, trail, r, m')
    ensures SameRest(m, m') && Sofar(p, m, x) && Ends(p, x, r)
    ensures forall b :: ItemPulled(p, m.w, x.m.w, m'.w, r, b)
  {
    hide Inv, Took, Ends, Sofar, ItemSofar, StopItem, Walk;
    x := WalkEnds(p, m, trail, r);
    RestSofar(p, m, x);
    if r.stop.Some? {
      var act := r.stop.value;
      StopKnown(p, m, x);
      SofarInv(p, m, x);
      StopChanges(p, x.m, act, r.m, m');
      StopItemIs(p, m, x, act, m'.w);
    }
    forall b ensures ItemPulled(p, m.w, x.m.w, m'.w, r, b) {
      SofarItem(p, m, x, b);
      if r.stop.Some? && b != x.at { ItemLater(p, m.w, x.m.w, m'.w, x.acts, b, x.at); }
    }
  }

  lemma RestSofar(p: Pull, m: Sys, x: Spot)
    requires Sofar(p, m, x)
    ensures SameRest(m, x.m) && p.Id() < |m.w.lists|
  {}

  lemma SofarInv(p: Pull, m: Sys, x: Spot)
    requires Sofar(p, m, x)
    ensures Inv(x.m)
  {}

  lemma SofarItem(p: Pull, m: Sys, x: Spot, b: Addr)
    requires Sofar(p, m, x)
    ensures ItemSofar(p, m.w, x.m.w, x.acts, b)
  {}

  lemma ItemLater(p: Pull, w0: World, w: World, w': World, acts: seq<Act>, b: Addr, a: Addr)
    requires ItemSofar(p, w0, w, acts, b) && OnlyItem(w, w', a) && b != a
    ensures ItemSofar(p, w0, w', acts, b)
  {
    assert SameItem(w, w', b);
  }

  /** The members that the stop takes off the list. */
  function Out(r: Outcome): set<Addr> {
    if r.stop.Some? && !r.stop.value.Stay? then {r.stop.value.a} else {}
  }

  /** What the call has made of list j: an item sent there is its new head; and of
  its own list: what was acted on has left its place, what was put back is at the
  head, and everything else, crawlers included, is in its old order. */
  ghost predicate ListPulled(p: Pull, lists0: Lists, lists: Lists, r: Outcome, j: nat) {
    && j < |lists0| == |lists|
    && lists[j] ==
         if j == p.Id() then Keep(Queued(Earlier(r)), Out(r)) + Keep(lists0[j], Acted(Earlier(r)) + Out(r))
         else (if r.stop.Some? && r.stop.value.Send? && r.stop.value.id == j then [r.stop.value.a] else []) + lists0[j]
  }

  lemma SofarList(p: Pull, list0: seq<Addr>, list: seq<Addr>, x: Spot)
    requires ListSofar(p, list0, list, x) && Distinct(list0)
    ensures list == Queued(x.acts) + Keep(list0, Acted(x.acts))
  {
    hide Queued, Acted, Place, Count, WalkedPast, Keep, Distinct;
    if x.n > 0 { NotActed(list0, x.n, x.acts); }
    FrontKept(list0, x.n, Acted(x.acts));
    Joined(Queued(x.acts), list0[..x.n], Keep(list0[x.n..], Acted(x.acts)));
  }

  lemma FrontKept(list0: seq<Addr>, n: nat, acted: set<Addr>)
    requires n <= |list0| && forall j :: 0 <= j < n ==> list0[j] !in acted
    ensures Keep(list0, acted) == list0[..n] + Keep(list0[n..], acted)
  {
    assert list0 == list0[..n] + list0[n..];
    KeepConcat(list0[..n], list0[n..], acted);
    KeepAll(list0[..n], acted);
  }

  lemma Joined(a: seq<Addr>, b: seq<Addr>, c: seq<Addr>)
    ensures a + b + c == a + (b + c)
  {}

  lemma OffSofar(q: seq<Addr>, list0: seq<Addr>, acted: set<Addr>, a: Addr, list: seq<Addr>)
    requires list == q + Keep(list0, acted) && Distinct(list) && a in list
    ensures Without(list, IndexOf(list, a)) == Keep(q, {a}) + Keep(list0, acted + {a})
  {
    KeepWithout(list, a);
    KeepConcat(q, Keep(list0, acted), {a});
    KeepTwice(list0, acted, {a});
  }

  lemma ListsPulled(p: Pull, m: Sys, trail: seq<Spot>, r: Outcome, m': Sys)
    requires Inv(m) && LocksTaken(p, m) && Pulling(p, m, trail, r, m')
    ensures forall j :: 0 <= j < CLASSES ==> ListPulled(p, m.w.lists, m'.w.lists, r, j)
  {
    hide Inv, Took, Ends, Sofar, Walk, Queued, Acted, Keep, Choose;
    var x := WalkEnds(p, m, trail, r);
    ListsSofar(p, m, x);
    var id := p.Id();
    var list0, list := m.w.lists[id], x.m.w.lists[id];
    if r.stop.Some? {
      StopListsPulled(p, m, x, r, m');
    } else {
      KeepAll(Queued(x.acts), {});
      assert Acted(x.acts) + {} == Acted(x.acts);
      forall j | 0 <= j < CLASSES ensures ListPulled(p, m.w.lists, m'.w.lists, r, j) {
        assert [] + m.w.lists[j] == m.w.lists[j];
      }
    }
  }

  /** And when the walk stopped at an item. */
  lemma StopListsPulled(p: Pull, m: Sys, x: Spot, r: Outcome, m': Sys)
    requires Inv(m) && LocksTaken(p, m) && p.Valid() && Sofar(p, m, x) && r.stop.Some? && Earlier(r) == x.acts
    requires x.at != NULL && !IsCrawler(x.at) && p.canLock(x.at) && r.stop.value.a == x.at && Locks(p, x)
    requires r.stop.value == Choose(x.m.w, p, x.at) && Stops(r.stop.value)
    requires Took(x.m, ActSteps(x.m.w, p, r.stop.value), r.m) && Took(r.m, FinishSteps(p, r.stop.value), m')
    requires p.Id() < CLASSES == |m.w.lists| && Distinct(m.w.lists[p.Id()])
    ensures forall j :: 0 <= j < CLASSES ==> ListPulled(p, m.w.lists, m'.w.lists, r, j)
  {
    hide Inv, Took, Ends, Sofar, Walk, Queued, Acted, Keep, Choose, Became, Freed, Without, IndexOf;
    var id := p.Id();
    var act := r.stop.value;
    ListsSofar(p, m, x);
    StopKnown(p, m, x);
    SofarInv(p, m, x);
    StopChanges(p, x.m, act, r.m, m');
    ListDistinct(x.m, id);
    AtPlace(p, m, x);
    OffSofar(Queued(x.acts), m.w.lists[id], Acted(x.acts), act.a, x.m.w.lists[id]);
    if act.Send? { ChooseTarget(x.m.w, p, act); }
    KeepAll(Queued(x.acts), {});
    assert Acted(x.acts) + {} == Acted(x.acts);
    forall j | 0 <= j < CLASSES ensures ListPulled(p, m.w.lists, m'.w.lists, r, j) {
      assert [] + m.w.lists[j] == m.w.lists[j];
    }
  }

  lemma ListsSofar(p: Pull, m: Sys, x: Spot)
    requires Sofar(p, m, x) && Distinct(m.w.lists[p.Id()])
    ensures |m.w.lists| == |x.m.w.lists| == CLASSES && p.Id() < CLASSES
    ensures x.m.w.lists[p.Id()] == Queued(x.acts) + Keep(m.w.lists[p.Id()], Acted(x.acts))
    ensures forall j :: 0 <= j < CLASSES && j != p.Id() ==> x.m.w.lists[j] == m.w.lists[j]
  {
    hide Inv, ListSofar;
    SofarList(p, m.w.lists[p.Id()], x.m.w.lists[p.Id()], x);
  }

  /** An item is sent to another segment of its slab class. */
  lemma ChooseTarget(w: World, p: Pull, act: Act)
    requires act.a in w.s.meta && w.s.Shaped() && p.Valid() && act == Choose(w, p, act.a) && act.Send?
    ensures act.id != p.Id() && act.id < CLASSES && SlabClass(act.id) == SlabClass(p.Id())
  {}

  /** The walk goes past it: a crawler that does not block, an item whose lock is
  taken, a dead one, or an active one in WARM. */
  predicate Passes(p: Pull, w: World, b: Addr) {
    if IsCrawler(b) then !p.crawlBlocks
    else b in w.s.meta ==> !p.canLock(b) || p.Dead(w, b) || (p.segment == WARM && w.s.meta[b].active)
  }

  /** The walk gets down to the first n members of the list: it goes past all the
  others, with a try left. */
  ghost predicate GetsTo(p: Pull, w: World, list: seq<Addr>, n: nat) {
    n <= |list| && (forall b :: b in list[n..] ==> Passes(p, w, b)) && Count(list[n..]) < 5
  }

  lemma PastPasses(p: Pull, m: Sys, x: Spot, b: Addr)
    requires Sofar(p, m, x) && b in m.w.lists[p.Id()][x.n..]
    ensures Passes(p, m.w, b) && (!IsCrawler(b) && p.canLock(b) ==> b in Acted(x.acts))
  {
    hide OkW;
    assert ItemSofar(p, m.w, x.m.w, x.acts, b);
    if b in Acted(x.acts) {
      var act :| act in x.acts && act.a == b;
      assert act == Reclaim(b) || act == Requeue(b);
    }
  }

  lemma GotTo(p: Pull, m: Sys, x: Spot)
    requires Sofar(p, m, x) && x.tries > 0
    ensures GetsTo(p, m.w, m.w.lists[p.Id()], x.n)
  {
    hide OkW;
    forall b | b in m.w.lists[p.Id()][x.n..] ensures Passes(p, m.w, b) { PastPasses(p, m, x, b); }
  }

  /** The walk does not end at a member that it goes past. */
  lemma DoesNotEnd(p: Pull, m: Sys, x: Spot, r: Outcome)
    requires Sofar(p, m, x) && x.n > 0 && x.tries > 0 && LocksTaken(p, m) && Distinct(m.w.lists[p.Id()])
    requires Passes(p, m.w, m.w.lists[p.Id()][x.n - 1])
    ensures !Ends(p, x, r)
  {
    hide Inv, ListSofar, ItemSofar, Took;
    Untouched(p, m, x);
    NotNull(p, m, x);
    AtPlace(p, m, x);
    if !IsCrawler(x.at) && p.canLock(x.at) { StopKnown(p, m, x); }
  }

  lemma NotNull(p: Pull, m: Sys, x: Spot)
    requires Sofar(p, m, x) && x.n > 0
    ensures x.at != NULL
  {
    hide OkW;
    ListNotNull(m, x, p);
  }

  lemma ListNotNull(m: Sys, x: Spot, p: Pull)
    requires Sofar(p, m, x) && x.n > 0
    ensures x.at in x.m.w.lists[p.Id()] && x.at != NULL
  {
    var id := p.Id();
    assert x.at in m.w.lists[id][..x.n];
    NullNotIn(x.m.w.s, x.m.w.lists, id);
  }

  /** It does end, or stay, at one that it does not go past. */
  lemma AdvancePasses(p: Pull, m: Sys, x: Spot, y: Spot)
    requires Sofar(p, m, x) && Advance(p, x, y) && LocksTaken(p, m) && Distinct(m.w.lists[p.Id()])
    ensures x.n > 0 && Passes(p, m.w, m.w.lists[p.Id()][x.n - 1])
  {
    hide Inv, ListSofar, ItemSofar, Took, Sofar, Before, Distinct, LocksTaken;
    AdvanceSofar(p, m, x, y);
    Untouched(p, m, x);
    AtPlace(p, m, x);
    if !IsCrawler(x.at) && p.canLock(x.at) { StopKnown(p, m, x); }
  }

  /** The walk gets at least as far down as it can, and no further. */
  lemma Reaches(p: Pull, m: Sys, trail: seq<Spot>, r: Outcome, n: nat)
    requires Inv(m) && LocksTaken(p, m) && p.Valid() && 0 < p.origId && Walk(p, m, trail, r)
    requires p.Id() < |m.w.lists| && 0 < n <= |m.w.lists[p.Id()]|
    ensures GetsTo(p, m.w, m.w.lists[p.Id()], n) ==> trail[|trail| - 1].n <= n
    ensures !Passes(p, m.w, m.w.lists[p.Id()][n - 1]) ==> n <= trail[|trail| - 1].n
  {
    hide Inv, Sofar, Ends, Advance, First, Took, Passes;
    var list0 := m.w.lists[p.Id()];
    var last := |trail| - 1;
    TrailSofar(p, m, trail, r, last);
    var x := trail[last];
    if GetsTo(p, m.w, list0, n) && x.n > n {
      assert list0[x.n - 1] in list0[n..];
      TriesLeft(p, m, x, n);
      DoesNotEnd(p, m, x, r);
    }
    if !Passes(p, m.w, list0[n - 1]) && x.n < n {
      var k := |list0| - n;
      TrailSofar(p, m, trail, r, k);
      assert trail[k + 1] == trail[k + 1] && Advance(p, trail[k], trail[k + 1]);
      AdvancePasses(p, m, trail[k], trail[k + 1]);
    }
  }

  lemma TriesLeft(p: Pull, m: Sys, x: Spot, n: nat)
    requires Sofar(p, m, x) && GetsTo(p, m.w, m.w.lists[p.Id()], n) && n <= x.n
    ensures x.tries > 0
  {
    hide Inv;
    var list0 := m.w.lists[p.Id()];
    assert list0[n..] == list0[n..x.n] + list0[x.n..];
    SumsConcat(map[], list0[n..x.n], list0[x.n..]);
    CountNat(list0[n..x.n]);
  }

  lemma CountNat(s: seq<Addr>)
    ensures Count(s) >= 0
  {}

  /** The list before the call tells whether a crawler makes the call return 0
  although something was reclaimed or put back: the flag is set, and the walk gets
  to a crawler past an item whose lock it gets. */
  ghost predicate HidesChange(p: Pull, w: World, list: seq<Addr>) {
    && p.crawlBlocks
    && exists n :: 0 < n <= |list| && IsCrawler(list[n - 1]) && GetsTo(p, w, list, n) && LocksOne(p, list, n)
  }

  ghost predicate LocksOne(p: Pull, list: seq<Addr>, n: nat)
    requires n <= |list|
  {
    exists b :: b in list[n..] && p.canLock(b)
  }

  lemma {:induction false} AllRemoved(acts: seq<Act>)
    requires forall act :: act in acts ==> !act.Stay?
    ensures Removed(acts) == |acts|
  {
    if acts != [] {
      assert acts[|acts| - 1] in acts;
      AllRemoved(acts[..|acts| - 1]);
    }
  }

  lemma ActsSofar(p: Pull, m: Sys, x: Spot)
    requires Sofar(p, m, x)
    ensures Removed(x.acts) == |x.acts| <= 5
    ensures x.acts != [] ==> LocksOne(p, m.w.lists[p.Id()], x.n)
  {
    hide OkW;
    AllRemoved(x.acts);
    if x.acts != [] {
      var act := x.acts[0];
      assert act in x.acts && (act == Reclaim(act.a) || act == Requeue(act.a));
      assert ItemSofar(p, m.w, x.m.w, x.acts, act.a);
      ActedHas(x.acts, act);
      assert act.a in m.w.lists[p.Id()][x.n..] && p.canLock(act.a);
    }
  }

  lemma LockedActs(p: Pull, m: Sys, x: Spot)
    requires Sofar(p, m, x) && p.crawlBlocks && LocksOne(p, m.w.lists[p.Id()], x.n)
    ensures x.acts != []
  {
    var b :| b in m.w.lists[p.Id()][x.n..] && p.canLock(b);
    PastPasses(p, m, x, b);
  }

  /** Where a walk ends that a crawler blocks. */
  lemma BlockedAt(p: Pull, m: Sys, x: Spot, r: Outcome)
    requires Sofar(p, m, x) && LocksTaken(p, m) && Ends(p, x, r) && r.blocked && Distinct(m.w.lists[p.Id()])
    ensures x.n > 0 && x.at == m.w.lists[p.Id()][x.n - 1] && IsCrawler(x.at) && x.tries > 0 && p.crawlBlocks
  {
    hide Inv, Took;
    if x.n == 0 { WrapStops(p, m, x); }
  }

  lemma HiddenChange(p: Pull, m: Sys, trail: seq<Spot>, r: Outcome, m': Sys)
    requires Inv(m) && LocksTaken(p, m) && Pulling(p, m, trail, r, m')
    ensures p.Id() < |m.w.lists|
    ensures Removed(r.acts) > 0 && Report(r) == 0 <==> HidesChange(p, m.w, m.w.lists[p.Id()])
  {
    hide Inv, Took, Advance, Sofar, Removed, Choose, GetsTo, LocksOne;
    var list0 := m.w.lists[p.Id()];
    var x := trail[|trail| - 1];
    TrailSofar(p, m, trail, r, |trail| - 1);
    ActsSofar(p, m, x);
    if HidesChange(p, m.w, list0) {
      var n :| 0 < n <= |list0| && IsCrawler(list0[n - 1]) && GetsTo(p, m.w, list0, n) && LocksOne(p, list0, n);
      Reaches(p, m, trail, r, n);
      TriesLeft(p, m, x, n);
      Untouched(p, m, x);
      NotNull(p, m, x);
      LockedActs(p, m, x);
    }
    if r.blocked && Removed(r.acts) > 0 {
      BlockedAt(p, m, x, r);
      GotTo(p, m, x);
      assert IsCrawler(list0[x.n - 1]);
    }
  }

  /** The item that the walk stops at is the first from the tail that it does not
  go past, all behind it being crawlers, locked, dead, or active in WARM; or it is
  one that the walk itself has put back at the head of WARM. */
  lemma StopChoice(p: Pull, m: Sys, trail: seq<Spot>, r: Outcome, m': Sys)
    requires Inv(m) && LocksTaken(p, m) && Pulling(p, m, trail, r, m') && r.stop.Some?
    ensures p.Id() < |m.w.lists|
    ensures (p.segment == WARM && Requeue(r.stop.value.a) in Earlier(r)) || (exists n ::
      0 < n <= |m.w.lists[p.Id()]| && m.w.lists[p.Id()][n - 1] == r.stop.value.a &&
          GetsTo(p, m.w, m.w.lists[p.Id()], n))
  {
    hide Inv, Took, Sofar, Choose, GetsTo, Walk, Ends, Distinct;
    var x := WalkEnds(p, m, trail, r);
    RestSofar(p, m, x);
    GotTo(p, m, x);
    AtPlace(p, m, x);
    if x.n > 0 { Untouched(p, m, x); } else { WrapStops(p, m, x); }
  }

  /** The list before the call tells whether the walk stops at an item: at the
  first that it does not go past, or, in WARM, at one that it has put back. */
  ghost predicate Finds(p: Pull, w: World, list: seq<Addr>) {
    || (exists n :: 0 < n <= |list| && !IsCrawler(list[n - 1]) && !Passes(p, w, list[n - 1]) && GetsTo(p, w, list, n))
    || Wraps(p, w, list)
  }

  ghost predicate Wraps(p: Pull, w: World, list: seq<Addr>) {
    p.segment == WARM && list != [] && GetsTo(p, w, list, 0) && exists b :: b in list[1..] && PutsBack(p, w, b)
  }

  predicate PutsBack(p: Pull, w: World, b: Addr) {
    !IsCrawler(b) && b in w.s.meta && p.canLock(b) && !p.Dead(w, b)
  }

  lemma StopsIff(p: Pull, m: Sys, trail: seq<Spot>, r: Outcome, m': Sys)
    requires Inv(m) && LocksTaken(p, m) && Pulling(p, m, trail, r, m')
    ensures p.Id() < |m.w.lists| && (r.stop.Some? <==> Finds(p, m.w, m.w.lists[p.Id()]))
  {
    hide Inv, Took, Sofar, Advance, Choose, GetsTo, Passes, PutsBack;
    var list0 := m.w.lists[p.Id()];
    var x := trail[|trail| - 1];
    TrailSofar(p, m, trail, r, |trail| - 1);
    if r.stop.Some? { StopFound(p, m, x, r); }
    if Finds(p, m.w, list0) {
      if Wraps(p, m.w, list0) {
        WrapStopped(p, m, x, r);
      } else {
        var n :| 0 < n <= |list0| && !IsCrawler(list0[n - 1]) && !Passes(p, m.w, list0[n - 1]) &&
            GetsTo(p, m.w, list0, n);
        Reaches(p, m, trail, r, n);
        TriesLeft(p, m, x, n);
        Untouched(p, m, x);
        NotNull(p, m, x);
      }
    }
  }

  lemma StopFound(p: Pull, m: Sys, x: Spot, r: Outcome)
    requires Sofar(p, m, x) && LocksTaken(p, m) && Ends(p, x, r) && r.stop.Some? && Distinct(m.w.lists[p.Id()])
    ensures Finds(p, m.w, m.w.lists[p.Id()])
  {
    hide Inv, Took, Sofar, Choose, GetsTo, Passes, PutsBack, Distinct;
    RestSofar(p, m, x);
    var list0 := m.w.lists[p.Id()];
    GotTo(p, m, x);
    AtPlace(p, m, x);
    if x.n > 0 {
      Untouched(p, m, x);
      if Passes(p, m.w, list0[x.n - 1]) { DoesNotEnd(p, m, x, r); }
    } else {
      WrapStops(p, m, x);
      WrapPlace(p, m, x);
    }
  }

  /** Past the head the walk is at an item of the rest of the list, put back. */
  lemma WrapPlace(p: Pull, m: Sys, x: Spot)
    requires Sofar(p, m, x) && x.n == 0 && Distinct(m.w.lists[p.Id()])
    ensures x.at != NULL ==>
      m.w.lists[p.Id()] != [] && x.at in m.w.lists[p.Id()][1..] && PutsBack(p, m.w, x.at)
    ensures m.w.lists[p.Id()] != [] && (exists b :: b in m.w.lists[p.Id()][1..] && PutsBack(p, m.w, b)) ==> x.at != NULL
  {
    hide OkW;
    var list0 := m.w.lists[p.Id()];
    assert list0[0..] == list0;
    if list0 != [] {
      var rest := Keep(Queued(x.acts), {list0[0]});
      LastIn(rest);
      if x.at != NULL {
        QueuedActs(x.acts, x.at);
        ActedHas(x.acts, Requeue(x.at));
        assert ItemSofar(p, m.w, x.m.w, x.acts, x.at);
        InTail(list0, x.at);
      }
      if b :| b in list0[1..] && PutsBack(p, m.w, b) {
        PutBack(p, m, x, b);
        MembersNotNull(p, m, x);
      }
    }
  }

  lemma LastIn(s: seq<Addr>)
    ensures s != [] ==> Last(s) in s
    ensures forall b :: b in s ==> s != []
  {}

  lemma InTail(list: seq<Addr>, a: Addr)
    requires a in list && a != list[0]
    ensures a in list[1..]
  {
    assert list == [list[0]] + list[1..];
  }

  lemma PutBack(p: Pull, m: Sys, x: Spot, b: Addr)
    requires Sofar(p, m, x) && x.n == 0 && Distinct(m.w.lists[p.Id()])
    requires m.w.lists[p.Id()] != [] && b in m.w.lists[p.Id()][1..] && PutsBack(p, m.w, b)
    ensures b in Keep(Queued(x.acts), {m.w.lists[p.Id()][0]})
  {
    hide OkW;
    var list0 := m.w.lists[p.Id()];
    assert list0[0..] == list0;
    PastPasses(p, m, x, b);
    var act :| act in x.acts && act.a == b;
    assert act == Reclaim(b) || act == Requeue(b);
    assert ItemSofar(p, m.w, x.m.w, x.acts, b);
    QueuedActs(x.acts, b);
  }

  lemma MembersNotNull(p: Pull, m: Sys, x: Spot)
    requires Sofar(p, m, x)
    ensures forall b :: b in Queued(x.acts) ==> b != NULL
  {
    forall b | b in Queued(x.acts) ensures b != NULL {
      QueuedActs(x.acts, b);
      assert ItemSofar(p, m.w, x.m.w, x.acts, b);
      OwnerKnown(x.m.w, b, Odd(x.m.busy));
    }
  }

  lemma WrapStopped(p: Pull, m: Sys, x: Spot, r: Outcome)
    requires Sofar(p, m, x) && LocksTaken(p, m) && Ends(p, x, r) && Wraps(p, m.w, m.w.lists[p.Id()])
    requires Distinct(m.w.lists[p.Id()])
    ensures r.stop.Some?
  {
    hide Inv, Took, Sofar, Choose, Passes, PutsBack, Distinct;
    RestSofar(p, m, x);
    var list0 := m.w.lists[p.Id()];
    assert list0[0..] == list0;
    TriesLeft(p, m, x, 0);
    if x.n > 0 {
      Untouched(p, m, x);
      assert list0[x.n - 1] in list0;
      DoesNotEnd(p, m, x, r);
    } else {
      WrapPlace(p, m, x);
      WrapStops(p, m, x);
    }
  }

  /** What the call counts: every item reclaimed, put back, sent or evicted, each
  once, except that one put back may be sent as well; five at most. */
  lemma CountsRemoved(p: Pull, m: Sys, trail: seq<Spot>, r: Outcome)
    requires Inv(m) && LocksTaken(p, m) && p.Valid() && 0 < p.origId && Walk(p, m, trail, r)
    ensures Removed(r.acts) == |Acted(Earlier(r))| + (if r.stop.Some? && !r.stop.value.Stay? then 1 else 0) <= 5
    ensures forall act :: act in Earlier(r) ==> act.Reclaim? || act.Requeue?
  {
    hide Inv, Took, Sofar, Walk, Ends, Removed, Acted, Locks, LocksOne, LocksTaken, Choose;
    var x := WalkEnds(p, m, trail, r);
    EndsWithStop(p, x, r);
    EarlierActs(p, m, x);
    ActsSofar(p, m, x);
    if r.stop.Some? { RemovedSnoc(x.acts, r.stop.value); }
  }

  lemma EndsWithStop(p: Pull, x: Spot, r: Outcome)
    requires Ends(p, x, r)
    ensures r.stop.Some? ==> r.acts == x.acts + [r.stop.value] && x.tries > 0
  {
    hide Took, Choose;
  }

  lemma EarlierActs(p: Pull, m: Sys, x: Spot)
    requires Sofar(p, m, x)
    ensures |x.acts| + x.tries <= 5 && |Acted(x.acts)| == |x.acts|
    ensures forall act :: act in x.acts ==> act.Reclaim? || act.Requeue?
  {
    hide Inv;
  }

  /** Somebody's count is one too high: the reference of the walk was neither
  given back nor handed out. */
  ghost predicate Leaks(p: Pull, w: World, w': World, r: Outcome) {
    exists b :: b in w.held && b in w'.held && w'.held[b] > w.held[b] && b != Returned(p, r)
  }

  /** LRU_PULL_RETURN_ITEM outside COLD, or together with LRU_PULL_EVICT, leaks
  exactly when the walk stops at an item, which the list before the call tells;
  without that combination nothing is ever leaked. */
  lemma LeakIff(p: Pull, m: Sys, trail: seq<Spot>, r: Outcome, m': Sys)
    requires Inv(m) && LocksTaken(p, m) && Pulling(p, m, trail, r, m')
    ensures p.Id() < |m.w.lists|
    ensures Leaks(p, m.w, m'.w, r) <==>
      p.returnItem && (p.segment != COLD || p.evict) && Finds(p, m.w, m.w.lists[p.Id()])
  {
    hide Inv, Took, Sofar, Ends, Walk, Choose, Finds;
    StopsIff(p, m, trail, r, m');
    var x := ItemsPulled(p, m, trail, r, m');
    if Leaks(p, m.w, m'.w, r) {
      var b :| b in m.w.held && b in m'.w.held && m'.w.held[b] > m.w.held[b] && b != Returned(p, r);
      assert ItemPulled(p, m.w, x.m.w, m'.w, r, b);
    }
    if p.returnItem && (p.segment != COLD || p.evict) && r.stop.Some? {
      var b := r.stop.value.a;
      assert ItemPulled(p, m.w, x.m.w, m'.w, r, b);
      StopNotNull(p, m, trail, r);
    }
  }

  lemma StopNotNull(p: Pull, m: Sys, trail: seq<Spot>, r: Outcome)
    requires Walk(p, m, trail, r) && r.stop.Some?
    ensures r.stop.value.a != NULL
  {
    hide Took, Advance;
  }
}

/** Memory, the class lists it spells out, and who holds which item: the
primitive changes of items.c, and that each keeps all of it in order. */
module LruWorld {
  import opened Basics
  import opened LruList
  import opened LruState

  const HOT: nat := 0
  const WARM: nat := 64
  const COLD: nat := 128
  const TEMP: nat := 192

  /** ITEM_clsid: the slab class without its segment. */
  function SlabClass(id: nat): nat { id % 64 }

  /** ITEM_lruid. */
  function Segment(id: nat): nat { id - id % 64 }

  datatype World = World(s: State, lists: Lists, held: map<Addr, nat>)

  /** Everything in order, with the items of `transit` in transit. */
  ghost predicate OkW(w: World, transit: set<Addr>) { Ok(w.s, w.lists, w.held, transit) }

  function Flip(transit: set<Addr>, a: Addr): set<Addr> {
    if a in transit then transit - {a} else transit + {a}
  }

  /** No items and empty lists. */
  function Empty(): World {
    var nulls := seq(CLASSES, _ => NULL);
    var zeros := seq(CLASSES, _ => 0);
    World(State(map[], map[], map[], map[], map[], nulls, nulls, zeros, zeros), seq(CLASSES, _ => []), map[])
  }

  /** do_item_alloc: an address that is not in use becomes an unlinked item with
  one holder. What the memory held before stays in `time`. */
  function NewItem(w: World, a: Addr, id: nat, ntotal: nat, exptime: int, time: int): World {
    w.(s := w.s.(next := w.s.next[a := NULL], prev := w.s.prev[a := NULL], clsid := w.s.clsid[a := id],
                 ntotal := w.s.ntotal[a := ntotal], meta := w.s.meta[a := Meta(1, false, false, false, time, exptime)]),
       held := w.held[a := 1])
  }

  /** refcount_incr by a new holder. */
  function Hold(w: World, a: Addr): World
    requires a in w.s.meta && a in w.held
  {
    var m := w.s.meta[a];
    w.(s := w.s.(meta := w.s.meta[a := m.(refcount := m.refcount + 1)]), held := w.held[a := w.held[a] + 1])
  }

  /** do_item_remove by a holder: at count 0 the item is freed. */
  function Drop(w: World, a: Addr): World
    requires a in w.s.meta && a in w.held && w.held[a] > 0 && w.s.meta[a].refcount > 0
  {
    var m := w.s.meta[a];
    if m.refcount == 1 then w.(s := w.s.(meta := w.s.meta - {a}), held := w.held - {a})
    else w.(s := w.s.(meta := w.s.meta[a := m.(refcount := m.refcount - 1)]), held := w.held[a := w.held[a] - 1])
  }

  /** A change of flags and times that is none of the lists' business. */
  function Touch(w: World, a: Addr, active: bool, fetched: bool, time: int): World
    requires a in w.s.meta
  {
    w.(s := w.s.(meta := w.s.meta[a := w.s.meta[a].(active := active, fetched := fetched, time := time)]))
  }

  /** it_flags |= ITEM_LINKED: from here on the caller's reference stands for
  the list's, until that one is counted too. */
  function SetLinked(w: World, a: Addr, now: int): World
    requires a in w.s.meta && a in w.held && w.held[a] > 0
  {
    w.(s := w.s.(meta := w.s.meta[a := w.s.meta[a].(linked := true, time := now)]), held := w.held[a := w.held[a] - 1])
  }

  /** it_flags &= ~ITEM_LINKED: the list's reference passes to the caller, who
  is going to drop it. */
  function ClearLinked(w: World, a: Addr): World
    requires a in w.s.meta && a in w.held
  {
    w.(s := w.s.(meta := w.s.meta[a := w.s.meta[a].(linked := false)]), held := w.held[a := w.held[a] + 1])
  }

  /** What do_item_unlink_q asserts. */
  predicate CanDetach(w: World, a: Addr) {
    && w.s.Shaped() && |w.lists| == CLASSES && InList(w.s, w.lists, a) && !IsCrawler(a) && a in w.s.ntotal &&
        a in w.s.clsid
    && UnlinkAsserts(w.s.At(w.s.Owner(a)), a)
  }

  /** do_item_unlink_q. */
  function Detach(w: World, a: Addr): World
    requires CanDetach(w, a)
  {
    var id := w.s.Owner(a);
    w.(s := UnlinkQ(w.s, a), lists := w.lists[id := Without(w.lists[id], IndexOf(w.lists[id], a))])
  }

  /** What do_item_link_q asserts. */
  predicate CanAttach(w: World, a: Addr) {
    && w.s.Shaped() && |w.lists| == CLASSES && w.s.Owner(a) < CLASSES && !IsCrawler(a) && a in w.s.ntotal &&
        a in w.s.clsid
    && LinkAsserts(w.s.At(w.s.Owner(a)), a)
  }

  /** do_item_link_q. */
  function Attach(w: World, a: Addr): World
    requires CanAttach(w, a)
  {
    var id := w.s.Owner(a);
    w.(s := LinkQ(w.s, a), lists := w.lists[id := [a] + w.lists[id]])
  }

  /** slabs_clsid = id, and ITEM_ACTIVE set or cleared. */
  function Reclass(w: World, a: Addr, id: nat, active: bool): World
    requires a in w.s.meta
  {
    w.(s := w.s.(clsid := w.s.clsid[a := id], meta := w.s.meta[a := w.s.meta[a].(active := active)]))
  }

  /** Changing one item's record, with consistent counts, keeps everything. */
  lemma RecordOk(w: World, a: Addr, m: Meta, h: nat, transit: set<Addr>, transit': set<Addr>)
    requires OkW(w, transit) && a in w.s.meta
    requires m.refcount == h + (if m.linked then 1 else 0) && m.refcount > 0
    requires (m.linked != (a in transit')) == (w.s.meta[a].linked != (a in transit))
    requires forall b :: b != a ==> (b in transit <==> b in transit')
    ensures OkW(World(w.s.(meta := w.s.meta[a := m]), w.lists, w.held[a := h]), transit')
  {
    hide ListsOk, InList, FlagOk, RefOk;
    var meta' := w.s.meta[a := m];
    var s' := w.s.(meta := meta');
    MetaOnly(w.s, w.lists, meta');
    assert w.held[a := h].Keys == meta'.Keys;
    forall b | b in meta' ensures FlagOk(s', w.lists, transit', b) && RefOk(s', w.held[a := h], b) {
      assert FlagOk(w.s, w.lists, transit, b) && RefOk(w.s, w.held, b);
      FlagRecord(w.s, w.lists, meta', transit, transit', b);
      RefRecord(w.s, w.held, a, m, h, b);
    }
    forall id | 0 <= id < |w.lists| ensures Known(s', w.lists[id]) {
      assert Known(w.s, w.lists[id]);
    }
  }

  lemma RefRecord(s: State, held: map<Addr, nat>, a: Addr, m: Meta, h: nat, b: Addr)
    requires b in s.meta && b in held && RefOk(s, held, b) && m.refcount == h + (if m.linked then 1 else 0)
    requires m.refcount > 0
    ensures RefOk(s.(meta := s.meta[a := m]), held[a := h], b)
  {}

  lemma FlagRecord(s: State, lists: Lists, meta': map<Addr, Meta>, transit: set<Addr>, transit': set<Addr>, b: Addr)
    requires b in s.meta && b in meta' && FlagOk(s, lists, transit, b)
    requires InList(s.(meta := meta'), lists, b) <==> InList(s, lists, b)
    requires (meta'[b].linked != (b in transit')) == (s.meta[b].linked != (b in transit))
    ensures FlagOk(s.(meta := meta'), lists, transit', b)
  {
    hide InList;
  }

  lemma RefKnown(w: World, a: Addr, transit: set<Addr>)
    requires OkW(w, transit) && a in w.s.meta
    ensures a in w.held && w.s.meta[a].refcount > 0
    ensures w.s.meta[a].refcount == w.held[a] + (if w.s.meta[a].linked then 1 else 0)
  {
    hide ListsOk, FlagsOk;
    assert RefOk(w.s, w.held, a);
  }

  lemma OwnerKnown(w: World, a: Addr, transit: set<Addr>)
    requires OkW(w, transit) && a in w.s.meta
    ensures a in w.s.clsid && w.s.Owner(a) == w.s.clsid[a] < CLASSES && !IsCrawler(a) && a != NULL && a in w.s.ntotal
    ensures w.s.Shaped() && |w.lists| == CLASSES
    ensures a in w.lists[w.s.Owner(a)] <==> w.s.meta[a].linked != (a in transit)
  {
    assert FlagOk(w.s, w.lists, transit, a);
  }

  lemma HoldOk(w: World, a: Addr, transit: set<Addr>)
    requires OkW(w, transit) && a in w.s.meta
    ensures a in w.held && OkW(Hold(w, a), transit)
  {
    RefKnown(w, a, transit);
    hide ListsOk, FlagsOk;
    var m := w.s.meta[a];
    RecordOk(w, a, m.(refcount := m.refcount + 1), w.held[a] + 1, transit, transit);
  }

  lemma TouchOk(w: World, a: Addr, active: bool, fetched: bool, time: int, transit: set<Addr>)
    requires OkW(w, transit) && a in w.s.meta
    ensures OkW(Touch(w, a, active, fetched, time), transit)
  {
    RefKnown(w, a, transit);
    hide ListsOk, FlagsOk;
    RecordOk(w, a, w.s.meta[a].(active := active, fetched := fetched, time := time), w.held[a], transit, transit);
    assert w.held[a := w.held[a]] == w.held;
  }

  lemma SetLinkedOk(w: World, a: Addr, now: int, transit: set<Addr>)
    requires OkW(w, transit) && a in w.s.meta && !w.s.meta[a].linked && a !in transit
    ensures a in w.held && w.held[a] > 0 && OkW(SetLinked(w, a, now), transit + {a})
  {
    RefKnown(w, a, transit);
    hide ListsOk, FlagsOk;
    RecordOk(w, a, w.s.meta[a].(linked := true, time := now), w.held[a] - 1, transit, transit + {a});
  }

  lemma ClearLinkedOk(w: World, a: Addr, transit: set<Addr>)
    requires OkW(w, transit) && a in w.s.meta && w.s.meta[a].linked && a !in transit
    ensures a in w.held && OkW(ClearLinked(w, a), transit + {a})
  {
    RefKnown(w, a, transit);
    hide ListsOk, FlagsOk;
    RecordOk(w, a, w.s.meta[a].(linked := false), w.held[a] + 1, transit, transit + {a});
  }

  /** An item is freed only when nobody holds it and it is in no list, so the
  assertions of item_free hold. */
  lemma DropOk(w: World, a: Addr, transit: set<Addr>)
    requires OkW(w, transit) && a in w.s.meta && a in w.held && w.held[a] > 0 && a !in transit
    ensures w.s.meta[a].refcount > 0 && OkW(Drop(w, a), transit)
    ensures a !in Drop(w, a).s.meta <==> !w.s.meta[a].linked && w.held[a] == 1
    ensures a !in Drop(w, a).s.meta ==>
      !InList(w.s, w.lists, a) && a != w.s.heads[w.s.clsid[a]] && a != w.s.tails[w.s.clsid[a]]
  {
    hide ListsOk, FlagsOk, OkW;
    RefKnown(w, a, transit);
    var m := w.s.meta[a];
    if m.refcount == 1 {
      LastRef(w, a, transit);
      FreeOk(w, a, transit);
    } else {
      RecordOk(w, a, m.(refcount := m.refcount - 1), w.held[a] - 1, transit, transit);
    }
  }

  lemma LastRef(w: World, a: Addr, transit: set<Addr>)
    requires OkW(w, transit) && a in w.s.meta && !w.s.meta[a].linked && a !in transit
    ensures !InList(w.s, w.lists, a) && a != w.s.heads[w.s.clsid[a]] && a != w.s.tails[w.s.clsid[a]]
    ensures forall id :: 0 <= id < CLASSES ==> a !in w.lists[id]
  {
    assert FlagOk(w.s, w.lists, transit, a);
    NotAtEnds(w.s, w.lists, a);
    NowhereElse(w.s, w.lists, a);
  }

  lemma FreeOk(w: World, a: Addr, transit: set<Addr>)
    requires OkW(w, transit) && forall id :: 0 <= id < CLASSES ==> a !in w.lists[id]
    ensures OkW(World(w.s.(meta := w.s.meta - {a}), w.lists, w.held - {a}), transit)
  {
    var meta' := w.s.meta - {a};
    var s' := w.s.(meta := meta');
    MetaOnly(w.s, w.lists, meta');
    hide ListsOk, InList;
    forall b | b in meta' ensures FlagOk(s', w.lists, transit, b) && RefOk(s', w.held - {a}, b) {
      assert FlagOk(w.s, w.lists, transit, b) && RefOk(w.s, w.held, b);
    }
    forall id | 0 <= id < |w.lists| ensures Known(s', w.lists[id]) {
      assert Known(w.s, w.lists[id]);
    }
  }

  lemma CanDetachOk(w: World, a: Addr, transit: set<Addr>)
    requires OkW(w, transit) && a in w.s.meta && w.s.meta[a].linked != (a in transit)
    ensures CanDetach(w, a)
  {
    OwnerKnown(w, a, transit);
    var id := w.s.Owner(a);
    assert ListOk(w.s, w.lists, id);
    UnlinkAssertsHold(w.s.At(id), w.lists[id], IndexOf(w.lists[id], a));
  }

  lemma DetachOk(w: World, a: Addr, transit: set<Addr>)
    requires OkW(w, transit) && a in w.s.meta && w.s.meta[a].linked != (a in transit)
    ensures CanDetach(w, a) && OkW(Detach(w, a), Flip(transit, a))
  {
    hide ListsOk, InList;
    CanDetachOk(w, a, transit);
    OwnerKnown(w, a, transit);
    var id := w.s.Owner(a);
    var i := IndexOf(w.lists[id], a);
    UnlinkQOk(w.s, w.lists, a, i);
    DetachedIn(w, a);
    var w' := Detach(w, a);
    forall b | b in w'.s.meta ensures FlagOk(w'.s, w'.lists, Flip(transit, a), b) && RefOk(w'.s, w'.held, b) {
      assert FlagOk(w.s, w.lists, transit, b) && RefOk(w.s, w.held, b);
    }
    forall j | 0 <= j < |w'.lists| ensures Known(w'.s, w'.lists[j]) {
      assert Known(w.s, w.lists[j]);
    }
  }

  /** After the unlink the item is in no list of its class, and the others are
  where they were. */
  lemma DetachedIn(w: World, a: Addr)
    requires ListsOk(w.s, w.lists) && CanDetach(w, a)
    ensures var w' := Detach(w, a);
      && !InList(w'.s, w'.lists, a) && (forall b :: w'.s.Owner(b) == w.s.Owner(b))
      && (forall b :: b != a ==> (InList(w'.s, w'.lists, b) <==> InList(w.s, w.lists, b)))
      && (forall j, b :: 0 <= j < |w'.lists| && b in w'.lists[j] ==> j < |w.lists| && b in w.lists[j])
  {
    var id := w.s.Owner(a);
    assert ListOk(w.s, w.lists, id);
    WithoutMembers(w.lists[id], IndexOf(w.lists[id], a));
  }

  lemma CanAttachOk(w: World, a: Addr, transit: set<Addr>)
    requires OkW(w, transit) && a in w.s.meta && w.s.meta[a].linked == (a in transit)
    ensures CanAttach(w, a)
  {
    OwnerKnown(w, a, transit);
    var id := w.s.Owner(a);
    assert ListOk(w.s, w.lists, id);
    LinkAssertsHold(w.s.At(id), w.lists[id], a);
  }

  lemma NotInYet(w: World, a: Addr)
    requires w.s.Owner(a) < |w.lists|
    ensures InList(w.s, w.lists, a) <==> a in w.lists[w.s.Owner(a)]
  {}

  /** After the link the item is in the list of its class, and the others are where
  they were. */
  lemma AttachedIn(w: World, a: Addr)
    requires CanAttach(w, a)
    ensures var w' := Attach(w, a);
      && InList(w'.s, w'.lists, a) && (forall b :: w'.s.Owner(b) == w.s.Owner(b))
      && (forall b :: b != a ==> (InList(w'.s, w'.lists, b) <==> InList(w.s, w.lists, b)))
      && (forall j, b :: 0 <= j < |w'.lists| && b in w'.lists[j] ==> b == a || b in w.lists[j])
  {
    var id := w.s.Owner(a);
    var list := [a] + w.lists[id];
    assert list[0] == a;
    forall b | b in w.lists[id] ensures b in list {
      assert list[IndexOf(w.lists[id], b) + 1] == b;
    }
  }

  lemma AttachOk(w: World, a: Addr, transit: set<Addr>)
    requires OkW(w, transit) && a in w.s.meta && w.s.meta[a].linked == (a in transit)
    ensures CanAttach(w, a) && OkW(Attach(w, a), Flip(transit, a))
  {
    hide ListsOk, InList, LinkAsserts;
    CanAttachOk(w, a, transit);
    OwnerKnown(w, a, transit);
    NotInYet(w, a);
    LinkQOk(w.s, w.lists, a);
    AttachedIn(w, a);
    var w' := Attach(w, a);
    forall b | b in w'.s.meta ensures FlagOk(w'.s, w'.lists, Flip(transit, a), b) && RefOk(w'.s, w'.held, b) {
      assert FlagOk(w.s, w.lists, transit, b) && RefOk(w.s, w.held, b);
    }
    forall j | 0 <= j < |w'.lists| ensures Known(w'.s, w'.lists[j]) {
      assert Known(w.s, w.lists[j]);
    }
  }

  lemma ReclassKeeps(w: World, a: Addr, id: nat, active: bool, transit: set<Addr>)
    requires OkW(w, transit) && a in w.s.meta && w.s.meta[a].linked == (a in transit) && id < CLASSES
    ensures OkW(Reclass(w, a, id, active), transit) && Reclass(w, a, id, active).s.Owner(a) == id
  {
    OwnerKnown(w, a, transit);
    ReclassOk(w.s, w.lists, a, id);
    var w1 := w.(s := w.s.(clsid := w.s.clsid[a := id]));
    ReclassFlags(w, a, id, transit);
    TouchOk(w1, a, active, w.s.meta[a].fetched, w.s.meta[a].time, transit);
  }

  lemma ReclassFlags(w: World, a: Addr, id: nat, transit: set<Addr>)
    requires OkW(w, transit) && a in w.s.meta && id < CLASSES && !InList(w.s, w.lists, a)
    requires ListsOk(w.s.(clsid := w.s.clsid[a := id]), w.lists)
    requires !InList(w.s.(clsid := w.s.clsid[a := id]), w.lists, a)
    requires forall b :: b != a ==> (InList(w.s.(clsid := w.s.clsid[a := id]), w.lists, b) <==> InList(w.s, w.lists, b))
    ensures OkW(w.(s := w.s.(clsid := w.s.clsid[a := id])), transit)
  {
    var s' := w.s.(clsid := w.s.clsid[a := id]);
    hide ListsOk, InList;
    forall b | b in s'.meta ensures FlagOk(s', w.lists, transit, b) && RefOk(s', w.held, b) {
      assert FlagOk(w.s, w.lists, transit, b) && RefOk(w.s, w.held, b);
    }
    forall j | 0 <= j < |w.lists| ensures Known(s', w.lists[j]) {
      assert Known(w.s, w.lists[j]);
    }
  }

  lemma EmptyOk()
    ensures OkW(Empty(), {})
  {
    var w := Empty();
    forall id | 0 <= id < CLASSES ensures ListOk(w.s, w.lists, id) {}
  }

  lemma NewItemOk(w: World, a: Addr, id: nat, ntotal: nat, exptime: int, time: int, transit: set<Addr>)
    requires OkW(w, transit) && a != NULL && !IsCrawler(a) && a !in w.s.meta && a !in transit && id < CLASSES
    ensures OkW(NewItem(w, a, id, ntotal, exptime, time), transit)
  {
    var w' := NewItem(w, a, id, ntotal, exptime, time);
    NewItemLists(w, a, id, ntotal, exptime, time, transit);
    hide ListsOk;
    forall b | b in w'.s.meta ensures FlagOk(w'.s, w'.lists, transit, b) && RefOk(w'.s, w'.held, b) {
      if b != a { assert FlagOk(w.s, w.lists, transit, b) && RefOk(w.s, w.held, b); }
    }
    forall j | 0 <= j < |w'.lists| ensures Known(w'.s, w'.lists[j]) {
      assert Known(w.s, w.lists[j]);
    }
  }

  lemma NewItemLists(w: World, a: Addr, id: nat, ntotal: nat, exptime: int, time: int, transit: set<Addr>)
    requires OkW(w, transit) && a != NULL && !IsCrawler(a) && a !in w.s.meta && id < CLASSES
    ensures ListsOk(NewItem(w, a, id, ntotal, exptime, time).s, w.lists)
    ensures forall j :: 0 <= j < CLASSES ==> a !in w.lists[j]
  {
    hide RefsOk, FlagOk;
    var w' := NewItem(w, a, id, ntotal, exptime, time);
    forall j | 0 <= j < CLASSES ensures ListOk(w'.s, w.lists, j) && a !in w.lists[j] {
      assert ListOk(w.s, w.lists, j) && Known(w.s, w.lists[j]);
      DllFrame(w.s.At(j), w'.s.At(j), w.lists[j]);
      BytesFrame(w.s.ntotal, w'.s.ntotal, w.lists[j]);
      assert forall b :: b in w.lists[j] ==> w'.s.Owner(b) == w.s.Owner(b);
    }
  }

  lemma {:induction false} BytesFrame(n: map<Addr, nat>, n': map<Addr, nat>, list: seq<Addr>)
    requires forall b :: b in list ==> (b in n <==> b in n') && (b in n ==> n'[b] == n[b])
    ensures Bytes(n', list) == Bytes(n, list)
  {
    if list != [] { BytesFrame(n, n', list[1..]); }
  }

  /** Only the record of item a differs. */
  ghost predicate OnlyItem(w: World, w': World, a: Addr) {
    forall b :: b != a ==> SameItem(w, w', b)
  }

  ghost predicate SameItem(w: World, w': World, b: Addr) {
    && (b in w.s.meta <==> b in w'.s.meta)
    && (b in w.s.meta ==> w'.s.meta[b] == w.s.meta[b] && w'.s.Owner(b) == w.s.Owner(b))
    && (b in w.held <==> b in w'.held) && (b in w.held ==> w'.held[b] == w.held[b])
  }

  lemma DetachFacts(w: World, a: Addr)
    requires CanDetach(w, a)
    ensures var w' := Detach(w, a); var id := w.s.Owner(a);
      && OnlyItem(w, w', a) && w'.s.meta == w.s.meta && w'.held == w.held && w'.s.clsid == w.s.clsid
      && w'.s.ntotal == w.s.ntotal && id < |w.lists| && a in w.lists[id]
      && w'.lists == w.lists[id := Without(w.lists[id], IndexOf(w.lists[id], a))]
  {}

  lemma AttachFacts(w: World, a: Addr)
    requires CanAttach(w, a)
    ensures var w' := Attach(w, a); var id := w.s.Owner(a);
      && OnlyItem(w, w', a) && w'.s.meta == w.s.meta && w'.held == w.held && w'.s.clsid == w.s.clsid
      && w'.s.ntotal == w.s.ntotal && id < |w.lists| && w'.lists == w.lists[id := [a] + w.lists[id]]
  {}

  lemma OnlyItemTrans(w: World, w1: World, w2: World, a: Addr)
    requires OnlyItem(w, w1, a) && OnlyItem(w1, w2, a)
    ensures OnlyItem(w, w2, a)
  {
    forall b | b != a ensures SameItem(w, w2, b) {
      assert SameItem(w, w1, b) && SameItem(w1, w2, b);
    }
  }

  /** Where a list starts from the tail, and what comes before a member of it. */
  lemma TailAndBefore(w: World, id: nat, transit: set<Addr>)
    requires OkW(w, transit) && id < CLASSES
    ensures w.s.Shaped() && |w.lists| == CLASSES && Distinct(w.lists[id])
    ensures w.s.tails[id] == if w.lists[id] == [] then NULL else w.lists[id][|w.lists[id]| - 1]
    ensures forall a :: a in w.lists[id] ==> a in w.s.prev && a != NULL && w.s.prev[a] == Before(w.lists[id], a)
  {
    assert ListOk(w.s, w.lists, id);
    var list := w.lists[id];
    forall a | a in list ensures a in w.s.prev && a != NULL && w.s.prev[a] == Before(list, a) {
      assert Node(w.s.At(id), list, IndexOf(list, a));
    }
  }

  /** What precedes a member of a list, or NULL. */
  function Before(list: seq<Addr>, a: Addr): Addr {
    var i := IndexOf(list, a);
    if 0 < i < |list| then list[i - 1] else NULL
  }

  /** A list holds its crawler and items of its class, and nothing else. */
  lemma MemberKnown(w: World, id: nat, a: Addr, transit: set<Addr>)
    requires OkW(w, transit) && id < CLASSES && |w.lists| == CLASSES && a in w.lists[id]
    ensures w.s.Owner(a) == id && a != NULL
    ensures !IsCrawler(a) ==> a in w.s.meta && (w.s.meta[a].linked <==> a !in transit)
  {
    assert ListOk(w.s, w.lists, id) && Known(w.s, w.lists[id]);
    NullNotIn(w.s, w.lists, id);
    if !IsCrawler(a) { assert FlagOk(w.s, w.lists, transit, a); }
  }
}

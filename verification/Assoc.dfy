/** assoc.c in its own form: tables of chain heads, items linked through their
h_next fields, and a migration cursor, all updated step by step.

Items are named by their address; address 0 is NULL. The h_next and key fields
of all items are maps from addresses, which the operations reassign. */
module Assoc {
  import opened Basics
  import opened HashTable

  type Links = map<Addr, Addr>

  function HeadId(s: seq<Entry>): Addr { if s == [] then NULL else s[0].id }

  /** The links from head spell out exactly the items of s. */
  ghost predicate Linked(keys: map<Addr, string>, next: Links, head: Addr, s: seq<Entry>) {
    head == HeadId(s) && forall i :: 0 <= i < |s| ==> Node(keys, next, s, i)
  }

  ghost predicate Node(keys: map<Addr, string>, next: Links, s: seq<Entry>, i: nat)
    requires i < |s|
  {
    var a := s[i].id;
    a != NULL && a in keys && keys[a] == s[i].key && a in next && next[a] == HeadId(s[i + 1..])
  }

  ghost predicate Avoids(s: seq<Entry>, a: Addr) {
    forall i :: 0 <= i < |s| ==> s[i].id != a
  }

  /** The links outside `touched` are as they were. */
  ghost predicate SameBut(next: Links, next': Links, touched: set<Addr>) {
    forall a :: a in next && a !in touched ==> a in next' && next'[a] == next[a]
  }

  lemma LinkedFrame(keys: map<Addr, string>, next: Links, next': Links, head: Addr, s: seq<Entry>, touched: set<Addr>)
    requires Linked(keys, next, head, s) && SameBut(next, next', touched)
    requires forall a :: a in touched ==> Avoids(s, a)
    ensures Linked(keys, next', head, s)
  {
    forall i | 0 <= i < |s| ensures Node(keys, next', s, i) {
      assert Node(keys, next, s, i);
    }
  }

  lemma LinkedCons(keys: map<Addr, string>, next: Links, next': Links, head: Addr, s: seq<Entry>, e: Entry)
    requires Linked(keys, next, head, s) && Avoids(s, e.id) && e.id != NULL && e.id in keys && keys[e.id] == e.key
    requires next' == next[e.id := head]
    ensures Linked(keys, next', e.id, [e] + s)
  {
    var c := [e] + s;
    assert c[1..] == s;
    forall i | 0 <= i < |c| ensures Node(keys, next', c, i) {
      if i > 0 {
        assert Node(keys, next, s, i - 1);
        assert c[i + 1..] == s[i..];
      }
    }
  }

  ghost predicate DistinctIds(s: seq<Entry>) {
    forall i, j :: 0 <= i < j < |s| ==> s[i].id != s[j].id
  }

  /** Unchaining item i: the pointer to it takes over its successor. */
  lemma LinkedWithout(keys: map<Addr, string>, next: Links, next': Links, head: Addr, s: seq<Entry>, i: nat)
    requires Linked(keys, next, head, s) && i < |s| && DistinctIds(s)
    requires next' == if i == 0 then next[s[0].id := NULL]
                      else next[s[i].id := NULL][s[i - 1].id := HeadId(s[i + 1..])]
    ensures Linked(keys, next', if i == 0 then HeadId(s[1..]) else head, s[..i] + s[i + 1..])
  {
    var c := s[..i] + s[i + 1..];
    forall j | 0 <= j < |c| ensures Node(keys, next', c, j) {
      if j < i {
        assert Node(keys, next, s, j);
        assert j + 1 < i ==> c[j + 1..][0] == s[j + 1..][0];
        assert j + 1 == i ==> c[j + 1..] == s[i + 1..];
      } else {
        assert Node(keys, next, s, j + 1);
        assert c[j + 1..] == s[j + 2..];
      }
    }
  }

  lemma {:induction false} PositionIs(c: seq<Entry>, key: string, i: nat)
    requires i <= |c| && (i < |c| ==> c[i].key == key)
    requires forall j :: 0 <= j < i ==> c[j].key != key
    ensures Position(c, key) == i
  {}

  /** The memory behind the table. */
  datatype Mem = Mem(keys: map<Addr, string>, next: Links, primary: seq<Addr>, previous: seq<Addr>)
  {
    function Cell(p: Place): Addr
      requires if p.Old? then p.bucket < |previous| else p.bucket < |primary|
    {
      if p.Old? then previous[p.bucket] else primary[p.bucket]
    }

    function SetCell(p: Place, a: Addr): Mem
      requires if p.Old? then p.bucket < |previous| else p.bucket < |primary|
    {
      if p.Old? then this.(previous := previous[p.bucket := a]) else this.(primary := primary[p.bucket := a])
    }
  }

  ghost predicate Fits(mem: Mem, t: HashTable.Table) {
    && t.Shaped() && |mem.primary| == |t.primary|
    && (t.expanding ==> |mem.previous| == |t.previous|)
  }

  ghost predicate LinkedAt(mem: Mem, t: HashTable.Table, p: Place)
    requires Fits(mem, t) && t.IsPlace(p)
  {
    Linked(mem.keys, mem.next, mem.Cell(p), t.Chain(p))
  }

  /** The memory spells out the chains of the table value. */
  ghost predicate Spells(mem: Mem, t: HashTable.Table) {
    Fits(mem, t) && forall p :: t.IsPlace(p) ==> LinkedAt(mem, t, p)
  }

  /** Every item is chained once: one address, one place, one position. */
  ghost predicate Separate(t: HashTable.Table)
    requires t.Shaped()
  {
    forall p, q :: t.IsPlace(p) && t.IsPlace(q) ==> Apart(t, p, q)
  }

  ghost predicate Apart(t: HashTable.Table, p: Place, q: Place)
    requires t.Shaped() && t.IsPlace(p) && t.IsPlace(q)
  {
    forall i, j :: 0 <= i < |t.Chain(p)| && 0 <= j < |t.Chain(q)| && t.Chain(p)[i].id == t.Chain(q)[j].id ==>
      p == q && i == j
  }

  lemma ChainedOnce(hash: Hash, mem: Mem, t: HashTable.Table, m: map<string, Entry>)
    requires Spells(mem, t) && Represents(hash, t, m)
    ensures Separate(t)
  {
    forall p, q | t.IsPlace(p) && t.IsPlace(q) ensures Apart(t, p, q) {
      var s, c := t.Chain(p), t.Chain(q);
      assert LinkedAt(mem, t, p) && LinkedAt(mem, t, q);
      assert ChainSound(hash, t, m, p) && ChainSound(hash, t, m, q);
      forall i, j | 0 <= i < |s| && 0 <= j < |c| && s[i].id == c[j].id ensures p == q && i == j {
        assert Node(mem.keys, mem.next, s, i) && Node(mem.keys, mem.next, c, j);
        assert s[i] in s && c[j] in c;
        assert Homed(hash, t, m, p, s[i]) && Homed(hash, t, m, q, c[j]);
      }
    }
  }

  /** An item that is not in the map is in no chain. */
  lemma NotChained(hash: Hash, mem: Mem, t: HashTable.Table, m: map<string, Entry>, p: Place, a: Addr)
    requires Spells(mem, t) && Represents(hash, t, m) && t.IsPlace(p) && a in mem.keys && mem.keys[a] !in m
    ensures Avoids(t.Chain(p), a)
  {
    assert LinkedAt(mem, t, p);
    var s := t.Chain(p);
    forall i | 0 <= i < |s| ensures s[i].id != a {
      assert Node(mem.keys, mem.next, s, i);
      assert ChainSound(hash, t, m, p) && s[i] in t.Chain(p);
      assert Homed(hash, t, m, p, s[i]);
    }
  }

  lemma ViewKnown(mem: Mem, t: HashTable.Table)
    requires Spells(mem, t)
    ensures t.Shaped()
  {}

  lemma PlaceKnown(mem: Mem, t: HashTable.Table, p: Place)
    requires Spells(mem, t) && t.IsPlace(p)
    ensures if p.Old? then p.bucket < |mem.previous| else p.bucket < |mem.primary|
  {}

  /** Where a lookup starts is a cell, and its links spell out the chain. */
  lemma ChainKnown(mem: Mem, t: HashTable.Table, p: Place)
    requires Spells(mem, t) && t.IsPlace(p)
    ensures if p.Old? then p.bucket < |mem.previous| else p.bucket < |mem.primary|
    ensures Linked(mem.keys, mem.next, mem.Cell(p), t.Chain(p))
  {
    assert LinkedAt(mem, t, p);
  }

  /** The key of an item that is in no chain may be written. */
  lemma KeyWritten(hash: Hash, mem: Mem, t: HashTable.Table, m: map<string, Entry>, a: Addr, key: string)
    requires Spells(mem, t) && Represents(hash, t, m) && forall k :: k in m ==> m[k].id != a
    ensures Spells(mem.(keys := mem.keys[a := key]), t)
  {
    var mem' := mem.(keys := mem.keys[a := key]);
    forall p | t.IsPlace(p) ensures LinkedAt(mem', t, p) {
      assert LinkedAt(mem, t, p);
      var s := t.Chain(p);
      forall i | 0 <= i < |s| ensures Node(mem'.keys, mem'.next, s, i) {
        assert Node(mem.keys, mem.next, s, i);
        assert ChainSound(hash, t, m, p) && s[i] in t.Chain(p);
        assert Homed(hash, t, m, p, s[i]);
      }
    }
  }

  /** Rewriting one chain: link writes that the other chains avoid, a head cell,
  and a new chain that the result spells out. */
  lemma ChainRewritten(mem: Mem, t: HashTable.Table, p: Place, next: Links, touched: set<Addr>, head: Addr,
      c: seq<Entry>)
    requires Spells(mem, t) && t.IsPlace(p)
    requires Linked(mem.keys, next, head, c) && SameBut(mem.next, next, touched)
    requires forall q, a :: t.IsPlace(q) && q != p && a in touched ==> Avoids(t.Chain(q), a)
    ensures Spells(mem.(next := next).SetCell(p, head), t.SetChain(p, c))
  {
    var mem', t' := mem.(next := next).SetCell(p, head), t.SetChain(p, c);
    SetChainRoutes(t, p, c, 0);
    forall q | t'.IsPlace(q) ensures LinkedAt(mem', t', q) {
      SetChainChains(t, p, c, q);
      if q != p {
        assert LinkedAt(mem, t, q);
        LinkedFrame(mem.keys, mem.next, next, mem.Cell(q), t.Chain(q), touched);
      }
    }
  }

  lemma OthersAvoid(t: HashTable.Table, p: Place, q: Place, i: nat)
    requires t.Shaped() && Separate(t) && t.IsPlace(p) && t.IsPlace(q) && p != q && i < |t.Chain(p)|
    ensures Avoids(t.Chain(q), t.Chain(p)[i].id)
  {
    assert Apart(t, p, q);
  }

  predicate SameShape(t': HashTable.Table, t: HashTable.Table) {
    t'.power == t.power && t'.expanding == t.expanding && t'.expandBucket == t.expandBucket
  }

  lemma InsertCorrect(hash: Hash, mem: Mem, t: HashTable.Table, m: map<string, Entry>, e: Entry)
    requires Spells(mem, t) && Represents(hash, t, m) && e.key !in m
    requires e.id != NULL && e.id in mem.keys && mem.keys[e.id] == e.key
    ensures var p := t.Route(hash(e.key));
      && SameShape(HashTable.Insert(t, e, hash(e.key)), t)
      && Spells(mem.(next := mem.next[e.id := mem.Cell(p)]).SetCell(p, e.id), HashTable.Insert(t, e, hash(e.key)))
      && Represents(hash, HashTable.Insert(t, e, hash(e.key)), m[e.key := e])
  {
    var p := t.Route(hash(e.key));
    InsertRefines(hash, t, m, e);
    forall q | t.IsPlace(q) ensures Avoids(t.Chain(q), e.id) {
      NotChained(hash, mem, t, m, q, e.id);
    }
    assert LinkedAt(mem, t, p);
    var next := mem.next[e.id := mem.Cell(p)];
    LinkedCons(mem.keys, mem.next, next, mem.Cell(p), t.Chain(p), e);
    ChainRewritten(mem, t, p, next, {e.id}, e.id, [e] + t.Chain(p));
  }

  /** The links after the two writes of assoc_delete. */
  function Unchain(next: Links, s: seq<Entry>, i: nat): Links
    requires i < |s|
  {
    if i == 0 then next[s[0].id := NULL] else next[s[i].id := NULL][s[i - 1].id := HeadId(s[i + 1..])]
  }

  function HeadAfter(head: Addr, s: seq<Entry>, i: nat): Addr
    requires i < |s|
  {
    if i == 0 then HeadId(s[1..]) else head
  }

  lemma DeleteLinks(mem: Mem, t: HashTable.Table, p: Place, i: nat)
    requires Spells(mem, t) && Separate(t) && t.IsPlace(p) && i < |t.Chain(p)|
    ensures var s := t.Chain(p);
      Spells(mem.(next := Unchain(mem.next, s, i)).SetCell(p, HeadAfter(mem.Cell(p), s, i)),
             t.SetChain(p, s[..i] + s[i + 1..]))
  {
    var s := t.Chain(p);
    assert LinkedAt(mem, t, p);
    assert Apart(t, p, p);
    var next := Unchain(mem.next, s, i);
    LinkedWithout(mem.keys, mem.next, next, mem.Cell(p), s, i);
    var touched := if i == 0 then {s[0].id} else {s[i].id, s[i - 1].id};
    forall q, a | t.IsPlace(q) && q != p && a in touched ensures Avoids(t.Chain(q), a) {
      OthersAvoid(t, p, q, i);
      if i > 0 { OthersAvoid(t, p, q, i - 1); }
    }
    ChainRewritten(mem, t, p, next, touched, HeadAfter(mem.Cell(p), s, i), s[..i] + s[i + 1..]);
  }

  lemma DeleteCorrect(hash: Hash, mem: Mem, t: HashTable.Table, m: map<string, Entry>, key: string, i: nat)
    requires Spells(mem, t) && Represents(hash, t, m) && key in m && i == Position(t.Chain(t.Route(hash(key))), key)
    ensures var p := t.Route(hash(key));
      var s := t.Chain(p);
      && i < |s| && s[i].id in mem.next && mem.next[s[i].id] == HeadId(s[i + 1..]) && s[i].id != NULL
      && (i > 0 ==> s[i - 1].id != NULL)
      && SameShape(HashTable.Delete(t, key, hash(key)), t)
      && Spells(mem.(next := Unchain(mem.next, s, i)).SetCell(p, HeadAfter(mem.Cell(p), s, i)),
                HashTable.Delete(t, key, hash(key)))
      && Represents(hash, HashTable.Delete(t, key, hash(key)), m - {key})
  {
    var p := t.Route(hash(key));
    var s := t.Chain(p);
    FindRefines(hash, t, m, key);
    DeleteRefines(hash, t, m, key);
    ChainedOnce(hash, mem, t, m);
    assert LinkedAt(mem, t, p);
    assert Node(mem.keys, mem.next, s, i);
    if i > 0 { assert Node(mem.keys, mem.next, s, i - 1); }
    hide Represents, Spells, Separate;
    DeleteLinks(mem, t, p, i);
  }

  /** The table after the head item of the migrating bucket has moved to the
  front of bucket b. */
  function Moved(t: HashTable.Table, b: nat): HashTable.Table
    requires t.Shaped() && t.expanding && b < |t.primary| && t.previous[t.expandBucket] != []
  {
    var s := t.previous[t.expandBucket];
    t.(previous := t.previous[t.expandBucket := s[1..]], primary := t.primary[b := [s[0]] + t.primary[b]])
  }

  lemma ShapeRefl(t: HashTable.Table)
    ensures SameShape(t, t)
  {}

  lemma ShapeSays(t: HashTable.Table, view: HashTable.Table)
    requires SameShape(t, view)
    ensures t.power == view.power && t.expanding == view.expanding && t.expandBucket == view.expandBucket
  {}

  /** The table after one of the items of the bucket has moved. */
  lemma MovedIs(hash: Hash, t: HashTable.Table, view: HashTable.Table, s: seq<Entry>, i: nat)
    requires SameShape(t, view) && t.Shaped() && t.expanding && t.expandBucket < |view.previous| && i < |s|
    requires t.previous == view.previous[t.expandBucket := s[i..]]
    ensures var b := Bucket(hash(s[i].key), t.power); var t' := Moved(t, b);
      && SameShape(t', view) && t'.Shaped() && t'.previous == view.previous[t.expandBucket := s[i + 1..]]
      && |t'.primary| == |t.primary|
      && MoveAll(hash, t.power, t'.primary, s[i + 1..]) == MoveAll(hash, t.power, t.primary, s[i..])
  {
    assert s[i..][0] == s[i] && s[i..][1..] == s[i + 1..];
  }

  /** One turn of the loop over the bucket: the links afterwards, and what the next
  turn starts from. */
  lemma TurnMoves(hash: Hash, mem: Mem, t: HashTable.Table, view: HashTable.Table, s: seq<Entry>, i: nat, it: Addr)
    requires SameShape(t, view) && t.Shaped() && t.expanding && t.expandBucket < |view.previous| && i < |s|
    requires it == HeadId(s[i..])
    requires t.previous == view.previous[t.expandBucket := s[i..]] && t.expandBucket < |mem.previous|
    requires |mem.primary| == |t.primary|
    requires Spells(mem.(previous := mem.previous[t.expandBucket := it]), t) && Separate(t)
    ensures it in mem.next && it in mem.keys && mem.keys[it] == s[i].key && mem.next[it] == HeadId(s[i + 1..])
    ensures mem.next[it] == NULL <==> i + 1 == |s|
    ensures var b := Bucket(hash(s[i].key), t.power); var t' := Moved(t, b);
      && SameShape(t', view) && t'.Shaped() && t'.previous == view.previous[t.expandBucket := s[i + 1..]]
      && |t'.primary| == |t.primary| && Separate(t')
      && MoveAll(hash, t.power, t'.primary, s[i + 1..]) == MoveAll(hash, t.power, t.primary, s[i..])
      && Spells(Mem(mem.keys, mem.next[it := mem.primary[b]], mem.primary[b := it],
                    mem.previous[t.expandBucket := mem.next[it]]), t')
  {
    hide Spells, Separate, MoveAll;
    var b := Bucket(hash(s[i].key), t.power);
    var mem1 := mem.(previous := mem.previous[t.expandBucket := it]);
    assert s[i..][0] == s[i] && s[i..][1..] == s[i + 1..];
    MovedLinks(mem1, t, b);
    MovedSeparate(t, b);
    MovedIs(hash, t, view, s, i);
    var head := HeadId(s[i + 1..]);
    assert mem1.previous[t.expandBucket := head] == mem.previous[t.expandBucket := head];
    var mem2 := Mem(mem.keys, mem.next[it := mem.primary[b]], mem.primary[b := it],
        mem.previous[t.expandBucket := head]);
    StartsAtNode(mem2, Moved(t, b));
  }

  lemma MovedSeparate(t: HashTable.Table, b: nat)
    requires t.Shaped() && t.expanding && b < |t.primary| && t.previous[t.expandBucket] != [] && Separate(t)
    ensures Separate(Moved(t, b))
  {
    var t' := Moved(t, b);
    forall p, q | t'.IsPlace(p) && t'.IsPlace(q) ensures Apart(t', p, q) {
      var from := Old(t.expandBucket);
      assert Apart(t, p, q) && Apart(t, p, from) && Apart(t, from, q) && Apart(t, from, from);
      forall i, j | 0 <= i < |t'.Chain(p)| && 0 <= j < |t'.Chain(q)| && t'.Chain(p)[i].id == t'.Chain(q)[j].id
        ensures p == q && i == j
      {
        var a, k := Origin(t, b, p, i);
        var c, l := Origin(t, b, q, j);
        assert Apart(t, a, c);
      }
    }
  }

  /** Where an item of the table after the move was before it. */
  lemma Origin(t: HashTable.Table, b: nat, p: Place, i: nat) returns (q: Place, j: nat)
    requires t.Shaped() && t.expanding && b < |t.primary| && t.previous[t.expandBucket] != []
    requires Moved(t, b).IsPlace(p) && i < |Moved(t, b).Chain(p)|
    ensures t.IsPlace(q) && j < |t.Chain(q)| && t.Chain(q)[j] == Moved(t, b).Chain(p)[i]
    ensures if p == Old(t.expandBucket) then q == p && j == i + 1
            else if p == Primary(b) && i == 0 then q == Old(t.expandBucket) && j == 0
            else if p == Primary(b) then q == p && j == i - 1
            else q == p && j == i
  {
    if p == Old(t.expandBucket) {
      q, j := p, i + 1;
    } else if p == Primary(b) && i == 0 {
      q, j := Old(t.expandBucket), 0;
    } else if p == Primary(b) {
      q, j := p, i - 1;
    } else {
      q, j := p, i;
    }
  }

  /** One turn of the migration loop on the memory. The head cell of the bucket
  stands for the loop variable; the C code clears it only after the loop. */
  lemma MovedLinks(mem: Mem, t: HashTable.Table, b: nat)
    requires Spells(mem, t) && Separate(t) && t.expanding && b < |t.primary| && t.previous[t.expandBucket] != []
    ensures var s := t.previous[t.expandBucket];
      && s[0].id in mem.next && mem.next[s[0].id] == HeadId(s[1..]) && s[0].id in mem.keys
      && mem.keys[s[0].id] == s[0].key
      && Spells(Mem(mem.keys, mem.next[s[0].id := mem.primary[b]], mem.primary[b := s[0].id],
                    mem.previous[t.expandBucket := HeadId(s[1..])]), Moved(t, b))
  {
    var p, q := Old(t.expandBucket), Primary(b);
    var s := t.Chain(p);
    var x, rest := s[0], s[1..];
    assert LinkedAt(mem, t, p) && LinkedAt(mem, t, q) && Apart(t, p, p);
    assert Node(mem.keys, mem.next, s, 0);
    LinkedTail(mem.keys, mem.next, mem.Cell(p), s, 1);
    ChainRewritten(mem, t, p, mem.next, {}, HeadId(rest), rest);
    var mem1, t1 := mem.SetCell(p, HeadId(rest)), t.SetChain(p, rest);
    var next := mem.next[x.id := mem.Cell(q)];
    forall r, a | t1.IsPlace(r) && a in {x.id} ensures Avoids(t1.Chain(r), a) {
      if r != p { OthersAvoid(t, p, r, 0); }
    }
    assert LinkedAt(mem1, t1, q);
    LinkedCons(mem.keys, mem.next, next, mem.Cell(q), t.Chain(q), x);
    ChainRewritten(mem1, t1, q, next, {x.id}, x.id, [x] + t.Chain(q));
  }

  lemma LinkedTail(keys: map<Addr, string>, next: Links, head: Addr, s: seq<Entry>, i: nat)
    requires Linked(keys, next, head, s) && i <= |s|
    ensures Linked(keys, next, HeadId(s[i..]), s[i..])
  {
    forall j | 0 <= j < |s[i..]| ensures Node(keys, next, s[i..], j) {
      assert Node(keys, next, s, i + j);
      assert s[i..][j + 1..] == s[i + j + 1..];
    }
  }

  lemma CursorMoves(mem: Mem, t: HashTable.Table, t': HashTable.Table)
    requires Spells(mem, t) && t'.Shaped() && t'.primary == t.primary && t'.previous == t.previous
    requires t'.expanding ==> t.expanding
    ensures Spells(mem, t')
  {
    forall p | t'.IsPlace(p) ensures LinkedAt(mem, t', p) {
      assert LinkedAt(mem, t, p);
    }
  }

  lemma ExpandLinks(mem: Mem, t: HashTable.Table, memory: bool)
    requires Spells(mem, t) && !t.expanding
    ensures Expand(t, memory).Shaped()
    ensures Spells(Mem(mem.keys, mem.next, if memory then seq(Pow2(t.power + 1), _ => NULL) else mem.primary,
        mem.primary),
                   Expand(t, memory))
  {
    var t' := Expand(t, memory);
    var mem' := Mem(mem.keys, mem.next, if memory then seq(Pow2(t.power + 1), _ => NULL) else mem.primary, mem.primary);
    forall p | t'.IsPlace(p) ensures LinkedAt(mem', t', p) {
      if p.Old? || !memory { assert LinkedAt(mem, t, Primary(p.bucket)); }
    }
  }

  class Table {
    const hash: Hash
    var keys: map<Addr, string>
    var hNext: Links
    var power: nat
    var primary: seq<Addr>
    var previous: seq<Addr>
    var expanding: bool
    var expandBucket: nat
    /** The map that the table stands for, and the chains the links spell out. */
    ghost var m: map<string, Entry>
    ghost var view: HashTable.Table

    ghost predicate Valid()
      reads this
    {
      && view.power == power && view.expanding == expanding && view.expandBucket == expandBucket
      && Spells(Mem(keys, hNext, primary, previous), view)
      && Represents(hash, view, m)
    }

    /** assoc_init. */
    constructor (hash: Hash, power: nat)
      ensures Valid() && this.hash == hash && m == map[] && keys == map[]
      ensures view == HashTable.Table(power, seq(Pow2(power), _ => []), [], false, 0)
    {
      this.hash := hash;
      this.power := power;
      keys := map[];
      hNext := map[];
      primary := seq(Pow2(power), _ => NULL);
      previous := [];
      expanding := false;
      expandBucket := 0;
      m := map[];
      view := HashTable.Table(power, seq(Pow2(power), _ => []), [], false, 0);
      new;
      forall p | view.IsPlace(p) ensures ChainSound(hash, view, m, p) {
        assert view.Chain(p) == [];
      }
    }

    /** The old-or-new decision that every operation on a key starts with. */
    method Where(hv: nat) returns (p: Place)
      requires Valid()
      ensures p == view.Route(hv)
    {
      if expanding && Bucket(hv, power - 1) >= expandBucket {
        p := Old(Bucket(hv, power - 1));
      } else {
        p := Primary(Bucket(hv, power));
      }
    }

    /** The fields of an item are written before it is linked. */
    method SetKey(it: Addr, key: string)
      requires Valid() && it != NULL && forall k :: k in m ==> m[k].id != it
      modifies this`keys
      ensures Valid() && keys == old(keys)[it := key]
    {
      KeyWritten(hash, Mem(keys, hNext, primary, previous), view, m, it, key);
      keys := keys[it := key];
    }

    /** *pos, for the head cell of a chain. */
    function Cell(p: Place): Addr
      requires if p.Old? then p.bucket < |previous| else p.bucket < |primary|
      reads this
    {
      if p.Old? then previous[p.bucket] else primary[p.bucket]
    }

    method SetCell(p: Place, a: Addr)
      requires if p.Old? then p.bucket < |previous| else p.bucket < |primary|
      modifies this`primary, this`previous
      ensures Mem(keys, hNext, primary, previous) == old(Mem(keys, hNext, primary, previous)).SetCell(p, a)
    {
      if p.Old? {
        previous := previous[p.bucket := a];
      } else {
        primary := primary[p.bucket := a];
      }
    }

    /** assoc_find. */
    method Find(key: string, hv: nat) returns (r: Addr)
      requires Valid() && hv == hash(key)
      ensures if key in m then r == m[key].id && r != NULL else r == NULL
    {
      var p := Where(hv);
      ghost var s := view.Chain(p);
      assert LinkedAt(Mem(keys, hNext, primary, previous), view, p);
      FindRefines(hash, view, m, key);
      var before;
      ghost var i;
      before, r, i := Walk(Cell(p), s, key);
    }

    /** The lookup loop: the first item of the chain with the key, or NULL, and
    the item before it, or NULL at the head. */
    method Walk(head: Addr, ghost s: seq<Entry>, key: string) returns (before: Addr, r: Addr, ghost i: nat)
      requires Linked(keys, hNext, head, s)
      ensures i == Position(s, key) && r == HeadId(s[i..]) && (r == NULL <==> i == |s|)
      ensures before == if i == 0 then NULL else s[i - 1].id
    {
      before, r, i := NULL, head, 0;
      if s != [] { assert Node(keys, hNext, s, 0); }
      while r != NULL && keys[r] != key
        invariant 0 <= i <= |s| && r == HeadId(s[i..])
        invariant i < |s| ==> Node(keys, hNext, s, i)
        invariant before == if i == 0 then NULL else s[i - 1].id
        invariant forall j :: 0 <= j < i ==> s[j].key != key
        decreases |s| - i
      {
        before, r, i := r, hNext[r], i + 1;
        if i < |s| { assert Node(keys, hNext, s, i); }
      }
      PositionIs(s, key, i);
    }

    /** assoc_insert: the item becomes the head of its chain. */
    method Insert(it: Addr, hv: nat)
      requires Valid() && it != NULL && it in keys && hv == hash(keys[it]) && keys[it] !in m
      modifies this
      ensures Valid() && keys == old(keys)
      ensures m == old(m)[keys[it] := Entry(keys[it], it)]
      ensures view == HashTable.Insert(old(view), Entry(keys[it], it), hv)
    {
      hide Represents, Spells, Linked, HashTable.Insert;
      ViewKnown(Mem(keys, hNext, primary, previous), view);
      var p := Where(hv);
      PlaceKnown(Mem(keys, hNext, primary, previous), view, p);
      ghost var e := Entry(keys[it], it);
      InsertCorrect(hash, Mem(keys, hNext, primary, previous), view, m, e);
      hide *;
      hNext := hNext[it := Cell(p)];
      SetCell(p, it);
      view := HashTable.Insert(view, e, hv);
      m := m[keys[it] := e];
    }

    /** assoc_delete. The callers never delete a key that is not there. */
    method Delete(key: string, hv: nat)
      requires Valid() && hv == hash(key) && key in m
      modifies this
      ensures Valid() && keys == old(keys)
      ensures m == old(m) - {key} && view == HashTable.Delete(old(view), key, hv)
    {
      hide Represents, Spells, Linked, HashTable.Delete, Unchain, Position;
      ViewKnown(Mem(keys, hNext, primary, previous), view);
      var p := Where(hv);
      ghost var s, mem := view.Chain(p), Mem(keys, hNext, primary, previous);
      ChainKnown(mem, view, p);
      DeleteCorrect(hash, mem, view, m, key, Position(s, key));
      var before, it;
      ghost var i;
      before, it, i := Walk(Cell(p), s, key);
      ghost var view' := HashTable.Delete(view, key, hv);
      hide HashTable.Table.SetChain, HashTable.Table.Route;
      Rewrite(p, before, it, s, i);
      view := view';
      m := m - {key};
    }

    /** The writes of assoc_delete: it->h_next = 0; *before = nxt. */
    method Rewrite(p: Place, before: Addr, it: Addr, ghost s: seq<Entry>, ghost i: nat)
      requires if p.Old? then p.bucket < |previous| else p.bucket < |primary|
      requires i < |s| && it == s[i].id && it in hNext && hNext[it] == HeadId(s[i + 1..])
      requires if i == 0 then before == NULL else before == s[i - 1].id != NULL
      modifies this`hNext, this`primary, this`previous
      ensures hNext == Unchain(old(hNext), s, i)
      ensures Mem(keys, hNext, primary, previous) ==
        Mem(keys, hNext, old(primary), old(previous)).SetCell(p, HeadAfter(old(Cell(p)), s, i))
    {
      var nxt := hNext[it];
      hNext := hNext[it := NULL];
      if before == NULL {
        SetCell(p, nxt);
      } else {
        hNext := hNext[before := nxt];
      }
    }

    /** assoc_expand; `memory` says whether the larger table could be allocated. */
    method StartExpansion(memory: bool)
      requires Valid() && !expanding
      modifies this
      ensures Valid() && keys == old(keys) && m == old(m) && view == Expand(old(view), memory)
    {
      ExpandLinks(Mem(keys, hNext, primary, previous), view, memory);
      ExpandRefines(hash, view, m, memory);
      hide Spells, Represents;
      previous := primary;
      if memory {
        primary := seq(Pow2(power + 1), _ => NULL);
        power := power + 1;
        expanding := true;
        expandBucket := 0;
      }
      view := Expand(view, memory);
    }

    /** The loop of the maintenance thread that empties one bucket. */
    method MoveBucket() returns (ghost t: HashTable.Table)
      requires Valid() && expanding
      modifies this`hNext, this`primary
      ensures SameShape(t, view) && t.Shaped() && t.previous == view.previous[expandBucket := []]
      ensures t.primary == MoveAll(hash, power, view.primary, view.previous[expandBucket])
      ensures Spells(Mem(keys, hNext, primary, previous[expandBucket := NULL]), t)
    {
      ghost var s := view.previous[expandBucket];
      var it := previous[expandBucket];
      t := view;
      ghost var i := 0;
      assert LinkedAt(Mem(keys, hNext, primary, previous), view, Old(expandBucket));
      assert previous[expandBucket := it] == previous && s[0..] == s &&
          view.previous[expandBucket := s] == view.previous;
      ChainedOnce(hash, Mem(keys, hNext, primary, previous), view, m);
      StartsAtNode(Mem(keys, hNext, primary, previous), view);
      hide Spells, Separate, Represents, MoveAll, Moved, SameShape;
      ShapeRefl(view);
      while it != NULL
        invariant 0 <= i <= |s| && it == HeadId(s[i..]) && (it == NULL <==> i == |s|)
        invariant SameShape(t, view) && t.Shaped() && t.previous == view.previous[expandBucket := s[i..]]
        invariant MoveAll(hash, power, t.primary, s[i..]) == MoveAll(hash, power, view.primary, s)
        invariant |primary| == |t.primary| == Pow2(power) && expandBucket < |previous|
        invariant Spells(Mem(keys, hNext, primary, previous[expandBucket := it]), t) && Separate(t)
        decreases |s| - i
      {
        ShapeSays(t, view);
        TurnMoves(hash, Mem(keys, hNext, primary, previous), t, view, s, i, it);
        t := Moved(t, Bucket(hash(s[i].key), power));
        var next := hNext[it];
        var bucket := Bucket(hash(keys[it]), power);
        hNext := hNext[it := primary[bucket]];
        primary := primary[bucket := it];
        it := next;
        i := i + 1;
      }
    }

    /** One bucket of the maintenance thread. */
    method MigrateBucket()
      requires Valid() && expanding
      modifies this
      ensures Valid() && keys == old(keys) && m == old(m) && view == Migrate(hash, old(view))
    {
      MigrateRefines(hash, view, m);
      ghost var t' := Migrate(hash, view);
      ghost var t := MoveBucket();
      previous := previous[expandBucket := NULL];
      CursorMoves(Mem(keys, hNext, primary, previous), t, t');
      hide Spells, Represents;
      expandBucket := expandBucket + 1;
      if expandBucket == Pow2(power - 1) {
        expanding := false;
      }
      view := t';
    }
  }

  /** A bucket's head cell is NULL just when its chain is empty. */
  lemma StartsAtNode(mem: Mem, t: HashTable.Table)
    requires Spells(mem, t) && t.expanding
    ensures mem.previous[t.expandBucket] == HeadId(t.previous[t.expandBucket])
    ensures mem.previous[t.expandBucket] == NULL <==> t.previous[t.expandBucket] == []
  {
    var p := Old(t.expandBucket);
    assert LinkedAt(mem, t, p);
    if t.Chain(p) != [] { assert Node(mem.keys, mem.next, t.Chain(p), 0); }
  }
}

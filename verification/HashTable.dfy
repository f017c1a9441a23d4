/** The hash table of assoc.c as values: two tables of chains, a migration
cursor, and the finite map they stand for. */
module HashTable {

  import opened Basics

  /** An item: its key, and an identity of its own (its address). */
  datatype Entry = Entry(key: string, id: nat)

  type Hash = string -> nat

  /** hv & hashmask(power). */
  function Bucket(hv: nat, power: nat): (b: nat)
    ensures b < Pow2(power)
  {
    hv % Pow2(power)
  }

  lemma ModOfSum(a: nat, k: nat, r: nat)
    requires a > 0
    ensures (a * k + r) % a == r % a
    decreases k
  {
    if k > 0 {
      ModOfSum(a, k - 1, r);
      assert a * k + r == a * (k - 1) + r + a;
      AddDivisor(a * (k - 1) + r, a);
    }
  }

  lemma AddDivisor(x: nat, a: nat)
    requires a > 0
    ensures (x + a) % a == x % a
  {
    assert x == a * (x / a) + x % a;
    assert x + a == a * (x / a + 1) + x % a;
    DivUnique(x + a, a, x / a + 1, x % a);
  }

  lemma Pow2Split(low: nat, high: nat)
    requires low <= high
    ensures Pow2(high) == Pow2(low) * Pow2(high - low)
  {
    if low < high { Pow2Split(low, high - 1); }
  }

  /** The low bits of a bucket number are the bucket number for fewer bits. */
  lemma BucketOfBucket(hv: nat, low: nat, high: nat)
    requires low <= high
    ensures Bucket(Bucket(hv, high), low) == Bucket(hv, low)
  {
    Pow2Split(low, high);
    ModOfMod(hv, Pow2(low), Pow2(high - low));
  }

  lemma ModOfMod(h: nat, a: nat, b: nat)
    requires a > 0 && b > 0
    ensures a * b > 0 && (h % (a * b)) % a == h % a
  {
    var c := a * b;
    assert c > 0;
    var q, r := h / c, h % c;
    assert h == c * q + r;
    assert c * q == a * (b * q);
    ModOfSum(a, b * q, r);
  }

  datatype Place = Old(bucket: nat) | Primary(bucket: nat)

  datatype Table = Table(power: nat, primary: seq<seq<Entry>>, previous: seq<seq<Entry>>,
                         expanding: bool, expandBucket: nat)
  {
    predicate Shaped() {
      && |primary| == Pow2(power)
      && (expanding ==> power > 0 && |previous| == Pow2(power - 1) && expandBucket < |previous|)
    }

    predicate IsPlace(p: Place) {
      if p.Old? then expanding && p.bucket < |previous| else p.bucket < |primary|
    }

    /** Which table a lookup goes to, and where in it. */
    function Route(hv: nat): (p: Place)
      requires Shaped()
      ensures IsPlace(p)
    {
      if expanding && Bucket(hv, power - 1) >= expandBucket then Old(Bucket(hv, power - 1))
      else Primary(Bucket(hv, power))
    }

    function Chain(p: Place): seq<Entry>
      requires IsPlace(p)
    {
      if p.Old? then previous[p.bucket] else primary[p.bucket]
    }

    function SetChain(p: Place, c: seq<Entry>): Table
      requires IsPlace(p)
    {
      if p.Old? then this.(previous := previous[p.bucket := c]) else this.(primary := primary[p.bucket := c])
    }
  }

  /** Position of the first entry with the key, or the length of the chain. */
  function Position(chain: seq<Entry>, key: string): (i: nat)
    ensures i <= |chain|
    ensures i < |chain| ==> chain[i].key == key
    ensures forall j :: 0 <= j < i ==> chain[j].key != key
  {
    if chain == [] then 0 else if chain[0].key == key then 0 else 1 + Position(chain[1..], key)
  }

  /** assoc_find. */
  function Find(t: Table, key: string, hv: nat): Option<Entry>
    requires t.Shaped()
  {
    var c := t.Chain(t.Route(hv));
    var i := Position(c, key);
    if i < |c| then Some(c[i]) else None
  }

  /** assoc_insert: at the head of the chain. */
  function Insert(t: Table, e: Entry, hv: nat): Table
    requires t.Shaped()
  {
    t.SetChain(t.Route(hv), [e] + t.Chain(t.Route(hv)))
  }

  /** assoc_delete: the first entry with the key is unchained. */
  function Delete(t: Table, key: string, hv: nat): Table
    requires t.Shaped()
  {
    var c := t.Chain(t.Route(hv));
    var i := Position(c, key);
    if i < |c| then t.SetChain(t.Route(hv), c[..i] + c[i + 1..]) else t
  }

  /** assoc_expand, with or without memory for the new table. */
  function Expand(t: Table, memory: bool): Table {
    if memory then
      Table(t.power + 1, seq(Pow2(t.power + 1), _ => []), t.primary, true, 0)
    else t.(previous := t.primary)
  }

  /** The items of a chain moved one by one to the heads of their new chains. */
  function MoveAll(hash: Hash, power: nat, primary: seq<seq<Entry>>, items: seq<Entry>): (r: seq<seq<Entry>>)
    requires |primary| == Pow2(power)
    ensures |r| == |primary|
    decreases |items|
  {
    if items == [] then primary
    else
      var b := Bucket(hash(items[0].key), power);
      MoveAll(hash, power, primary[b := [items[0]] + primary[b]], items[1..])
  }

  /** One bucket of the maintenance thread. */
  function Migrate(hash: Hash, t: Table): Table
    requires t.Shaped() && t.expanding
  {
    Table(t.power, MoveAll(hash, t.power, t.primary, t.previous[t.expandBucket]), t.previous[t.expandBucket := []],
          t.expandBucket + 1 < Pow2(t.power - 1), t.expandBucket + 1)
  }

  /** No entry twice. */
  ghost predicate NoDup(s: seq<Entry>) {
    forall i, j :: 0 <= i < j < |s| ==> s[i] != s[j]
  }

  /** The entries of a chain are in the map, and are looked up there. */
  ghost predicate ChainSound(hash: Hash, t: Table, m: map<string, Entry>, p: Place)
    requires t.Shaped() && t.IsPlace(p)
  {
    && NoDup(t.Chain(p))
    && forall e :: e in t.Chain(p) ==> Homed(hash, t, m, p, e)
  }

  ghost predicate Homed(hash: Hash, t: Table, m: map<string, Entry>, p: Place, e: Entry)
    requires t.Shaped()
  {
    e.key in m && m[e.key] == e && t.Route(hash(e.key)) == p
  }

  ghost predicate Found(hash: Hash, t: Table, m: map<string, Entry>, k: string)
    requires t.Shaped() && k in m
  {
    m[k].key == k && m[k] in t.Chain(t.Route(hash(k)))
  }

  /** The two tables and the cursor stand for the map m: every entry of m is in
  the one chain its lookup goes to, once, and the chains hold nothing else. */
  ghost predicate Represents(hash: Hash, t: Table, m: map<string, Entry>) {
    && t.Shaped()
    && (forall p :: t.IsPlace(p) ==> ChainSound(hash, t, m, p))
    && (forall k :: k in m ==> Found(hash, t, m, k))
  }

  lemma FindRefines(hash: Hash, t: Table, m: map<string, Entry>, key: string)
    requires Represents(hash, t, m)
    ensures Find(t, key, hash(key)) == if key in m then Some(m[key]) else None
  {
    var p := t.Route(hash(key));
    assert ChainSound(hash, t, m, p);
    var c := t.Chain(p);
    var i := Position(c, key);
    if i < |c| {
      assert c[i] in c && Homed(hash, t, m, p, c[i]);
    }
    if key in m {
      assert Found(hash, t, m, key);
      var j :| 0 <= j < |c| && c[j] == m[key];
      assert i <= j;
    }
  }

  /** Every item is in exactly one chain: no entry is found in two places. */
  lemma OneChain(hash: Hash, t: Table, m: map<string, Entry>, p: Place, q: Place, e: Entry)
    requires Represents(hash, t, m) && t.IsPlace(p) && t.IsPlace(q)
    requires e in t.Chain(p) && e in t.Chain(q)
    ensures p == q
  {
    assert ChainSound(hash, t, m, p) && ChainSound(hash, t, m, q);
    assert Homed(hash, t, m, p, e) && Homed(hash, t, m, q, e);
  }

  lemma SetChainRoutes(t: Table, p: Place, c: seq<Entry>, hv: nat)
    requires t.Shaped() && t.IsPlace(p)
    ensures t.SetChain(p, c).Shaped() && t.SetChain(p, c).Route(hv) == t.Route(hv)
  {}

  lemma SetChainChains(t: Table, p: Place, c: seq<Entry>, q: Place)
    requires t.Shaped() && t.IsPlace(p)
    ensures t.SetChain(p, c).IsPlace(q) <==> t.IsPlace(q)
    ensures t.IsPlace(q) ==> t.SetChain(p, c).Chain(q) == if p == q then c else t.Chain(q)
  {}

  lemma InsertRefines(hash: Hash, t: Table, m: map<string, Entry>, e: Entry)
    requires Represents(hash, t, m) && e.key !in m
    ensures Represents(hash, Insert(t, e, hash(e.key)), m[e.key := e])
  {
    var p := t.Route(hash(e.key));
    var c := [e] + t.Chain(p);
    var t', m' := t.SetChain(p, c), m[e.key := e];
    SetChainRoutes(t, p, c, 0);
    forall q | t'.IsPlace(q) ensures ChainSound(hash, t', m', q) {
      InsertKeepsSound(hash, t, m, e, q);
    }
    forall k | k in m' ensures Found(hash, t', m', k) {
      SetChainRoutes(t, p, c, hash(k));
      SetChainChains(t, p, c, t.Route(hash(k)));
      if k != e.key { assert Found(hash, t, m, k); }
    }
  }

  lemma InsertKeepsSound(hash: Hash, t: Table, m: map<string, Entry>, e: Entry, q: Place)
    requires t.Shaped() && t.IsPlace(q) && ChainSound(hash, t, m, q) && e.key !in m
    ensures var t' := Insert(t, e, hash(e.key));
      t'.Shaped() && t'.IsPlace(q) && ChainSound(hash, t', m[e.key := e], q)
  {
    var p := t.Route(hash(e.key));
    var c := [e] + t.Chain(p);
    var t', m' := t.SetChain(p, c), m[e.key := e];
    SetChainRoutes(t, p, c, 0);
    SetChainChains(t, p, c, q);
    forall x | x in t.Chain(q) ensures x != e && Homed(hash, t', m', q, x) {
      assert Homed(hash, t, m, q, x);
      SetChainRoutes(t, p, c, hash(x.key));
    }
    SetChainRoutes(t, p, c, hash(e.key));
    assert p == q ==> Homed(hash, t', m', q, e);
  }

  lemma DeleteRefines(hash: Hash, t: Table, m: map<string, Entry>, key: string)
    requires Represents(hash, t, m)
    ensures Represents(hash, Delete(t, key, hash(key)), m - {key})
  {
    hide ChainSound, Found, Homed;
    FindRefines(hash, t, m, key);
    var p := t.Route(hash(key));
    var c := t.Chain(p);
    var i := Position(c, key);
    hide Position;
    if i < |c| {
      assert ChainSound(hash, t, m, p);
      Unchained(hash, t, m, key, p, c[..i] + c[i + 1..], i);
    } else {
      assert m - {key} == m;
    }
  }

  lemma Unchained(hash: Hash, t: Table, m: map<string, Entry>, key: string, p: Place, c': seq<Entry>, i: nat)
    requires Represents(hash, t, m) && p == t.Route(hash(key)) && ChainSound(hash, t, m, p)
    requires i < |t.Chain(p)| && key in m && m[key] == t.Chain(p)[i] && t.Chain(p)[i].key == key
    requires c' == t.Chain(p)[..i] + t.Chain(p)[i + 1..]
    ensures Represents(hash, t.SetChain(p, c'), m - {key})
  {
    var t' := t.SetChain(p, c');
    hide ChainSound, Found;
    SetChainRoutes(t, p, c', 0);
    forall q | t'.IsPlace(q) ensures ChainSound(hash, t', m - {key}, q) {
      SetChainChains(t, p, c', q);
      DeleteKeepsSound(hash, t, m, key, i, q);
    }
    forall k | k in m - {key} ensures Found(hash, t', m - {key}, k) {
      DeleteKeepsFound(hash, t, m, key, i, k);
    }
  }

  lemma DeleteKeepsFound(hash: Hash, t: Table, m: map<string, Entry>, key: string, i: nat, k: string)
    requires t.Shaped() && k in m && key in m && k != key && Found(hash, t, m, k)
    requires ChainSound(hash, t, m, t.Route(hash(key)))
    requires i < |t.Chain(t.Route(hash(key)))| && m[key] == t.Chain(t.Route(hash(key)))[i] && m[key].key == key
    ensures var c := t.Chain(t.Route(hash(key)));
      var t' := t.SetChain(t.Route(hash(key)), c[..i] + c[i + 1..]);
      t'.Shaped() && Found(hash, t', m - {key}, k)
  {
    var p := t.Route(hash(key));
    var c := t.Chain(p);
    WithoutOne(c, i);
    SetChainRoutes(t, p, c[..i] + c[i + 1..], hash(k));
    SetChainChains(t, p, c[..i] + c[i + 1..], t.Route(hash(k)));
  }

  lemma DeleteKeepsSound(hash: Hash, t: Table, m: map<string, Entry>, key: string, i: nat, q: Place)
    requires t.Shaped() && t.IsPlace(q) && ChainSound(hash, t, m, q)
    requires ChainSound(hash, t, m, t.Route(hash(key)))
    requires i < |t.Chain(t.Route(hash(key)))| && key in m && m[key] == t.Chain(t.Route(hash(key)))[i]
    requires t.Chain(t.Route(hash(key)))[i].key == key
    ensures var c := t.Chain(t.Route(hash(key)));
      var t' := t.SetChain(t.Route(hash(key)), c[..i] + c[i + 1..]);
      t'.Shaped() && t'.IsPlace(q) && ChainSound(hash, t', m - {key}, q)
  {
    var p := t.Route(hash(key));
    var c := t.Chain(p);
    var c' := c[..i] + c[i + 1..];
    var t' := t.SetChain(p, c');
    SetChainRoutes(t, p, c', 0);
    SetChainChains(t, p, c', q);
    WithoutOne(c, i);
    forall x | x in t'.Chain(q) ensures Homed(hash, t', m - {key}, q, x) {
      SetChainRoutes(t, p, c', hash(x.key));
      assert Homed(hash, t, m, q, x);
      SetChainRoutes(t, p, c', hash(key));
    }
  }

  lemma WithoutOne(c: seq<Entry>, i: nat)
    requires i < |c| && NoDup(c)
    ensures NoDup(c[..i] + c[i + 1..])
    ensures forall e :: e in c[..i] + c[i + 1..] <==> e in c && e != c[i]
  {
    var c' := c[..i] + c[i + 1..];
    forall e | e in c && e != c[i] ensures e in c' {
      StillThere(c, i, e);
    }
  }

  lemma StillThere(c: seq<Entry>, i: nat, e: Entry)
    requires i < |c| && e in c && e != c[i]
    ensures e in c[..i] + c[i + 1..]
  {
    var j :| 0 <= j < |c| && c[j] == e;
    var c' := c[..i] + c[i + 1..];
    if j < i { assert c'[j] == e; } else { assert c'[j - 1] == e; }
  }

  lemma ExpandRefines(hash: Hash, t: Table, m: map<string, Entry>, memory: bool)
    requires Represents(hash, t, m) && !t.expanding
    ensures Represents(hash, Expand(t, memory), m)
  {
    var t' := Expand(t, memory);
    assert t'.Shaped();
    forall q | t'.IsPlace(q) ensures ChainSound(hash, t', m, q) {
      if q.Old? || !memory {
        assert ChainSound(hash, t, m, Primary(q.bucket));
        forall x | x in t'.Chain(q) ensures Homed(hash, t', m, q, x) {
          assert Homed(hash, t, m, Primary(q.bucket), x);
        }
      }
    }
    forall k | k in m ensures Found(hash, t', m, k) {
      assert Found(hash, t, m, k);
    }
  }

  /** What MoveAll does to one bucket. */
  lemma {:induction false} MoveAllChain(hash: Hash, power: nat, primary: seq<seq<Entry>>, items: seq<Entry>, b: nat)
    requires |primary| == Pow2(power) && b < |primary|
    ensures forall e :: e in MoveAll(hash, power, primary, items)[b] <==>
      e in primary[b] || (e in items && Bucket(hash(e.key), power) == b)
    decreases |items|
  {
    if items != [] {
      var i := items[0];
      var d := Bucket(hash(i.key), power);
      MoveAllChain(hash, power, primary[d := [i] + primary[d]], items[1..], b);
      assert items == [i] + items[1..];
    }
  }

  lemma {:induction false} MoveAllNoDup(hash: Hash, power: nat, primary: seq<seq<Entry>>, items: seq<Entry>, b: nat)
    requires |primary| == Pow2(power) && b < |primary|
    requires NoDup(items) && NoDup(primary[b]) && forall e :: e in items ==> e !in primary[b]
    ensures NoDup(MoveAll(hash, power, primary, items)[b])
    decreases |items|
  {
    if items != [] {
      var i := items[0];
      var d := Bucket(hash(i.key), power);
      assert i in items;
      assert d == b ==> NoDup([i] + primary[b]);
      forall e | e in items[1..] ensures e in items && e != i {
        var j :| 0 <= j < |items[1..]| && items[1..][j] == e;
        assert items[j + 1] == e;
      }
      MoveAllNoDup(hash, power, primary[d := [i] + primary[d]], items[1..], b);
    }
  }

  /** Migrating one bucket changes the route of the items of that bucket only. */
  lemma MigrateRoutes(hash: Hash, t: Table, hv: nat)
    requires t.Shaped() && t.expanding
    ensures Migrate(hash, t).Shaped()
    ensures Migrate(hash, t).Route(hv) ==
      if Bucket(hv, t.power - 1) == t.expandBucket then Primary(Bucket(hv, t.power)) else t.Route(hv)
    ensures t.Route(hv) == Old(t.expandBucket) <==> Bucket(hv, t.power - 1) == t.expandBucket
  {}

  lemma MigrateKeepsSound(hash: Hash, t: Table, m: map<string, Entry>, q: Place)
    requires Represents(hash, t, m) && t.expanding && Migrate(hash, t).IsPlace(q)
    ensures Migrate(hash, t).Shaped() && ChainSound(hash, Migrate(hash, t), m, q)
  {
    var t' := Migrate(hash, t);
    var from := Old(t.expandBucket);
    var items := t.previous[t.expandBucket];
    assert t.IsPlace(q) && ChainSound(hash, t, m, q) && ChainSound(hash, t, m, from);
    MigrateRoutes(hash, t, 0);
    if q.Primary? {
      MoveAllChain(hash, t.power, t.primary, items, q.bucket);
      forall x | x in items ensures x !in t.primary[q.bucket] {
        assert x in t.Chain(from);
        assert Homed(hash, t, m, from, x);
        NotHomedTwice(hash, t, m, from, q, x);
      }
      MoveAllNoDup(hash, t.power, t.primary, items, q.bucket);
      forall x | x in t'.Chain(q) ensures Homed(hash, t', m, q, x) {
        MigrateRoutes(hash, t, hash(x.key));
        assert if x in t.Chain(q) then Homed(hash, t, m, q, x) else Homed(hash, t, m, from, x);
      }
    } else {
      forall x | x in t'.Chain(q) ensures Homed(hash, t', m, q, x) {
        MigrateRoutes(hash, t, hash(x.key));
        assert Homed(hash, t, m, q, x);
      }
    }
  }

  lemma NotHomedTwice(hash: Hash, t: Table, m: map<string, Entry>, p: Place, q: Place, x: Entry)
    requires t.Shaped() && t.IsPlace(q) && p != q && Homed(hash, t, m, p, x) && ChainSound(hash, t, m, q)
    ensures x !in t.Chain(q)
  {
    assert !Homed(hash, t, m, q, x);
  }

  lemma MigrateRefines(hash: Hash, t: Table, m: map<string, Entry>)
    requires Represents(hash, t, m) && t.expanding
    ensures Represents(hash, Migrate(hash, t), m)
  {
    var t' := Migrate(hash, t);
    MigrateRoutes(hash, t, 0);
    forall q | t'.IsPlace(q) ensures ChainSound(hash, t', m, q) {
      MigrateKeepsSound(hash, t, m, q);
    }
    forall k | k in m ensures Found(hash, t', m, k) {
      assert Found(hash, t, m, k);
      MigrateRoutes(hash, t, hash(k));
      MoveAllChain(hash, t.power, t.primary, t.previous[t.expandBucket], Bucket(hash(k), t.power));
    }
  }
}

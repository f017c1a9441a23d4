/** The locking argument of assoc.c and thread.c: item locks, the maintenance
lock, bucket migration while workers run, and the bulk iterator. */
module HashLocks {
  import opened Basics
  import opened HashTable

  /** What the threads do to the table, one atomic step under the right locks.
  Iteration steps belong to the one holder of the iterator. */
  datatype Step =
    | DoInsert(e: Entry)
    | DoDelete(key: string)
    | StartExpand(memory: bool)
    | DoMigrate
    | GetIterator
    | DoIterate
    | EndIterator

  /** Who holds the maintenance lock. The expansion thread gives it up only while
  it waits for work; an iterator holds it for its whole life. */
  datatype Holder = Nobody | Expander | Iterator

  /** assoc_iterator; `seen` records what assoc_iterate has returned so far and
  `rest` is the chain from the item called `next` on. */
  datatype Iter = Iter(bucket: nat, locked: bool, rest: seq<Entry>, seen: seq<Entry>)

  datatype Sys = Sys(t: Table, m: map<string, Entry>, holder: Holder, iter: Iter)

  /** item_lock: the lock of a hash value, when there are 2^power locks. */
  function Lock(hv: nat, lockPower: nat): nat { Bucket(hv, lockPower) }

  function EmptyTable(power: nat): Table {
    Table(power, seq(Pow2(power), _ => []), [], false, 0)
  }

  function Start(power: nat): Sys {
    Sys(EmptyTable(power), map[], Nobody, Iter(0, false, [], []))
  }

  /** The iterator holds the item lock that the hash value needs. */
  predicate Locked(s: Sys, hv: nat, lockPower: nat) {
    s.holder.Iterator? && s.iter.locked && Lock(hv, lockPower) == Lock(s.iter.bucket, lockPower)
  }

  predicate Enabled(hash: Hash, lockPower: nat, s: Sys, step: Step) {
    match step
    case DoInsert(e) => e.key !in s.m && !Locked(s, hash(e.key), lockPower)
    case DoDelete(k) => k in s.m && !Locked(s, hash(k), lockPower)
    case StartExpand(_) => s.holder.Nobody?
    case DoMigrate => s.holder.Expander?
    case GetIterator => s.holder.Nobody?
    case DoIterate => s.holder.Iterator?
    case EndIterator => s.holder.Iterator?
  }

  /** assoc_iterate. */
  function Advance(t: Table, it: Iter): Iter
    requires t.Shaped()
  {
    if it.locked then
      if it.rest != [] then it.(rest := it.rest[1..], seen := it.seen + [it.rest[0]])
      else it.(locked := false, bucket := it.bucket + 1)
    else if it.bucket < |t.primary| then
      var c := t.primary[it.bucket];
      if c != [] then it.(locked := true, rest := c[1..], seen := it.seen + [c[0]])
      else it.(bucket := it.bucket + 1)
    else it
  }

  /** assoc_iterate returns false. */
  predicate Exhausted(s: Sys) {
    s.holder.Iterator? && !s.iter.locked && s.iter.bucket >= |s.t.primary|
  }

  function Apply(hash: Hash, s: Sys, step: Step): Sys
    requires s.t.Shaped()
    requires step.DoMigrate? ==> s.t.expanding
  {
    match step
    case DoInsert(e) => s.(t := Insert(s.t, e, hash(e.key)), m := s.m[e.key := e])
    case DoDelete(k) => s.(t := Delete(s.t, k, hash(k)), m := s.m - {k})
    case StartExpand(memory) => s.(t := Expand(s.t, memory), holder := if memory then Expander else Nobody)
    case DoMigrate =>
      var t' := Migrate(hash, s.t);
      s.(t := t', holder := if t'.expanding then Expander else Nobody)
    case GetIterator => s.(holder := Iterator, iter := Iter(0, false, [], []))
    case DoIterate => s.(iter := Advance(s.t, s.iter))
    case EndIterator => s.(holder := Nobody)
  }

  /** What has been returned so far comes from buckets behind the cursor. */
  predicate Behind(hash: Hash, s: Sys, e: Entry) {
    var b := Bucket(hash(e.key), s.t.power);
    b < s.iter.bucket || (s.iter.locked && b == s.iter.bucket && e !in s.iter.rest)
  }

  ghost predicate IterOk(hash: Hash, s: Sys)
    requires s.t.Shaped()
  {
    && !s.t.expanding
    && NoDup(s.iter.seen)
    && (forall e :: e in s.iter.seen ==> Behind(hash, s, e))
    && (s.iter.locked ==> s.iter.bucket < |s.t.primary| && IsSuffix(s.iter.rest, s.t.primary[s.iter.bucket]))
  }

  ghost predicate IsSuffix(r: seq<Entry>, c: seq<Entry>) {
    |r| <= |c| && r == c[|c| - |r|..]
  }

  /** Between steps: the table stands for the map, expansion happens only while
  the expansion thread holds the maintenance lock, and there are fewer item
  locks than buckets. */
  ghost predicate Inv(hash: Hash, lockPower: nat, s: Sys) {
    && Represents(hash, s.t, s.m)
    && (s.t.expanding <==> s.holder.Expander?)
    && (if s.t.expanding then lockPower <= s.t.power - 1 else lockPower <= s.t.power)
    && (s.holder.Iterator? ==> IterOk(hash, s))
  }

  lemma StartInv(hash: Hash, lockPower: nat, power: nat)
    requires lockPower <= power
    ensures Inv(hash, lockPower, Start(power))
  {
    var t := EmptyTable(power);
    forall p | t.IsPlace(p) ensures ChainSound(hash, t, map[], p) {
      assert t.Chain(p) == [];
    }
  }

  /** Two hash values that share a chain share an item lock. */
  lemma ChainUnderOneLock(t: Table, h: nat, h': nat, lockPower: nat)
    requires t.Shaped() && t.Route(h) == t.Route(h')
    requires if t.expanding then lockPower <= t.power - 1 else lockPower <= t.power
    ensures Lock(h, lockPower) == Lock(h', lockPower)
  {
    var power := if t.Route(h).Old? then t.power - 1 else t.power;
    BucketOfBucket(h, lockPower, power);
    BucketOfBucket(h', lockPower, power);
  }

  /** Every item of the bucket being migrated has the item lock of the bucket
  number, so the one trylock covers all that migration touches. */
  lemma MigrationUnderOneLock(hash: Hash, t: Table, m: map<string, Entry>, e: Entry, lockPower: nat)
    requires Represents(hash, t, m) && t.expanding && lockPower <= t.power - 1
    requires e in t.previous[t.expandBucket]
    ensures Lock(hash(e.key), lockPower) == Lock(t.expandBucket, lockPower)
    ensures Lock(Bucket(hash(e.key), t.power), lockPower) == Lock(t.expandBucket, lockPower)
    ensures var b := Bucket(hash(e.key), t.power);
      b == t.expandBucket || b == t.expandBucket + Pow2(t.power - 1)
  {
    MigratedHome(hash, t, m, e);
    hide Represents, Bucket, Pow2;
    var hv := hash(e.key);
    BucketOfBucket(hv, lockPower, t.power - 1);
    BucketOfBucket(hv, lockPower, t.power);
    TwoHalves(hv, t.power - 1);
  }

  lemma MigratedHome(hash: Hash, t: Table, m: map<string, Entry>, e: Entry)
    requires Represents(hash, t, m) && t.expanding && t.power > 0 && t.expandBucket < |t.previous|
    requires e in t.previous[t.expandBucket]
    ensures Bucket(hash(e.key), t.power - 1) == t.expandBucket
  {
    hide Bucket, Pow2;
    var p := Old(t.expandBucket);
    assert t.IsPlace(p) && ChainSound(hash, t, m, p) && e in t.Chain(p);
    assert Homed(hash, t, m, p, e);
  }

  /** One more bit of the hash value leaves the bucket number or adds the high bit. */
  lemma TwoHalves(hv: nat, power: nat)
    ensures var b := Bucket(hv, power); var b' := Bucket(hv, power + 1); b' == b || b' == b + Pow2(power)
  {
    BucketOfBucket(hv, power, power + 1);
    assert Pow2(power + 1) == 2 * Pow2(power);
    HighBit(Bucket(hv, power + 1), Pow2(power));
  }

  lemma HighBit(b: nat, half: nat)
    requires half > 0 && b < 2 * half
    ensures b == b % half || b == b % half + half
  {
    if b >= half { DivUnique(b, half, 1, b - half); } else { DivUnique(b, half, 0, b); }
  }

  lemma {:induction false} MoveAllMisses(hash: Hash, power: nat, primary: seq<seq<Entry>>, items: seq<Entry>, b: nat)
    requires |primary| == Pow2(power) && b < |primary|
    requires forall e :: e in items ==> Bucket(hash(e.key), power) != b
    ensures MoveAll(hash, power, primary, items)[b] == primary[b]
    decreases |items|
  {
    if items != [] {
      var d := Bucket(hash(items[0].key), power);
      MoveAllMisses(hash, power, primary[d := [items[0]] + primary[d]], items[1..], b);
    }
  }

  /** A thread that holds an item lock never sees the route or the chain of its
  hash value change under migration of a bucket with another lock. */
  lemma MigrateLeavesOthers(hash: Hash, t: Table, m: map<string, Entry>, hv: nat, lockPower: nat)
    requires Represents(hash, t, m) && t.expanding && lockPower <= t.power - 1
    requires Lock(hv, lockPower) != Lock(t.expandBucket, lockPower)
    ensures Migrate(hash, t).Shaped() && Migrate(hash, t).Route(hv) == t.Route(hv)
    ensures Migrate(hash, t).Chain(t.Route(hv)) == t.Chain(t.Route(hv))
  {
    MigrateRoutes(hash, t, hv);
    BucketOfBucket(hv, lockPower, t.power - 1);
    BucketOfBucket(hv, lockPower, t.power);
    var p := t.Route(hv);
    if p.Primary? {
      forall e | e in t.previous[t.expandBucket] ensures Bucket(hash(e.key), t.power) != p.bucket {
        MigrationUnderOneLock(hash, t, m, e, lockPower);
      }
      MoveAllMisses(hash, t.power, t.primary, t.previous[t.expandBucket], p.bucket);
    }
  }

  /** The item lock a step takes. */
  function StepLock(hash: Hash, lockPower: nat, s: Sys, step: Step): nat {
    match step
    case DoInsert(e) => Lock(hash(e.key), lockPower)
    case DoDelete(k) => Lock(hash(k), lockPower)
    case _ => Lock(s.t.expandBucket, lockPower)
  }

  /** The steps other threads can take while a worker holds a lock: expansion
  never starts then, because it pauses all workers first. */
  predicate Worker(step: Step) { step.DoInsert? || step.DoDelete? || step.DoMigrate? }

  function Final(hash: Hash, lockPower: nat, s: Sys, steps: seq<Step>): (r: Sys)
    requires IsRun(hash, lockPower, s, steps)
    decreases |steps|
  {
    if steps == [] then s else Final(hash, lockPower, Apply(hash, s, steps[0]), steps[1..])
  }

  predicate IsRun(hash: Hash, lockPower: nat, s: Sys, steps: seq<Step>)
    decreases |steps|
  {
    steps == [] || (
      && s.t.Shaped()
      && (steps[0].DoMigrate? ==> s.t.expanding)
      && Enabled(hash, lockPower, s, steps[0])
      && IsRun(hash, lockPower, Apply(hash, s, steps[0]), steps[1..]))
  }

  lemma {:induction false} RunInv(hash: Hash, lockPower: nat, s: Sys, steps: seq<Step>)
    requires Inv(hash, lockPower, s) && IsRun(hash, lockPower, s, steps)
    ensures Inv(hash, lockPower, Final(hash, lockPower, s, steps))
    decreases |steps|
  {
    if steps != [] {
      hide Inv;
      ApplyInv(hash, lockPower, s, steps[0]);
      RunInv(hash, lockPower, Apply(hash, s, steps[0]), steps[1..]);
    }
  }

  /** Whatever the interleaving, lookups answer as the finite map says. */
  lemma TableIsAMap(hash: Hash, lockPower: nat, power: nat, steps: seq<Step>, key: string)
    requires lockPower <= power && IsRun(hash, lockPower, Start(power), steps)
    ensures var s := Final(hash, lockPower, Start(power), steps);
      s.t.Shaped() && Find(s.t, key, hash(key)) == if key in s.m then Some(s.m[key]) else None
  {
    StartInv(hash, lockPower, power);
    RunInv(hash, lockPower, Start(power), steps);
    var s := Final(hash, lockPower, Start(power), steps);
    FindRefines(hash, s.t, s.m, key);
  }

  lemma ApplyInv(hash: Hash, lockPower: nat, s: Sys, step: Step)
    requires Inv(hash, lockPower, s) && Enabled(hash, lockPower, s, step)
    ensures Inv(hash, lockPower, Apply(hash, s, step))
  {
    hide IterOk, Represents;
    TableShaped(hash, s);
    match step
    case DoInsert(e) =>
      InsertRefines(hash, s.t, s.m, e);
      if s.holder.Iterator? {
        WorkerKeepsIter(hash, lockPower, s, step, hash(e.key), [e] + s.t.Chain(s.t.Route(hash(e.key))));
      }
    case DoDelete(k) =>
      DeleteRefines(hash, s.t, s.m, k);
      var c := s.t.Chain(s.t.Route(hash(k)));
      var i := Position(c, k);
      FindRefines(hash, s.t, s.m, k);
      if s.holder.Iterator? && i < |c| { WorkerKeepsIter(hash, lockPower, s, step, hash(k), c[..i] + c[i + 1..]); }
    case StartExpand(memory) =>
      ExpandRefines(hash, s.t, s.m, memory);
    case DoMigrate =>
      MigrateRefines(hash, s.t, s.m);
    case GetIterator =>
      NewIterOk(hash, s);
    case DoIterate =>
      AdvanceKeepsIter(hash, s);
    case EndIterator =>
  }

  lemma TableShaped(hash: Hash, s: Sys)
    requires Represents(hash, s.t, s.m)
    ensures s.t.Shaped()
  {}

  lemma NewIterOk(hash: Hash, s: Sys)
    requires s.t.Shaped() && !s.t.expanding
    ensures IterOk(hash, Apply(hash, s, GetIterator))
  {}

  /** A worker whose item lock the iterator does not hold leaves the chain that
  the iterator is in alone. */
  lemma WorkerKeepsIter(hash: Hash, lockPower: nat, s: Sys, step: Step, hv: nat, c: seq<Entry>)
    requires s.t.Shaped() && s.holder.Iterator? && IterOk(hash, s) && lockPower <= s.t.power
    requires !Locked(s, hv, lockPower)
    requires step.DoInsert? || step.DoDelete?
    requires Apply(hash, s, step).t == s.t.SetChain(s.t.Route(hv), c)
    ensures Apply(hash, s, step).t.Shaped() && IterOk(hash, Apply(hash, s, step))
  {
    var s' := Apply(hash, s, step);
    BucketOfBucket(hv, lockPower, s.t.power);
    assert s.iter.locked ==> s'.t.primary[s.iter.bucket] == s.t.primary[s.iter.bucket];
    forall e | e in s'.iter.seen ensures Behind(hash, s', e) {
      assert Behind(hash, s, e);
    }
  }

  /** An entry in a bucket has that bucket's number. */
  lemma InBucket(hash: Hash, s: Sys, b: nat, e: Entry)
    requires Represents(hash, s.t, s.m) && !s.t.expanding && b < |s.t.primary| && e in s.t.primary[b]
    ensures Bucket(hash(e.key), s.t.power) == b
  {
    assert ChainSound(hash, s.t, s.m, Primary(b)) && e in s.t.Chain(Primary(b));
    assert Homed(hash, s.t, s.m, Primary(b), e);
  }

  lemma NoDupBucket(hash: Hash, s: Sys, b: nat)
    requires Represents(hash, s.t, s.m) && b < |s.t.primary|
    ensures NoDup(s.t.primary[b])
  {
    assert ChainSound(hash, s.t, s.m, Primary(b));
  }

  /** The next entry of the chain that the cursor is in has not been returned. */
  lemma NextUnseen(hash: Hash, s: Sys, e: Entry)
    requires Represents(hash, s.t, s.m) && s.holder.Iterator? && IterOk(hash, s)
    requires s.iter.bucket < |s.t.primary| && e in (if s.iter.locked then s.iter.rest else s.t.primary[s.iter.bucket])
    ensures e in s.t.primary[s.iter.bucket] && Bucket(hash(e.key), s.t.power) == s.iter.bucket && e !in s.iter.seen
  {
    hide Represents, Bucket;
    InBucket(hash, s, s.iter.bucket, e);
    assert !Behind(hash, s, e);
  }

  /** The entry e of the cursor's chain is returned. */
  lemma TakeKeepsIter(hash: Hash, s: Sys, e: Entry, rest: seq<Entry>)
    requires s.t.Shaped() && IterOk(hash, s) && s.iter.bucket < |s.t.primary|
    requires NoDup(s.t.primary[s.iter.bucket]) && IsSuffix([e] + rest, s.t.primary[s.iter.bucket])
    requires s.iter.locked ==> s.iter.rest == [e] + rest
    requires Bucket(hash(e.key), s.t.power) == s.iter.bucket && e !in s.iter.seen
    ensures IterOk(hash, s.(iter := Iter(s.iter.bucket, true, rest, s.iter.seen + [e])))
  {
    hide Bucket;
    var s' := s.(iter := Iter(s.iter.bucket, true, rest, s.iter.seen + [e]));
    var c, n := s.t.primary[s.iter.bucket], |rest|;
    assert c[|c| - n - 1..] == [e] + rest && c[|c| - n..] == rest;
    assert c[|c| - n - 1] == e && forall k | 0 <= k < n :: rest[k] == c[|c| - n + k];
    assert e !in rest;
    forall x | x in s'.iter.seen ensures Behind(hash, s', x) {
      if x in s.iter.seen { assert Behind(hash, s, x); }
    }
  }

  lemma AdvanceKeepsIter(hash: Hash, s: Sys)
    requires Represents(hash, s.t, s.m) && s.holder.Iterator? && s.t.Shaped() && IterOk(hash, s)
    ensures IterOk(hash, Apply(hash, s, DoIterate))
  {
    hide Represents, Bucket;
    var it := s.iter;
    var s' := Apply(hash, s, DoIterate);
    if !it.locked && it.bucket >= |s.t.primary| { return; }
    var c := s.t.primary[it.bucket];
    NoDupBucket(hash, s, it.bucket);
    var next := if it.locked then it.rest else c;
    if next == [] {
      forall e | e in it.seen ensures Behind(hash, s', e) {
        assert Behind(hash, s, e);
      }
    } else {
      NextUnseen(hash, s, next[0]);
      assert next == [next[0]] + next[1..];
      TakeKeepsIter(hash, s, next[0], next[1..]);
    }
  }

  /** Behind the cursor, everything present has been returned. */
  ghost predicate Covered(hash: Hash, s: Sys, e: Entry) {
    s.holder.Iterator? && e.key in s.m && s.m[e.key] == e && (Behind(hash, s, e) ==> e in s.iter.seen)
  }

  lemma PresentInBucket(hash: Hash, s: Sys, e: Entry)
    requires Represents(hash, s.t, s.m) && !s.t.expanding && e.key in s.m && s.m[e.key] == e
    ensures e in s.t.primary[Bucket(hash(e.key), s.t.power)]
  {
    assert Found(hash, s.t, s.m, e.key);
  }

  lemma ApplyCovers(hash: Hash, lockPower: nat, s: Sys, step: Step, e: Entry)
    requires Inv(hash, lockPower, s) && Enabled(hash, lockPower, s, step) && Covered(hash, s, e)
    requires step != DoDelete(e.key) && step != EndIterator
    ensures Covered(hash, Apply(hash, s, step), e)
  {
    hide Represents, Bucket;
    if step.DoIterate? {
      PresentInBucket(hash, s, e);
    }
  }

  /** Iteration is complete and repeats nothing: an item that is in the table
  when the iterator is taken and stays until assoc_iterate returns false has
  been returned exactly once by then, whatever the workers do meanwhile. */
  lemma IterationVisitsOnce(hash: Hash, lockPower: nat, s: Sys, steps: seq<Step>, e: Entry)
    requires Inv(hash, lockPower, s) && s.holder.Nobody? && e.key in s.m && s.m[e.key] == e
    requires IsRun(hash, lockPower, s, [GetIterator] + steps)
    requires DoDelete(e.key) !in steps && EndIterator !in steps
    requires Exhausted(Final(hash, lockPower, s, [GetIterator] + steps))
    ensures var seen := Final(hash, lockPower, s, [GetIterator] + steps).iter.seen;
      NoDup(seen) && e in seen
  {
    var s1 := Apply(hash, s, GetIterator);
    ApplyInv(hash, lockPower, s, GetIterator);
    assert ([GetIterator] + steps)[1..] == steps;
    RunCovers(hash, lockPower, s1, steps, e);
    RunInv(hash, lockPower, s1, steps);
  }

  lemma {:induction false} RunCovers(hash: Hash, lockPower: nat, s: Sys, steps: seq<Step>, e: Entry)
    requires Inv(hash, lockPower, s) && IsRun(hash, lockPower, s, steps) && Covered(hash, s, e)
    requires DoDelete(e.key) !in steps && EndIterator !in steps
    ensures Covered(hash, Final(hash, lockPower, s, steps), e)
    decreases |steps|
  {
    if steps != [] {
      hide Inv, Covered;
      ApplyCovers(hash, lockPower, s, steps[0], e);
      ApplyInv(hash, lockPower, s, steps[0]);
      RunCovers(hash, lockPower, Apply(hash, s, steps[0]), steps[1..], e);
    }
  }

  /** While an iterator is held the table is not expanding. */
  lemma NoExpansionWhileIterating(hash: Hash, lockPower: nat, power: nat, steps: seq<Step>)
    requires lockPower <= power && IsRun(hash, lockPower, Start(power), steps)
    ensures var s := Final(hash, lockPower, Start(power), steps); s.holder.Iterator? ==> !s.t.expanding
  {
    StartInv(hash, lockPower, power);
    RunInv(hash, lockPower, Start(power), steps);
  }

  /** A step under another item lock leaves route and chain of hv alone. */
  lemma StepLeavesOthers(hash: Hash, lockPower: nat, s: Sys, step: Step, hv: nat)
    requires Inv(hash, lockPower, s) && Enabled(hash, lockPower, s, step) && Worker(step)
    requires StepLock(hash, lockPower, s, step) != Lock(hv, lockPower)
    ensures Apply(hash, s, step).t.Shaped() && Apply(hash, s, step).t.Route(hv) == s.t.Route(hv)
    ensures Apply(hash, s, step).t.Chain(s.t.Route(hv)) == s.t.Chain(s.t.Route(hv))
  {
    InvFacts(hash, lockPower, s);
    hide Inv, Represents;
    if step.DoMigrate? {
      MigrateLeavesOthers(hash, s.t, s.m, hv, lockPower);
      hide Migrate;
    } else if step.DoInsert? {
      var h := hash(step.e.key);
      SetChainLeavesOthers(s.t, h, [step.e] + s.t.Chain(s.t.Route(h)), hv, lockPower);
      hide Migrate;
    } else {
      DeleteLeavesOthers(s.t, step.key, hash(step.key), hv, lockPower);
      hide Migrate, Delete;
    }
  }

  lemma DeleteLeavesOthers(t: Table, key: string, h: nat, hv: nat, lockPower: nat)
    requires t.Shaped() && Lock(h, lockPower) != Lock(hv, lockPower)
    requires if t.expanding then lockPower <= t.power - 1 else lockPower <= t.power
    ensures var t' := Delete(t, key, h);
      t'.Shaped() && t'.Route(hv) == t.Route(hv) && t'.Chain(t.Route(hv)) == t.Chain(t.Route(hv))
  {
    var c := t.Chain(t.Route(h));
    var i := Position(c, key);
    hide Lock;
    if i < |c| { SetChainLeavesOthers(t, h, c[..i] + c[i + 1..], hv, lockPower); }
  }

  lemma InvFacts(hash: Hash, lockPower: nat, s: Sys)
    requires Inv(hash, lockPower, s)
    ensures Represents(hash, s.t, s.m) && s.t.Shaped()
    ensures if s.t.expanding then lockPower <= s.t.power - 1 else lockPower <= s.t.power
  {}

  lemma SetChainLeavesOthers(t: Table, h: nat, c: seq<Entry>, hv: nat, lockPower: nat)
    requires t.Shaped() && Lock(h, lockPower) != Lock(hv, lockPower)
    requires if t.expanding then lockPower <= t.power - 1 else lockPower <= t.power
    ensures var t' := t.SetChain(t.Route(h), c);
      t'.Shaped() && t'.Route(hv) == t.Route(hv) && t'.Chain(t.Route(hv)) == t.Chain(t.Route(hv))
  {
    if t.Route(h) == t.Route(hv) {
      ChainUnderOneLock(t, h, hv, lockPower);
    }
    hide Lock;
    SetChainRoutes(t, t.Route(h), c, hv);
    SetChainChains(t, t.Route(h), c, t.Route(hv));
  }

  /** The steps of others while one thread holds the item lock of hv. */
  ghost predicate OthersRun(hash: Hash, lockPower: nat, s: Sys, steps: seq<Step>, hv: nat)
    decreases |steps|
  {
    steps == [] || (
      && s.t.Shaped()
      && (steps[0].DoMigrate? ==> s.t.expanding)
      && Enabled(hash, lockPower, s, steps[0]) && Worker(steps[0])
      && StepLock(hash, lockPower, s, steps[0]) != Lock(hv, lockPower)
      && OthersRun(hash, lockPower, Apply(hash, s, steps[0]), steps[1..], hv))
  }

  lemma {:induction false} OthersAreARun(hash: Hash, lockPower: nat, s: Sys, steps: seq<Step>, hv: nat)
    requires OthersRun(hash, lockPower, s, steps, hv)
    ensures IsRun(hash, lockPower, s, steps)
    decreases |steps|
  {
    if steps != [] { OthersAreARun(hash, lockPower, Apply(hash, s, steps[0]), steps[1..], hv); }
  }

  /** The old-or-new decision a thread takes under its item lock stays right for
  as long as it holds the lock, and so does the chain it leads to. */
  lemma {:induction false} HeldLockFreezesRoute(hash: Hash, lockPower: nat, s: Sys, steps: seq<Step>, hv: nat)
    requires Inv(hash, lockPower, s) && OthersRun(hash, lockPower, s, steps, hv)
    ensures IsRun(hash, lockPower, s, steps)
    ensures var t := Final(hash, lockPower, s, steps).t;
      t.Shaped() && t.Route(hv) == s.t.Route(hv) && t.Chain(t.Route(hv)) == s.t.Chain(s.t.Route(hv))
    decreases |steps|
  {
    OthersAreARun(hash, lockPower, s, steps, hv);
    if steps != [] {
      StepLeavesOthers(hash, lockPower, s, steps[0], hv);
      ApplyInv(hash, lockPower, s, steps[0]);
      HeldLockFreezesRoute(hash, lockPower, Apply(hash, s, steps[0]), steps[1..], hv);
    }
  }
}

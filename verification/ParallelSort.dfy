/** psort.c: threads sort equal shares of a global array, then merge neighbouring
runs in rounds until one run is left. */
module ParallelSort {
  import opened StableSort

  /** An order in which the threads 0 .. n-1 of a round run. */
  ghost predicate IsSchedule(order: seq<nat>, n: nat) {
    && (forall i :: 0 <= i < |order| ==> order[i] < n)
    && (forall i, j :: 0 <= i < j < |order| ==> order[i] != order[j])
    && (forall t :: 0 <= t < n ==> t in order)
  }

  /** Where run i of `count` runs of nominal length `size` starts and ends. */
  function RunStart(i: nat, size: nat): nat { i * size }

  function RunEnd(i: nat, size: nat, count: nat, total: nat): nat {
    if i + 1 == count then total else RunStart(i + 1, size)
  }

  lemma RunStartOrder(i: nat, j: nat, size: nat)
    requires i <= j
    ensures RunStart(i, size) <= RunStart(j, size)
    ensures RunStart(j + 1, size) == RunStart(j, size) + size
    ensures RunStart(0, size) == 0
    ensures RunStart(j, 2 * size) == RunStart(2 * j, size)
  {}

  /** Runs are in bounds, and different runs do not overlap. */
  lemma RunBounds(i: nat, j: nat, size: nat, count: nat, total: nat)
    requires i < count && j < count && RunStart(count - 1, size) <= total
    ensures RunStart(i, size) <= RunEnd(i, size, count, total) <= total
    ensures i < j ==> RunEnd(i, size, count, total) <= RunStart(j, size)
  {
    RunStartOrder(i, i, size);
    if i + 1 < count { RunStartOrder(i + 1, count - 1, size); }
    if i < j { RunStartOrder(i + 1, j, size); }
    if i + 1 == count { RunStartOrder(i, count - 1, size); }
  }

  ghost predicate RunSorted(s: seq<Record>, i: nat, size: nat, count: nat) {
    var lo, hi := RunStart(i, size), RunEnd(i, size, count, |s|);
    lo <= hi <= |s| && Sorted(s[lo..hi])
  }

  ghost predicate RunsSorted(s: seq<Record>, size: nat, count: nat) {
    forall i :: 0 <= i < count ==> RunSorted(s, i, size, count)
  }

  /** The two sequences agree outside lo .. hi. */
  ghost predicate SameOutside(r: seq<Record>, s: seq<Record>, lo: nat, hi: nat) {
    |r| == |s| && lo <= hi <= |s| && forall i :: 0 <= i < |s| && !(lo <= i < hi) ==> r[i] == s[i]
  }

  lemma OutsideSlice(r: seq<Record>, s: seq<Record>, lo: nat, hi: nat, a: nat, b: nat)
    requires SameOutside(r, s, lo, hi)
    requires a <= b <= |s| && (b <= lo || hi <= a)
    ensures r[a..b] == s[a..b]
  {}

  lemma TakeLeft(l: seq<Record>, r: seq<Record>, i: nat, j: nat)
    requires i < |l| && j <= |r| && (j < |r| ==> l[i].key <= r[j].key)
    ensures StableSort.Merge(l[i..], r[j..]) == [l[i]] + StableSort.Merge(l[i + 1..], r[j..])
  {
    assert l[i..][1..] == l[i + 1..];
    if j == |r| {
      assert l[i..] == [l[i]] + l[i + 1..];
    }
  }

  lemma TakeRight(l: seq<Record>, r: seq<Record>, i: nat, j: nat)
    requires i <= |l| && j < |r| && (i < |l| ==> r[j].key < l[i].key)
    ensures StableSort.Merge(l[i..], r[j..]) == [r[j]] + StableSort.Merge(l[i..], r[j + 1..])
  {
    assert r[j..][1..] == r[j + 1..];
    if i == |l| {
      assert r[j..] == [r[j]] + r[j + 1..];
    }
  }

  /** A round merges run 2t with run 2t+1 for every t < count/2. */
  function Merges(count: nat): nat { count / 2 }

  /** Where thread t of a merge round reads and writes. */
  function PairEnd(t: nat, size: nat, count: nat, total: nat): nat {
    if count % 2 == 0 && t + 1 == Merges(count) then total else RunStart(2 * t + 2, size)
  }

  /** The bounds that threads_merge computes are the bounds of two neighbouring
  runs of the round, and threads of one round stay apart. */
  lemma PairBounds(t: nat, u: nat, size: nat, count: nat, total: nat)
    requires t < Merges(count) && u < Merges(count) && RunStart(count - 1, size) <= total
    ensures RunStart(2 * t, size) <= RunStart(2 * t + 1, size) <= PairEnd(t, size, count, total) <= total
    ensures PairEnd(t, size, count, total) == RunEnd(2 * t + 1, size, count, total)
    ensures t < u ==> PairEnd(t, size, count, total) <= RunStart(2 * u, size)
    ensures RunStart(2 * t, size) == t * (2 * size)
  {
    RunBounds(2 * t, 2 * t + 1, size, count, total);
    RunBounds(2 * t + 1, 2 * t + 1, size, count, total);
    if t < u { RunBounds(2 * t + 1, 2 * u, size, count, total); }
    RunStartOrder(t, t, size);
  }

  /** The index arithmetic of threads_merge. */
  lemma ThreadBounds(t: nat, num: nat, count: nat, size: nat, total: nat)
    requires num == 2 * size && t < Merges(count) && RunStart(count - 1, size) <= total
    ensures t * num == RunStart(2 * t, size) && t * num + num / 2 == RunStart(2 * t + 1, size)
    ensures PairEnd(t, size, count, total) ==
      if count % 2 != 0 || t != count / 2 - 1 then t * num + num else total
    ensures RunStart(2 * t, size) <= RunStart(2 * t + 1, size) <= PairEnd(t, size, count, total) <= total
  {
    PairBounds(t, t, size, count, total);
    RunStartOrder(2 * t, 2 * t, size);
    RunStartOrder(2 * t + 1, 2 * t + 1, size);
  }

  /** What the next round starts from, once every pair is merged. */
  lemma NextRound(s: seq<Record>, size: nat, count: nat)
    requires count >= 1 && RunStart(count - 1, size) <= |s|
    requires forall t :: 0 <= t < Merges(count) ==> PairSorted(s, t, size, count)
    requires count % 2 == 1 ==> RunSorted(s, count - 1, size, count)
    ensures RunsSorted(s, 2 * size, count - Merges(count))
    ensures RunStart(count - Merges(count) - 1, 2 * size) <= |s|
  {
    var half := count - Merges(count);
    RunStartOrder(half - 1, half - 1, size);
    if count % 2 == 0 {
      RunStartOrder(2 * (half - 1), count - 1, size);
    }
    forall i | 0 <= i < half ensures RunSorted(s, i, 2 * size, half) {
      RunStartOrder(i, i, size);
      RunStartOrder(i + 1, i + 1, size);
      if i < Merges(count) {
        assert PairSorted(s, i, size, count);
      }
    }
  }

  ghost predicate PairSorted(s: seq<Record>, t: nat, size: nat, count: nat) {
    var lo, hi := RunStart(2 * t, size), PairEnd(t, size, count, |s|);
    lo <= hi <= |s| && Sorted(s[lo..hi])
  }

  /** A merge in progress: what was there, the slice lo .. hi it fills, and what
  it has to become. */
  datatype MergeGoal = MergeGoal(was: seq<Record>, left: nat, hi: nat, goal: seq<Record>) {
    ghost predicate InProgress(s: seq<Record>, k: nat, rest: seq<Record>) {
      SameOutside(s, was, left, hi) && left <= k <= hi && s[left..k] + rest == goal
    }

    lemma Begin(l: seq<Record>, r: seq<Record>)
      requires left <= hi <= |was| && goal == StableSort.Merge(l, r)
      ensures InProgress(was, left, StableSort.Merge(l[0..], r[0..]))
    {
      assert was[left..left] == [] && l[0..] == l && r[0..] == r;
    }

    lemma Finish(s: seq<Record>)
      requires InProgress(s, hi, [])
      ensures SameOutside(s, was, left, hi) && left <= hi <= |s| && s[left..hi] == goal
    {
      assert s[left..hi] + [] == s[left..hi];
    }
  }

  lemma MergeEmpty(s: seq<Record>)
    ensures StableSort.Merge(s, []) == s == StableSort.Merge([], s)
  {}

  class Sorter {
    const records: array<Record>
    var procs: nat

    constructor (records: array<Record>)
      ensures this.records == records
    {
      this.records := records;
    }

    /** The copy loops of merge. */
    method Copy(from: nat, len: nat) returns (a: array<Record>)
      requires from + len <= records.Length
      ensures fresh(a) && a[..] == records[from..from + len]
    {
      a := new Record[len];
      for i := 0 to len
        invariant forall k :: 0 <= k < i ==> a[k] == records[from + k]
      {
        a[i] := records[from + i];
      }
    }

    /** merge: joins records[left..=mid] and records[mid+1..=right] in place. */
    method Merge(left: int, mid: int, right: int)
      requires 0 <= left <= mid + 1 <= right + 1 <= records.Length
      modifies records
      ensures records[left..right + 1] ==
        StableSort.Merge(old(records[left..mid + 1]), old(records[mid + 1..right + 1]))
      ensures SameOutside(records[..], old(records[..]), left, right + 1)
    {
      hide *;
      ghost var was := records[..];
      var l := Copy(left, mid - left + 1);
      var r := Copy(mid + 1, right - mid);
      ghost var m := MergeGoal(was, left, right + 1, StableSort.Merge(l[..], r[..]));
      m.Begin(l[..], r[..]);
      assert was[left..mid + 1] == l[..] && was[mid + 1..right + 1] == r[..];
      var i, j := MergeBoth(l, r, left, m);
      if i == l.Length {
        assert l[i..] == [];
        MergeEmpty(r[j..]);
        Drain(r, j, left + i + j, m);
      } else {
        assert r[j..] == [];
        MergeEmpty(l[i..]);
        Drain(l, i, left + i + j, m);
      }
      m.Finish(records[..]);
    }

    /** The loop of merge that runs while both copies have records left. */
    method MergeBoth(l: array<Record>, r: array<Record>, left: nat, ghost m: MergeGoal) returns (i: nat, j: nat)
      requires l != records && r != records
      requires left == m.left && m.hi == left + l.Length + r.Length <= records.Length
      requires m.InProgress(records[..], left, StableSort.Merge(l[0..], r[0..]))
      modifies records
      ensures i <= l.Length && j <= r.Length && (i == l.Length || j == r.Length)
      ensures m.InProgress(records[..], left + i + j, StableSort.Merge(l[i..], r[j..]))
    {
      hide *;
      i, j := 0, 0;
      var k := left;
      while i < l.Length && j < r.Length
        invariant i <= l.Length && j <= r.Length && k == left + i + j
        invariant m.InProgress(records[..], k, StableSort.Merge(l[i..], r[j..]))
      {
        if l[i].key <= r[j].key {
          TakeLeft(l[..], r[..], i, j);
          Put(k, l[i], m, StableSort.Merge(l[i + 1..], r[j..]));
          i := i + 1;
        } else {
          TakeRight(l[..], r[..], i, j);
          Put(k, r[j], m, StableSort.Merge(l[i..], r[j + 1..]));
          j := j + 1;
        }
        k := k + 1;
      }
    }

    /** The loop of merge that writes back what one copy still holds. */
    method Drain(a: array<Record>, from: nat, at: nat, ghost m: MergeGoal)
      requires a != records && from <= a.Length && m.hi == at + (a.Length - from) <= records.Length
      requires m.InProgress(records[..], at, a[from..])
      modifies records
      ensures m.InProgress(records[..], m.hi, [])
    {
      var i, k := from, at;
      while i < a.Length
        invariant from <= i <= a.Length && k == at + (i - from)
        invariant m.InProgress(records[..], k, a[i..])
      {
        assert a[i..] == [a[i]] + a[i + 1..];
        hide *;
        Put(k, a[i], m, a[i + 1..]);
        k, i := k + 1, i + 1;
      }
    }

    /** records[k] = x, the next record of a merge in progress. */
    method Put(k: nat, x: Record, ghost m: MergeGoal, ghost rest: seq<Record>)
      requires m.left <= k < m.hi <= records.Length
      requires m.InProgress(records[..], k, [x] + rest)
      modifies records
      ensures m.InProgress(records[..], k + 1, rest)
    {
      records[k] := x;
      assert records[..][m.left..k + 1] == old(records[..])[m.left..k] + [x];
    }

    /** mergeSort. */
    method MergeSort(left: int, right: int)
      requires 0 <= left <= right + 1 <= records.Length
      modifies records
      ensures StableSortOf(records[left..right + 1], old(records[left..right + 1]))
      ensures SameOutside(records[..], old(records[..]), left, right + 1)
      decreases right - left
    {
      hide SameOutside, StableSortOf, StableSort.Merge;
      if left >= right {
        NothingToSort(records[..], left, right + 1);
        assert records[..][left..right + 1] == records[left..right + 1];
        return;
      }
      var mid := left + (right - left) / 2;
      ghost var s0 := records[..];
      MergeSort(left, mid);
      ghost var s1 := records[..];
      MergeSort(mid + 1, right);
      ghost var s2 := records[..];
      Merge(left, mid, right);
      MergeSortStep(s0, s1, s2, records[..], left, mid + 1, right + 1);
    }

    ghost predicate Shares(n: nat)
      reads this
    {
      procs > 0 && RunStart(procs - 1, n / procs) <= n
    }

    /** threads_mergeSort: thread t sorts its share, the last one also the rest. */
    method ThreadMergeSort(t: nat)
      requires t < procs && Shares(records.Length)
      modifies records
      ensures ThreadDone(records[..], old(records[..]), t, records.Length / procs, procs)
    {
      var size := records.Length / procs;
      ShareBounds(t, size, procs, records.Length);
      hide *;
      ghost var was := records[..];
      var left := t * size;
      var right := if t == procs - 1 then records.Length - 1 else left + size - 1;
      MergeSort(left, right);
      assert records[..][left..right + 1] == records[left..right + 1] &&
          was[left..right + 1] == old(records[left..right + 1]);
      ShareDone(records[..], was, t, size, procs);
    }

    /** The first phase: every thread sorts its share, in any order. */
    method SortShares(order: seq<nat>)
      requires Shares(records.Length) && IsSchedule(order, procs)
      modifies records
      ensures RunsSorted(records[..], records.Length / procs, procs)
      ensures SameByKey(records[..], old(records[..]))
    {
      var size := records.Length / procs;
      ghost var was := records[..];
      for i := 0 to |order|
        invariant SameByKey(records[..], was)
        invariant forall u :: 0 <= u < i ==> RunSorted(records[..], order[u], size, procs)
      {
        hide SameByKey, RunSorted, RunStart, ThreadDone;
        ghost var before := records[..];
        ThreadMergeSort(order[i]);
        ThreadDoneFacts(records[..], before, order[i], size, procs);
        forall u | 0 <= u < i ensures RunSorted(records[..], order[u], size, procs) {
          OtherRunKept(records[..], before, order[i], order[u], size, procs);
        }
        SameByKeyTrans(records[..], before, was);
      }
      hide RunSorted;
      AllThreadsRan(records[..], order, size, procs);
    }

    /** threads_merge. */
    method ThreadMerge(t: nat, num: nat, count: nat, ghost size: nat)
      requires num == 2 * size && t < Merges(count) && RunStart(count - 1, size) <= records.Length
      requires RunSorted(records[..], 2 * t, size, count) && RunSorted(records[..], 2 * t + 1, size, count)
      modifies records
      ensures MergeDone(records[..], old(records[..]), t, size, count)
    {
      hide *;
      ghost var was := records[..];
      var left, mid, right := MergeArguments(t, num, count, size);
      Merge(left, mid, right);
      PairMerged(records[..], was, t, size, count);
    }

    /** The bounds that threads_merge computes: the last pair takes the rest. */
    method MergeArguments(t: nat, num: nat, count: nat, ghost size: nat) returns (left: nat, mid: int, right: int)
      requires num == 2 * size && t < Merges(count) && RunStart(count - 1, size) <= records.Length
      ensures left == RunStart(2 * t, size) && mid + 1 == RunStart(2 * t + 1, size)
      ensures right + 1 == PairEnd(t, size, count, records.Length)
      ensures left <= mid + 1 <= right + 1 <= records.Length
    {
      ThreadBounds(t, num, count, size, records.Length);
      hide *;
      left := t * num;
      mid := left + num / 2 - 1;
      right := left + num - 1;
      var last := !(count % 2 != 0 || t != count / 2 - 1);
      if last {
        right := records.Length - 1;
      }
    }

    /** A merge round, its threads in any order. */
    method MergeRound(order: seq<nat>, num: nat, count: nat, ghost size: nat)
      requires num == 2 * size && count >= 2 && RunStart(count - 1, size) <= records.Length
      requires IsSchedule(order, Merges(count)) && RunsSorted(records[..], size, count)
      modifies records
      ensures RunsSorted(records[..], 2 * size, count - Merges(count))
      ensures RunStart(count - Merges(count) - 1, 2 * size) <= records.Length
      ensures SameByKey(records[..], old(records[..]))
    {
      ghost var was := records[..];
      for i := 0 to |order|
        invariant SameByKey(records[..], was)
        invariant RoundState(records[..], order, i, size, count)
      {
        hide SameByKey, RunSorted, PairSorted, RunStart, MergeDone, RoundState;
        ghost var before := records[..];
        RoundNext(before, order, i, size, count);
        ThreadMerge(order[i], num, count, size);
        RoundStep(records[..], before, order, i, size, count);
        SameByKeyTrans(records[..], before, was);
      }
      hide SameByKey, RunSorted, PairSorted, RunStart;
      RoundOver(records[..], order, size, count);
      NextRound(records[..], size, count);
    }

    /** multithread_sort, on a machine with `cpus` processors and whatever order
    the scheduler picks for the n threads of a round. */
    method MultithreadSort(cpus: nat, pick: (nat, nat) -> seq<nat>)
      requires cpus >= 1 && forall round: nat, n: nat :: IsSchedule(pick(round, n), n)
      modifies this, records
      ensures StableSortOf(records[..], old(records[..]))
    {
      ghost var was := records[..];
      procs := if records.Length <= 100 || cpus >= records.Length then 1 else cpus;
      SharesFit(records.Length, procs);
      assert IsSchedule(pick(0, procs), procs);
      hide *;
      SortShares(pick(0, procs));
      ghost var shared := records[..];
      if procs > 1 {
        MergeRounds(pick);
        SameByKeyTrans(records[..], shared, was);
      } else {
        OneRun(records[..], records.Length);
      }
      StableSortFrom(records[..], was);
    }

    /** The rounds of multithread_sort: `length` runs become one. */
    method MergeRounds(pick: (nat, nat) -> seq<nat>)
      requires procs > 1 && forall round: nat, n: nat :: IsSchedule(pick(round, n), n)
      requires Shares(records.Length) && RunsSorted(records[..], records.Length / procs, procs)
      modifies records
      ensures Sorted(records[..]) && SameByKey(records[..], old(records[..]))
    {
      ghost var was := records[..];
      var length: nat := procs;
      var num := records.Length / length * 2;
      ghost var size: nat := records.Length / length;
      var round := 1;
      hide RunStart, IsSchedule, RunsSorted, SameByKey, Sorted;
      SameByKeyRefl(was);
      while length / 2 > 0
        invariant 1 <= length && num == 2 * size
        invariant RunStart(length - 1, size) <= records.Length
        invariant RunsSorted(records[..], size, length)
        invariant SameByKey(records[..], was)
        invariant size <= 2 * records.Length
        decreases length
      {
        var merges := length / 2;
        OneRunFits(length, size, records.Length);
        ghost var before := records[..];
        MergeRound(pick(round, merges), num, length, size);
        SameByKeyTrans(records[..], before, was);
        num := num * 2;
        assert num <= 4 * records.Length;
        size := 2 * size;
        length := length - merges;
        round := round + 1;
      }
      OneRun(records[..], size);
    }
  }

  lemma NothingToSort(s: seq<Record>, lo: nat, hi: nat)
    requires lo <= hi <= |s| && hi <= lo + 1
    ensures StableSortOf(s[lo..hi], s[lo..hi]) && SameOutside(s, s, lo, hi)
  {}

  lemma SameByKeyRefl(s: seq<Record>)
    ensures SameByKey(s, s)
  {}

  lemma StableSortFrom(r: seq<Record>, s: seq<Record>)
    requires Sorted(r) && SameByKey(r, s)
    ensures StableSortOf(r, s)
  {}

  /** The share of thread t, as threads_mergeSort computes it. */
  lemma ShareBounds(t: nat, size: nat, count: nat, total: nat)
    requires t < count && RunStart(count - 1, size) <= total
    ensures t * size == RunStart(t, size) <= RunEnd(t, size, count, total) <= total
    ensures (if t == count - 1 then total - 1 else t * size + size - 1) == RunEnd(t, size, count, total) - 1
  {
    RunBounds(t, t, size, count, total);
    RunStartOrder(t, t, size);
  }

  lemma ShareDone(r: seq<Record>, s: seq<Record>, t: nat, size: nat, count: nat)
    requires RunStart(t, size) <= RunEnd(t, size, count, |s|) <= |s| == |r|
    requires var lo, hi := RunStart(t, size), RunEnd(t, size, count, |s|);
      SameOutside(r, s, lo, hi) && StableSortOf(r[lo..hi], s[lo..hi])
    ensures ThreadDone(r, s, t, size, count)
  {
    hide RunStart, RunEnd, SameOutside, StableSortOf, SameByKey, Sorted;
    SliceSorted(r, s, RunStart(t, size), RunEnd(t, size, count, |s|));
  }

  lemma ThreadDoneFacts(r: seq<Record>, s: seq<Record>, t: nat, size: nat, count: nat)
    requires ThreadDone(r, s, t, size, count)
    ensures SameByKey(r, s) && RunSorted(r, t, size, count)
  {}

  lemma AllThreadsRan(s: seq<Record>, order: seq<nat>, size: nat, count: nat)
    requires IsSchedule(order, count)
    requires forall u :: 0 <= u < |order| ==> RunSorted(s, order[u], size, count)
    ensures RunsSorted(s, size, count)
  {
    hide RunSorted;
    forall t: nat | 0 <= t < count ensures RunSorted(s, t, size, count) {
      assert t in order;
      var i :| 0 <= i < |order| && order[i] == t;
    }
  }

  /** The shares of the threads fit into the array. */
  lemma SharesFit(n: nat, procs: nat)
    requires procs > 0
    ensures RunStart(procs - 1, n / procs) <= n
  {
    assert n == procs * (n / procs) + n % procs;
    assert (procs - 1) * (n / procs) == procs * (n / procs) - n / procs;
  }

  /** While two runs are left, a run is no longer than the array, so the
  doubled `num` stays within four times the number of records. */
  lemma OneRunFits(count: nat, size: nat, n: nat)
    requires count >= 2 && RunStart(count - 1, size) <= n
    ensures size <= n
  {
    RunStartOrder(1, count - 1, size);
    RunStartOrder(0, 0, size);
  }

  lemma OneRun(s: seq<Record>, size: nat)
    requires RunsSorted(s, size, 1)
    ensures Sorted(s)
  {
    assert RunSorted(s, 0, size, 1);
    RunStartOrder(0, 0, size);
    assert s[0..|s|] == s;
  }

  lemma SameByKeyTrans(r: seq<Record>, s: seq<Record>, t: seq<Record>)
    requires SameByKey(r, s) && SameByKey(s, t)
    ensures SameByKey(r, t)
  {}

  /** A slice replaced by its stable sort. */
  lemma SliceSorted(r: seq<Record>, s: seq<Record>, lo: nat, hi: nat)
    requires SameOutside(r, s, lo, hi) && StableSortOf(r[lo..hi], s[lo..hi])
    ensures SameByKey(r, s) && Sorted(r[lo..hi])
  {
    assert r[..lo] == s[..lo] && r[hi..] == s[hi..];
    SliceRearranged(r, s, lo, hi);
  }

  /** Two neighbouring runs replaced by their merge. */
  lemma PairMerged(r: seq<Record>, s: seq<Record>, t: nat, size: nat, count: nat)
    requires t < Merges(count) && RunStart(count - 1, size) <= |s|
    requires RunSorted(s, 2 * t, size, count) && RunSorted(s, 2 * t + 1, size, count)
    requires var lo, mid, hi := RunStart(2 * t, size), RunStart(2 * t + 1, size), PairEnd(t, size, count, |s|);
      SameOutside(r, s, lo, hi) && lo <= mid <= hi && r[lo..hi] == StableSort.Merge(s[lo..mid], s[mid..hi])
    ensures MergeDone(r, s, t, size, count)
  {
    PairBounds(t, t, size, count, |s|);
    var lo, mid, hi := RunStart(2 * t, size), RunStart(2 * t + 1, size), PairEnd(t, size, count, |s|);
    hide RunStart, PairEnd, StableSort.Merge, SameOutside, Sorted;
    assert RunEnd(2 * t, size, count, |s|) == mid;
    MergeStable(s[lo..mid], s[mid..hi]);
    assert s[lo..hi] == s[lo..mid] + s[mid..hi];
    SliceSorted(r, s, lo, hi);
  }

  /** What thread t of the first phase leaves behind. */
  ghost predicate ThreadDone(r: seq<Record>, s: seq<Record>, t: nat, size: nat, count: nat) {
    && SameByKey(r, s)
    && SameOutside(r, s, RunStart(t, size), RunEnd(t, size, count, |s|))
    && RunSorted(r, t, size, count)
  }

  lemma OtherRunKept(r: seq<Record>, s: seq<Record>, t: nat, u: nat, size: nat, count: nat)
    requires t < count && u < count && t != u && RunStart(count - 1, size) <= |s|
    requires ThreadDone(r, s, t, size, count) && RunSorted(s, u, size, count)
    ensures RunSorted(r, u, size, count)
  {
    RunBounds(t, u, size, count, |s|);
    RunBounds(u, t, size, count, |s|);
    hide RunStart;
    OutsideSlice(r, s, RunStart(t, size), RunEnd(t, size, count, |s|), RunStart(u, size), RunEnd(u, size, count, |s|));
  }

  /** What thread t of a merge round leaves behind. */
  ghost predicate MergeDone(r: seq<Record>, s: seq<Record>, t: nat, size: nat, count: nat) {
    && SameByKey(r, s)
    && SameOutside(r, s, RunStart(2 * t, size), PairEnd(t, size, count, |s|))
    && PairSorted(r, t, size, count)
  }

  /** In the middle of a round: the pairs of the threads that ran are merged,
  the others still wait with both runs sorted. */
  ghost predicate RoundState(s: seq<Record>, order: seq<nat>, ran: nat, size: nat, count: nat)
    requires ran <= |order|
  {
    && (forall i :: 0 <= i < ran ==> PairSorted(s, order[i], size, count))
    && (forall i :: ran <= i < |order| ==>
          RunSorted(s, 2 * order[i], size, count) && RunSorted(s, 2 * order[i] + 1, size, count))
    && (count % 2 == 1 ==> RunSorted(s, count - 1, size, count))
  }

  /** A thread of a merge round leaves every run outside its pair alone. */
  lemma RunKept(r: seq<Record>, s: seq<Record>, t: nat, u: nat, size: nat, count: nat)
    requires t < Merges(count) && u < count && u != 2 * t && u != 2 * t + 1
    requires RunStart(count - 1, size) <= |s|
    requires MergeDone(r, s, t, size, count) && RunSorted(s, u, size, count)
    ensures RunSorted(r, u, size, count)
  {
    PairBounds(t, t, size, count, |s|);
    RunBounds(2 * t, u, size, count, |s|);
    RunBounds(2 * t + 1, u, size, count, |s|);
    RunBounds(u, 2 * t, size, count, |s|);
    hide RunStart, PairEnd;
    OutsideSlice(r, s, RunStart(2 * t, size), PairEnd(t, size, count, |s|), RunStart(u, size),
        RunEnd(u, size, count, |s|));
  }

  lemma PairKept(r: seq<Record>, s: seq<Record>, t: nat, u: nat, size: nat, count: nat)
    requires t < Merges(count) && u < Merges(count) && t != u && RunStart(count - 1, size) <= |s|
    requires MergeDone(r, s, t, size, count) && PairSorted(s, u, size, count)
    ensures PairSorted(r, u, size, count)
  {
    PairBounds(t, u, size, count, |s|);
    PairBounds(u, t, size, count, |s|);
    hide RunStart, PairEnd;
    OutsideSlice(r, s, RunStart(2 * t, size), PairEnd(t, size, count, |s|),
                 RunStart(2 * u, size), PairEnd(u, size, count, |s|));
  }

  lemma RoundStep(r: seq<Record>, s: seq<Record>, order: seq<nat>, i: nat, size: nat, count: nat)
    requires i < |order| && count >= 2 && RunStart(count - 1, size) <= |s|
    requires IsSchedule(order, Merges(count)) && RoundState(s, order, i, size, count)
    requires MergeDone(r, s, order[i], size, count)
    ensures RoundState(r, order, i + 1, size, count)
  {
    hide RunSorted, PairSorted, RunStart, SameByKey, SameOutside;
    forall j | 0 <= j < i ensures PairSorted(r, order[j], size, count) {
      PairKept(r, s, order[i], order[j], size, count);
    }
    forall j | i + 1 <= j < |order|
      ensures RunSorted(r, 2 * order[j], size, count) && RunSorted(r, 2 * order[j] + 1, size, count)
    {
      RunKept(r, s, order[i], 2 * order[j], size, count);
      RunKept(r, s, order[i], 2 * order[j] + 1, size, count);
    }
    if count % 2 == 1 {
      RunKept(r, s, order[i], count - 1, size, count);
    }
  }

  lemma RoundNext(s: seq<Record>, order: seq<nat>, i: nat, size: nat, count: nat)
    requires i < |order| && RoundState(s, order, i, size, count)
    ensures RunSorted(s, 2 * order[i], size, count) && RunSorted(s, 2 * order[i] + 1, size, count)
  {}

  lemma RoundOver(s: seq<Record>, order: seq<nat>, size: nat, count: nat)
    requires IsSchedule(order, Merges(count)) && RoundState(s, order, |order|, size, count)
    ensures forall t :: 0 <= t < Merges(count) ==> PairSorted(s, t, size, count)
  {
    hide RunSorted, PairSorted;
    forall t: nat | 0 <= t < Merges(count) ensures PairSorted(s, t, size, count) {
      assert t in order;
      var i :| 0 <= i < |order| && order[i] == t;
    }
  }

  /** Neither the number of threads nor any scheduling changes the outcome: all
  that MultithreadSort can leave behind is one and the same sequence. */
  lemma OutcomeIsUnique(input: seq<Record>, r: seq<Record>, s: seq<Record>)
    requires StableSortOf(r, input) && StableSortOf(s, input)
    ensures r == s && multiset(r) == multiset(input)
  {
    SameByKeyIsPermutation(r, input);
    StableSortUnique(r, s);
  }

  /** Two sorted halves and their merge make a stable sort of the slice. */
  lemma MergeSortStep(s0: seq<Record>, s1: seq<Record>, s2: seq<Record>, s3: seq<Record>, lo: nat, mid: nat, hi: nat)
    requires lo <= mid <= hi <= |s0|
    requires SameOutside(s1, s0, lo, mid) && StableSortOf(s1[lo..mid], s0[lo..mid])
    requires SameOutside(s2, s1, mid, hi) && StableSortOf(s2[mid..hi], s1[mid..hi])
    requires SameOutside(s3, s2, lo, hi) && s3[lo..hi] == StableSort.Merge(s2[lo..mid], s2[mid..hi])
    ensures StableSortOf(s3[lo..hi], s0[lo..hi])
    ensures SameOutside(s3, s0, lo, hi)
  {
    OutsideSlice(s1, s0, lo, mid, mid, hi);
    OutsideSlice(s2, s1, mid, hi, lo, mid);
    MergeStable(s2[lo..mid], s2[mid..hi]);
    SameByKeyConcat(s2[lo..mid], s0[lo..mid], s2[mid..hi], s0[mid..hi]);
    assert s0[lo..hi] == s0[lo..mid] + s0[mid..hi];
  }
}

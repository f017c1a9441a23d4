/** What a stable sort by key is, and that it is unique. */
module StableSort {

  /** A 100-byte record: the sort key and the payload that travels with it. */
  datatype Record = Record(key: int, value: seq<char>)

  ghost predicate Sorted(s: seq<Record>) {
    forall i, j :: 0 <= i < j < |s| ==> s[i].key <= s[j].key
  }

  /** The records with key k, in order. */
  function WithKey(s: seq<Record>, k: int): seq<Record> {
    if s == [] then [] else (if s[0].key == k then [s[0]] else []) + WithKey(s[1..], k)
  }

  /** Same records, and records with equal keys keep their order. */
  ghost predicate SameByKey(r: seq<Record>, s: seq<Record>) {
    forall k :: WithKey(r, k) == WithKey(s, k)
  }

  ghost predicate StableSortOf(r: seq<Record>, s: seq<Record>) {
    Sorted(r) && SameByKey(r, s)
  }

  lemma {:induction false} WithKeyConcat(s: seq<Record>, t: seq<Record>, k: int)
    ensures WithKey(s + t, k) == WithKey(s, k) + WithKey(t, k)
  {
    if s == [] {
      assert s + t == t;
    } else {
      assert (s + t)[0] == s[0] && (s + t)[1..] == s[1..] + t;
      WithKeyConcat(s[1..], t, k);
      var head := if s[0].key == k then [s[0]] else [];
      assert WithKey(s + t, k) == head + WithKey(s[1..] + t, k);
    }
  }

  lemma {:induction false} WithKeyCount(s: seq<Record>, x: Record)
    ensures multiset(WithKey(s, x.key))[x] == multiset(s)[x]
  {
    if s != [] {
      WithKeyCount(s[1..], x);
      assert s == [s[0]] + s[1..];
      var head := if s[0].key == x.key then [s[0]] else [];
      assert multiset(head + WithKey(s[1..], x.key)) == multiset(head) + multiset(WithKey(s[1..], x.key));
    }
  }

  lemma SameByKeyIsPermutation(r: seq<Record>, s: seq<Record>)
    requires SameByKey(r, s)
    ensures multiset(r) == multiset(s)
  {
    forall x ensures multiset(r)[x] == multiset(s)[x] {
      WithKeyCount(r, x);
      WithKeyCount(s, x);
    }
  }

  lemma SameByKeyConcat(r: seq<Record>, s: seq<Record>, r': seq<Record>, s': seq<Record>)
    requires SameByKey(r, s) && SameByKey(r', s')
    ensures SameByKey(r + r', s + s')
  {
    forall k ensures WithKey(r + r', k) == WithKey(s + s', k) {
      WithKeyConcat(r, r', k);
      WithKeyConcat(s, s', k);
    }
  }

  /** Replacing a slice by a rearrangement of it rearranges the whole. */
  lemma SliceRearranged(r: seq<Record>, s: seq<Record>, lo: nat, hi: nat)
    requires |r| == |s| && lo <= hi <= |s|
    requires r[..lo] == s[..lo] && r[hi..] == s[hi..]
    requires SameByKey(r[lo..hi], s[lo..hi])
    ensures SameByKey(r, s)
  {
    assert r == r[..lo] + r[lo..hi] + r[hi..] && s == s[..lo] + s[lo..hi] + s[hi..];
    SameByKeyConcat(r[..lo], s[..lo], r[lo..hi], s[lo..hi]);
    SameByKeyConcat(r[..lo] + r[lo..hi], s[..lo] + s[lo..hi], r[hi..], s[hi..]);
  }

  lemma {:induction false} KeyPresent(s: seq<Record>, i: nat)
    requires i < |s|
    ensures WithKey(s, s[i].key) != []
  {
    if i > 0 { KeyPresent(s[1..], i - 1); }
  }

  lemma {:induction false} KeyFound(s: seq<Record>, k: int) returns (i: nat)
    requires WithKey(s, k) != []
    ensures i < |s| && s[i].key == k
  {
    if s[0].key == k {
      i := 0;
    } else {
      i := KeyFound(s[1..], k);
      i := i + 1;
    }
  }

  /** Two stable sorts of the same records are the same sequence. */
  lemma {:induction false} StableSortUnique(r: seq<Record>, s: seq<Record>)
    requires Sorted(r) && Sorted(s) && SameByKey(r, s)
    ensures r == s
    decreases |r|
  {
    SameByKeyIsPermutation(r, s);
    assert |r| == |multiset(r)| == |s|;
    if r != [] {
      KeyPresent(r, 0);
      var i := KeyFound(s, r[0].key);
      KeyPresent(s, 0);
      var j := KeyFound(r, s[0].key);
      assert r[0].key == s[0].key;
      assert WithKey(r, r[0].key)[0] == r[0] && WithKey(s, r[0].key)[0] == s[0];
      forall k ensures WithKey(r[1..], k) == WithKey(s[1..], k) {
        if k == r[0].key {
          assert WithKey(r, k)[1..] == WithKey(r[1..], k) && WithKey(s, k)[1..] == WithKey(s[1..], k);
        } else {
          assert WithKey(r, k) == WithKey(r[1..], k) && WithKey(s, k) == WithKey(s[1..], k);
        }
      }
      StableSortUnique(r[1..], s[1..]);
    }
  }

  /** The merge of two runs, ties to the left run. */
  function Merge(l: seq<Record>, r: seq<Record>): (m: seq<Record>)
    ensures |m| == |l| + |r|
  {
    if l == [] then r
    else if r == [] then l
    else if l[0].key <= r[0].key then [l[0]] + Merge(l[1..], r)
    else [r[0]] + Merge(l, r[1..])
  }

  lemma {:induction false} NoSuchKey(s: seq<Record>, k: int)
    requires forall i :: 0 <= i < |s| ==> s[i].key != k
    ensures WithKey(s, k) == []
  {
    if s != [] { NoSuchKey(s[1..], k); }
  }

  lemma {:induction false} MergeKeepsOrder(l: seq<Record>, r: seq<Record>, k: int)
    requires Sorted(l) && Sorted(r)
    ensures WithKey(Merge(l, r), k) == WithKey(l, k) + WithKey(r, k)
  {
    if l == [] || r == [] {
    } else if l[0].key <= r[0].key {
      MergeKeepsOrder(l[1..], r, k);
      assert ([l[0]] + Merge(l[1..], r))[1..] == Merge(l[1..], r);
    } else {
      MergeKeepsOrder(l, r[1..], k);
      assert ([r[0]] + Merge(l, r[1..]))[1..] == Merge(l, r[1..]);
      if k == r[0].key { NoSuchKey(l, k); }
    }
  }

  lemma {:induction false} MergeAtLeast(l: seq<Record>, r: seq<Record>, low: int)
    requires forall i :: 0 <= i < |l| ==> low <= l[i].key
    requires forall i :: 0 <= i < |r| ==> low <= r[i].key
    ensures forall i :: 0 <= i < |l| + |r| ==> low <= Merge(l, r)[i].key
  {
    if l == [] || r == [] {
    } else if l[0].key <= r[0].key {
      MergeAtLeast(l[1..], r, low);
    } else {
      MergeAtLeast(l, r[1..], low);
    }
  }

  lemma {:induction false} MergeSorted(l: seq<Record>, r: seq<Record>)
    requires Sorted(l) && Sorted(r)
    ensures Sorted(Merge(l, r))
  {
    if l == [] || r == [] {
    } else if l[0].key <= r[0].key {
      MergeSorted(l[1..], r);
      MergeAtLeast(l[1..], r, l[0].key);
    } else {
      MergeSorted(l, r[1..]);
      MergeAtLeast(l, r[1..], r[0].key);
    }
  }

  /** Merging two sorted runs is a stable sort of the two side by side. */
  lemma MergeStable(l: seq<Record>, r: seq<Record>)
    requires Sorted(l) && Sorted(r)
    ensures StableSortOf(Merge(l, r), l + r)
  {
    MergeSorted(l, r);
    forall k ensures WithKey(Merge(l, r), k) == WithKey(l + r, k) {
      MergeKeepsOrder(l, r, k);
      WithKeyConcat(l, r, k);
    }
  }
}

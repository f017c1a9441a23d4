/** Pages are conserved: every page but the first is on exactly one list. */
module ExtPages {
  import opened Basics
  import opened ExtState

  /** How often p is on any of some lists, and how long they are together. */
  function TimesAll(lists: seq<seq<nat>>, p: nat): nat {
    if lists == [] then 0 else Times(lists[0], p) + TimesAll(lists[1..], p)
  }

  function LenAll(lists: seq<seq<nat>>): nat {
    if lists == [] then 0 else |lists[0]| + LenAll(lists[1..])
  }

  lemma {:induction false} AllUpdate(lists: seq<seq<nat>>, i: nat, l: seq<nat>, p: nat)
    requires i < |lists|
    ensures TimesAll(lists[i := l], p) == TimesAll(lists, p) - Times(lists[i], p) + Times(l, p)
    ensures LenAll(lists[i := l]) == LenAll(lists) - |lists[i]| + |l|
    ensures TimesAll(lists, p) >= Times(lists[i], p) && LenAll(lists) >= |lists[i]|
  {
    if i == 0 {
      assert lists[0 := l][1..] == lists[1..];
    } else {
      assert lists[i := l][1..] == lists[1..][i - 1 := l];
      AllUpdate(lists[1..], i - 1, l, p);
    }
  }

  lemma {:induction false} AllFrom(lists: seq<seq<nat>>, p: nat) returns (i: nat)
    requires TimesAll(lists, p) > 0
    ensures i < |lists| && p in lists[i] && Times(lists[i], p) <= TimesAll(lists, p)
  {
    if Times(lists[0], p) > 0 {
      i := 0;
    } else {
      var j := AllFrom(lists[1..], p);
      i := j + 1;
    }
  }

  ghost predicate FreeList(pages: seq<Page>, list: seq<nat>, fb: nat) {
    forall p :: p in list ==> p < |pages| && pages[p].free && pages[p].freeBucket == fb
  }

  ghost predicate UsedList(pages: seq<Page>, list: seq<nat>, b: nat) {
    forall p :: p in list ==> p < |pages| && !pages[p].free && pages[p].bucket == b
  }

  /** On how many lists page p is. */
  function Listings(s: State, p: nat): nat {
    Times(s.freelist, p) + TimesAll(s.freeBuckets, p) + TimesAll(s.pageBuckets, p)
  }

  /** Page 0 is never put on a list: the loop in extstore_init stops above it. */
  ghost predicate Conserved(s: State) {
    && (forall p: nat :: Listings(s, p) == if 0 < p < |s.pages| then 1 else 0)
    && s.pageFree == |s.freelist| + LenAll(s.freeBuckets)
  }

  ghost predicate Sorted(s: State) {
    && |s.pages| > 0 && s.pages[0].free
    && FreeList(s.pages, s.freelist, 0)
    && |s.freeBuckets| > 0 && s.freeBuckets[0] == []
    && (forall fb :: 0 <= fb < |s.freeBuckets| ==> FreeList(s.pages, s.freeBuckets[fb], fb))
    && (forall b :: 0 <= b < |s.pageBuckets| ==> UsedList(s.pages, s.pageBuckets[b], b))
    && (forall p :: 0 <= p < |s.pages| ==>
          s.pages[p].bucket < |s.pageBuckets| && s.pages[p].freeBucket < |s.freeBuckets|)
  }

  ghost predicate PagesOk(s: State) { Conserved(s) && Sorted(s) }

  /** What lists see of a page. */
  predicate SameListing(g: Page, g': Page) {
    g.free == g'.free && g.bucket == g'.bucket && g.freeBucket == g'.freeBucket
  }

  /** Steps that touch neither lists nor what lists see keep everything. */
  lemma PagesFrame(s: State, s': State)
    requires PagesOk(s) && |s'.pages| == |s.pages|
    requires forall p :: 0 <= p < |s.pages| ==> SameListing(s.pages[p], s'.pages[p])
    requires s'.freelist == s.freelist && s'.freeBuckets == s.freeBuckets && s'.pageBuckets == s.pageBuckets
    requires s'.pageFree == s.pageFree
    ensures PagesOk(s')
  {
    assert forall p: nat :: Listings(s', p) == Listings(s, p);
    forall fb | 0 <= fb < |s'.freeBuckets| ensures FreeList(s'.pages, s'.freeBuckets[fb], fb) {
      assert FreeList(s.pages, s.freeBuckets[fb], fb);
    }
    forall b | 0 <= b < |s'.pageBuckets| ensures UsedList(s'.pages, s'.pageBuckets[b], b) {
      assert UsedList(s.pages, s.pageBuckets[b], b);
    }
  }

  lemma NotOnFreeLists(s: State, p: nat)
    requires PagesOk(s) && p < |s.pages| && !s.pages[p].free
    ensures Times(s.freelist, p) == 0 && TimesAll(s.freeBuckets, p) == 0
  {
    TimesIn(s.freelist, p);
    assert forall fb :: 0 <= fb < |s.freeBuckets| ==> FreeList(s.pages, s.freeBuckets[fb], fb);
    assert forall fb :: 0 <= fb < |s.freeBuckets| ==> p !in s.freeBuckets[fb];
    if TimesAll(s.freeBuckets, p) > 0 {
      var fb := AllFrom(s.freeBuckets, p);
    }
  }

  lemma NotOnBuckets(s: State, p: nat)
    requires PagesOk(s) && p < |s.pages| && s.pages[p].free
    ensures TimesAll(s.pageBuckets, p) == 0
  {
    assert forall b :: 0 <= b < |s.pageBuckets| ==> UsedList(s.pages, s.pageBuckets[b], b);
    assert forall b :: 0 <= b < |s.pageBuckets| ==> p !in s.pageBuckets[b];
    if TimesAll(s.pageBuckets, p) > 0 {
      var b := AllFrom(s.pageBuckets, p);
    }
  }

  /** A page that is in use is on the list of its bucket, and only there. */
  lemma UsedIsListed(s: State, p: nat)
    requires PagesOk(s) && p < |s.pages| && !s.pages[p].free
    ensures p > 0 && p in s.pageBuckets[s.pages[p].bucket] && Times(s.pageBuckets[s.pages[p].bucket], p) == 1
  {
    hide Times;
    NotOnFreeLists(s, p);
    assert Listings(s, p) == 1;
    var b := AllFrom(s.pageBuckets, p);
    assert UsedList(s.pages, s.pageBuckets[b], b);
    TimesIn(s.pageBuckets[b], p);
  }

  /** A free page other than page 0 is on the free list of its kind, and only there. */
  lemma FreeIsListed(s: State, p: nat)
    requires PagesOk(s) && 0 < p < |s.pages| && s.pages[p].free
    ensures Times(if s.pages[p].freeBucket == 0 then s.freelist else s.freeBuckets[s.pages[p].freeBucket], p) == 1
    ensures Listings(s, p) == 1 && TimesAll(s.pageBuckets, p) == 0
  {
    hide Times;
    NotOnBuckets(s, p);
    TimesIn(s.freelist, p);
    assert Listings(s, p) == 1;
    if TimesAll(s.freeBuckets, p) > 0 {
      var fb := AllFrom(s.freeBuckets, p);
      assert FreeList(s.pages, s.freeBuckets[fb], fb);
      TimesIn(s.freeBuckets[fb], p);
    }
  }

  /** When _allocate_page finds a page, page_free is positive, as it asserts. */
  lemma CandidateOk(s: State, fb: nat)
    requires PagesOk(s) && fb < |s.freeBuckets| && Candidate(s, fb).Some?
    ensures var p := Candidate(s, fb).value; 0 < p < |s.pages| && s.pages[p].free && s.pageFree > 0
  {
    hide Times;
    var p := Candidate(s, fb).value;
    if fb != 0 && s.freeBuckets[fb] != [] {
      AllUpdate(s.freeBuckets, fb, [], p);
      TimesIn(s.freeBuckets[fb], p);
      assert FreeList(s.pages, s.freeBuckets[fb], fb);
    } else {
      TimesIn(s.freelist, p);
    }
    assert Listings(s, p) > 0;
  }

  lemma AllocateKeepsPages(s: State, b: nat, fb: nat)
    requires PagesOk(s) && fb < |s.freeBuckets| && b < |s.pageBuckets|
    ensures Candidate(s, fb).Some? ==> Candidate(s, fb).value < |s.pages| && s.pageFree > 0
    ensures PagesOk(AllocatePage(s, b, fb))
  {
    if Candidate(s, fb).Some? {
      CandidateOk(s, fb);
      AllocateConserves(s, b, fb);
      AllocateSorts(s, b, fb);
    }
  }

  lemma AllocateLists(s: State, b: nat, fb: nat, q: nat)
    requires PagesOk(s) && fb < |s.freeBuckets| && b < |s.pageBuckets| && Candidate(s, fb).Some?
    requires Candidate(s, fb).value < |s.pages| && s.pageFree > 0
    ensures var p := Candidate(s, fb).value; var s' := AllocatePage(s, b, fb);
      && Times(s'.freelist, q) + TimesAll(s'.freeBuckets, q) ==
           Times(s.freelist, q) + TimesAll(s.freeBuckets, q) - (if q == p then 1 else 0)
      && TimesAll(s'.pageBuckets, q) == TimesAll(s.pageBuckets, q) + (if q == p then 1 else 0)
      && s'.pageFree == |s'.freelist| + LenAll(s'.freeBuckets)
  {
    hide Times, TimesAll, LenAll;
    var p := Candidate(s, fb).value;
    AllUpdate(s.pageBuckets, b, [p] + s.pageBuckets[b], q);
    TimesCons(s.pageBuckets[b], p, q);
    if fb != 0 && s.freeBuckets[fb] != [] {
      AllUpdate(s.freeBuckets, fb, s.freeBuckets[fb][1..], q);
      TimesTail(s.freeBuckets[fb], q);
    } else {
      TimesTail(s.freelist, q);
    }
  }

  lemma AllocateConserves(s: State, b: nat, fb: nat)
    requires PagesOk(s) && fb < |s.freeBuckets| && b < |s.pageBuckets| && Candidate(s, fb).Some?
    requires Candidate(s, fb).value < |s.pages| && s.pageFree > 0
    ensures Conserved(AllocatePage(s, b, fb))
  {
    hide Times, TimesAll, LenAll, Sorted;
    var s' := AllocatePage(s, b, fb);
    forall q: nat ensures Listings(s', q) == if 0 < q < |s'.pages| then 1 else 0 {
      AllocateLists(s, b, fb, q);
      assert Listings(s, q) == if 0 < q < |s.pages| then 1 else 0;
    }
    AllocateLists(s, b, fb, 0);
  }

  /** A page that is on no list may be put at the head of a bucket. */
  lemma TakeSorts(s: State, p: nat, b: nat)
    requires Sorted(s) && 0 < p < |s.pages| && b < |s.pageBuckets| && s.pageFree > 0 && s.pages[p].free
    requires p !in s.freelist && forall fb :: 0 <= fb < |s.freeBuckets| ==> p !in s.freeBuckets[fb]
    ensures Sorted(Take(s, p, b))
  {
    var s' := Take(s, p, b);
    forall fb | 0 <= fb < |s'.freeBuckets| ensures FreeList(s'.pages, s'.freeBuckets[fb], fb) {
      assert FreeList(s.pages, s.freeBuckets[fb], fb);
    }
    forall j | 0 <= j < |s'.pageBuckets| ensures UsedList(s'.pages, s'.pageBuckets[j], j) {
      assert UsedList(s.pages, s.pageBuckets[j], j);
    }
  }

  /** A free list without its head. */
  lemma PopSorts(s: State, fb: nat)
    requires Sorted(s)
    ensures s.freelist != [] ==> Sorted(s.(freelist := s.freelist[1..]))
    ensures fb < |s.freeBuckets| && s.freeBuckets[fb] != [] ==>
      Sorted(s.(freeBuckets := s.freeBuckets[fb := s.freeBuckets[fb][1..]]))
  {
    if fb < |s.freeBuckets| && s.freeBuckets[fb] != [] {
      var s' := s.(freeBuckets := s.freeBuckets[fb := s.freeBuckets[fb][1..]]);
      forall i | 0 <= i < |s'.freeBuckets| ensures FreeList(s'.pages, s'.freeBuckets[i], i) {
        assert FreeList(s.pages, s.freeBuckets[i], i);
      }
    }
  }

  lemma AllocateSorts(s: State, b: nat, fb: nat)
    requires PagesOk(s) && fb < |s.freeBuckets| && b < |s.pageBuckets| && Candidate(s, fb).Some?
    requires 0 < Candidate(s, fb).value < |s.pages| && s.pageFree > 0 && s.pages[Candidate(s, fb).value].free
    ensures Sorted(AllocatePage(s, b, fb))
  {
    hide Times, TimesAll, LenAll, Sorted;
    var p := Candidate(s, fb).value;
    var s' := AllocatePage(s, b, fb);
    AllocateLists(s, b, fb, p);
    assert Listings(s, p) == 1;
    PopSorts(s, fb);
    TimesIn(s'.freelist, p);
    forall i | 0 <= i < |s'.freeBuckets| ensures p !in s'.freeBuckets[i] {
      AllUpdate(s'.freeBuckets, i, [], p);
      TimesIn(s'.freeBuckets[i], p);
    }
    if fb != 0 && s.freeBuckets[fb] != [] {
      TakeSorts(s.(freeBuckets := s.freeBuckets[fb := s.freeBuckets[fb][1..]]), p, b);
    } else {
      TakeSorts(s.(freelist := s.freelist[1..]), p, b);
    }
  }

  lemma {:induction false} UnlinkedTimes(list: seq<nat>, p: nat, q: nat)
    requires p in list
    ensures Times(Unlinked(list, p), q) == Times(list, q) - (if q == p then 1 else 0)
  {
    hide Times;
    TimesTail(list, q);
    if list[0] != p {
      UnlinkedTimes(list[1..], p, q);
      TimesCons(Unlinked(list[1..], p), list[0], q);
    }
  }

  lemma FreeKeepsPages(s: State, p: nat)
    requires PagesOk(s) && p < |s.pages| && !s.pages[p].free
    ensures s.pages[p].bucket < |s.pageBuckets| && s.pages[p].freeBucket < |s.freeBuckets|
    ensures PagesOk(FreePage(s, p))
  {
    UsedIsListed(s, p);
    FreeConserves(s, p);
    FreeSorts(s, p);
  }

  lemma FreeLists(s: State, p: nat, q: nat)
    requires PagesOk(s) && p < |s.pages| && p in s.pageBuckets[s.pages[p].bucket]
    ensures var s' := FreePage(s, p);
      && Times(s'.freelist, q) + TimesAll(s'.freeBuckets, q) ==
           Times(s.freelist, q) + TimesAll(s.freeBuckets, q) + (if q == p then 1 else 0)
      && TimesAll(s'.pageBuckets, q) == TimesAll(s.pageBuckets, q) - (if q == p then 1 else 0)
      && s'.pageFree == |s'.freelist| + LenAll(s'.freeBuckets)
  {
    hide Times, TimesAll, LenAll, FreeList, UsedList;
    var b := s.pages[p].bucket;
    var fb := s.pages[p].freeBucket;
    UnlinkedTimes(s.pageBuckets[b], p, q);
    AllUpdate(s.pageBuckets, b, Unlinked(s.pageBuckets[b], p), q);
    if fb != 0 {
      TimesCons(s.freeBuckets[fb], p, q);
      AllUpdate(s.freeBuckets, fb, [p] + s.freeBuckets[fb], q);
    } else {
      TimesCons(s.freelist, p, q);
    }
  }

  lemma FreeConserves(s: State, p: nat)
    requires PagesOk(s) && p < |s.pages| && p in s.pageBuckets[s.pages[p].bucket]
    ensures Conserved(FreePage(s, p))
  {
    hide Times, TimesAll, LenAll, Sorted;
    SortedShape(s);
    var s' := FreePage(s, p);
    forall q: nat ensures Listings(s', q) == if 0 < q < |s'.pages| then 1 else 0 {
      FreeLists(s, p, q);
      assert Listings(s, q) == if 0 < q < |s.pages| then 1 else 0;
    }
    FreeLists(s, p, p);
  }

  lemma SortedShape(s: State)
    requires Sorted(s)
    ensures forall p :: 0 <= p < |s.pages| ==>
      s.pages[p].bucket < |s.pageBuckets| && s.pages[p].freeBucket < |s.freeBuckets|
  {}

  lemma FreeSorts(s: State, p: nat)
    requires PagesOk(s) && 0 < p < |s.pages| && !s.pages[p].free
    requires p in s.pageBuckets[s.pages[p].bucket] && Times(s.pageBuckets[s.pages[p].bucket], p) == 1
    ensures Sorted(FreePage(s, p))
  {
    hide Times, TimesAll, LenAll, Conserved;
    var s' := FreePage(s, p);
    var b := s.pages[p].bucket;
    forall fb | 0 <= fb < |s'.freeBuckets| ensures FreeList(s'.pages, s'.freeBuckets[fb], fb) {
      assert FreeList(s.pages, s.freeBuckets[fb], fb);
    }
    forall j | 0 <= j < |s'.pageBuckets| ensures UsedList(s'.pages, s'.pageBuckets[j], j) {
      assert UsedList(s.pages, s.pageBuckets[j], j);
      forall q | q in s'.pageBuckets[j] ensures q != p && q in s.pageBuckets[j] {
        if j == b {
          UnlinkedTimes(s.pageBuckets[b], p, q);
          TimesIn(s'.pageBuckets[b], q);
          TimesIn(s.pageBuckets[b], q);
        }
      }
    }
  }
}

/** How extstore_init lays out the pages and fills the stacks and free lists. */
module ExtInit {
  import opened Basics
  import opened ExtState
  import opened ExtPages
  import opened ExtBuffers
  import opened ExtData
  import opened ExtRuns

  /** calloc'd page i, marked free, of a file with this free bucket. */
  function NewPage(fb: nat): Page {
    Page(0, 0, 0, 0, 0, fb, false, false, true, 0, 0, None)
  }

  /** The engine before its lists and stacks are filled. */
  function Blank(conf: Conf, kinds: seq<nat>): State {
    State(conf, seq(|kinds|, i requires 0 <= i < |kinds| => NewPage(kinds[i])),
          seq(conf.wbufCount, i => Wbuf(Zeros(conf.wbufSize), conf.wbufSize, 0, false)),
          seq(|kinds|, i => Zeros(conf.pageSize)),
          [], seq(conf.buckets, i => []), seq(conf.buckets, i => []), 0, 1,
          [], [], [], [], seq(conf.buckets, i => Idle), Asleep, [], map[])
  }

  /** Page i goes onto the free list of its kind. */
  function AddFree(s: State, i: nat): State
    requires i < |s.pages| && s.pages[i].freeBucket < |s.freeBuckets|
  {
    var fb := s.pages[i].freeBucket;
    var s1 := s.(pageFree := s.pageFree + 1);
    if fb == 0 then s1.(freelist := [i] + s.freelist)
    else s1.(freeBuckets := s.freeBuckets[fb := [i] + s.freeBuckets[fb]])
  }

  /** With pages from i upwards on the lists. */
  ghost predicate Listed(s: State, i: nat) {
    && 1 <= i && |s.pages| > 0
    && (forall p: nat :: Listings(s, p) == if i <= p < |s.pages| then 1 else 0)
    && s.pageFree == |s.freelist| + LenAll(s.freeBuckets)
    && Sorted(s)
  }

  lemma {:induction false} EmptyAll(lists: seq<seq<nat>>, p: nat)
    requires forall i :: 0 <= i < |lists| ==> lists[i] == []
    ensures TimesAll(lists, p) == 0 && LenAll(lists) == 0
  {
    if lists != [] { EmptyAll(lists[1..], p); }
  }

  lemma BlankListed(conf: Conf, kinds: seq<nat>)
    requires conf.Valid() && |kinds| > 0 && forall i :: 0 <= i < |kinds| ==> kinds[i] < conf.buckets
    ensures Listed(Blank(conf, kinds), |kinds|)
  {
    var s := Blank(conf, kinds);
    forall p: nat ensures Listings(s, p) == 0 {
      EmptyAll(s.freeBuckets, p);
      EmptyAll(s.pageBuckets, p);
    }
    EmptyAll(s.freeBuckets, 0);
  }

  lemma AddFreeListed(s: State, i: nat)
    requires Listed(s, i + 1) && 1 <= i < |s.pages| && s.pages[i].free
    ensures s.pages[i].freeBucket < |s.freeBuckets| && Listed(AddFree(s, i), i)
  {
    hide Times, TimesAll, LenAll;
    var fb := s.pages[i].freeBucket;
    var s' := AddFree(s, i);
    forall p: nat ensures Listings(s', p) == if i <= p < |s'.pages| then 1 else 0 {
      assert Listings(s, p) == if i + 1 <= p < |s.pages| then 1 else 0;
      TimesCons(s.freelist, i, p);
      TimesCons(s.freeBuckets[fb], i, p);
      AllUpdate(s.freeBuckets, fb, [i] + s.freeBuckets[fb], p);
    }
    AllUpdate(s.freeBuckets, fb, [i] + s.freeBuckets[fb], 0);
    forall j | 0 <= j < |s'.freeBuckets| ensures FreeList(s'.pages, s'.freeBuckets[j], j) {
      assert FreeList(s.pages, s.freeBuckets[j], j);
    }
    forall j | 0 <= j < |s'.pageBuckets| ensures UsedList(s'.pages, s'.pageBuckets[j], j) {
      assert UsedList(s.pages, s.pageBuckets[j], j);
    }
  }

  /** The stacks of the engine are no concern of its lists. */
  lemma ListedFrame(s: State, s': State)
    requires Listed(s, 1) && s' == s.(wbufStack := s'.wbufStack, ioStack := s'.ioStack)
    ensures Listed(s', 1)
  {
    assert forall p: nat :: Listings(s', p) == Listings(s, p);
    forall fb | 0 <= fb < |s'.freeBuckets| ensures FreeList(s'.pages, s'.freeBuckets[fb], fb) {
      assert FreeList(s.pages, s.freeBuckets[fb], fb);
    }
    forall b | 0 <= b < |s'.pageBuckets| ensures UsedList(s'.pages, s'.pageBuckets[b], b) {
      assert UsedList(s.pages, s.pageBuckets[b], b);
    }
  }

  /** The stacks of buffers and IO objects hold the numbers below n, once each. */
  ghost predicate Stacked(stack: seq<nat>, n: nat) {
    |stack| == n && forall w: nat :: Times(stack, w) == if w < n then 1 else 0
  }

  lemma StackPush(stack: seq<nat>, n: nat)
    requires Stacked(stack, n)
    ensures Stacked([n] + stack, n + 1)
  {
    forall w: nat ensures Times([n] + stack, w) == if w < n + 1 then 1 else 0 {
      TimesCons(stack, n, w);
    }
  }

  lemma {:induction false} NoneAttached(pages: seq<Page>, w: nat)
    requires forall p :: 0 <= p < |pages| ==> pages[p].wbuf.None?
    ensures Attached(pages, w) == 0
  {
    if pages != [] { NoneAttached(pages[1..], w); }
  }

  /** A fresh engine with full lists and stacks is in order. */
  lemma FreshInv(s: State, conf: Conf, kinds: seq<nat>)
    requires conf.Valid() && |kinds| > 0 && Listed(s, 1)
    requires var b := Blank(conf, kinds);
      s == b.(freelist := s.freelist, freeBuckets := s.freeBuckets, pageFree := s.pageFree, wbufStack := s.wbufStack,
              ioStack := s.ioStack) && |s.freeBuckets| == conf.buckets
    requires Stacked(s.wbufStack, conf.wbufCount) && Stacked(s.ioStack, conf.wbufCount)
    ensures Inv(s)
  {
    forall w: nat ensures Attached(s.pages, w) == 0 {
      NoneAttached(s.pages, w);
    }
    assert 0 % conf.wbufSize == 0;
    assert BuffersOk(s);
    assert PagesOk(s);
    assert DataOk(s) && RefsOk(s) && Shape(s);
    forall b | 0 <= b < |s.writers| ensures WriterOk(s, b) {
      assert s.pageBuckets[b] == [];
    }
  }
}

/** Write buffers and IO objects are conserved, and fill their pages in order. */
module ExtBuffers {
  import opened Basics
  import opened ExtState
  import opened ExtPages

  /** How many pages have buffer w. */
  function Attached(pages: seq<Page>, w: nat): nat {
    if pages == [] then 0 else (if pages[0].wbuf == Some(w) then 1 else 0) + Attached(pages[1..], w)
  }

  lemma {:induction false} AttachedUpdate(pages: seq<Page>, p: nat, g: Page, w: nat)
    requires p < |pages|
    ensures Attached(pages[p := g], w) ==
      Attached(pages, w) - (if pages[p].wbuf == Some(w) then 1 else 0) + (if g.wbuf == Some(w) then 1 else 0)
    ensures pages[p].wbuf == Some(w) ==> Attached(pages, w) > 0
  {
    if p == 0 {
      assert pages[0 := g][1..] == pages[1..];
    } else {
      assert pages[p := g][1..] == pages[1..][p - 1 := g];
      AttachedUpdate(pages[1..], p - 1, g, w);
    }
  }

  lemma AttachedOnce(pages: seq<Page>, p: nat, q: nat, w: nat)
    requires p < |pages| && q < |pages| && p != q && pages[p].wbuf == Some(w) && pages[q].wbuf == Some(w)
    ensures Attached(pages, w) >= 2
  {
    var g := pages[p].(wbuf := None);
    AttachedUpdate(pages, p, g, w);
    AttachedUpdate(pages[p := g], q, g, w);
  }

  /** In how many IOs in flight IO object i is in use. */
  function InUse(inflight: seq<WriteIo>, i: nat): nat {
    if inflight == [] then 0 else (if inflight[0].io == i then 1 else 0) + InUse(inflight[1..], i)
  }

  lemma {:induction false} InUseConcat(a: seq<WriteIo>, b: seq<WriteIo>, i: nat)
    ensures InUse(a + b, i) == InUse(a, i) + InUse(b, i)
  {
    if a == [] {
      assert a + b == b;
    } else {
      assert (a + b)[1..] == a[1..] + b;
      InUseConcat(a[1..], b, i);
    }
  }

  lemma InUseWithout(a: seq<WriteIo>, k: nat, i: nat)
    requires k < |a|
    ensures InUse(a[..k] + a[k + 1..], i) == InUse(a, i) - (if a[k].io == i then 1 else 0)
    ensures forall io: WriteIo :: io.io == a[k].io ==> InUse(a[k := io], i) == InUse(a, i)
  {
    assert a == a[..k] + ([a[k]] + a[k + 1..]);
    InUseConcat(a[..k], a[k + 1..], i);
    InUseConcat(a[..k], [a[k]] + a[k + 1..], i);
    InUseConcat([a[k]], a[k + 1..], i);
    forall io: WriteIo | io.io == a[k].io ensures InUse(a[k := io], i) == InUse(a, i) {
      assert a[k := io] == a[..k] + ([io] + a[k + 1..]);
      InUseConcat(a[..k], [io] + a[k + 1..], i);
      InUseConcat([io], a[k + 1..], i);
      assert InUse([io], i) == InUse([a[k]], i);
    }
  }

  /** Every write buffer is on the stack or with one page, and every IO object
  is on the stack or in flight. */
  ghost predicate BuffersConserved(s: State) {
    && (forall w: nat :: Times(s.wbufStack, w) + Attached(s.pages, w) == if w < s.conf.wbufCount then 1 else 0)
    && (forall i: nat :: Times(s.ioStack, i) + InUse(s.inflight, i) == if i < s.conf.wbufCount then 1 else 0)
    && |s.ioStack| + |s.inflight| == s.conf.wbufCount
  }

  /** A page fills up buffer by buffer: what is allotted is what is written plus
  the attached buffer. It is active until it is written in full. */
  predicate Flow(s: State, g: Page) {
    && s.conf.wbufSize > 0
    && g.allotted == g.written + (if g.wbuf.Some? then s.conf.wbufSize else 0) && g.allotted <= s.conf.pageSize
    && g.written % s.conf.wbufSize == 0
    && (g.wbuf.Some? ==> (
          g.active && g.wbuf.value < |s.wbufs| &&
          s.wbufs[g.wbuf.value].offset == g.written && s.wbufs[g.wbuf.value].free <= s.conf.wbufSize))
    && (g.free ==> !g.active && g.allotted == 0 && g.refcount == 0)
    && (!g.free && !g.active ==> g.written == s.conf.pageSize)
  }

  /** A write in flight is for the full buffer of its page. */
  predicate InFlight(s: State, k: nat)
    requires k < |s.inflight|
  {
    var io := s.inflight[k];
    && io.page < |s.pages| && s.pages[io.page].wbuf == Some(io.wbuf) && io.wbuf < |s.wbufs|
    && s.wbufs[io.wbuf].full && io.offset == s.pages[io.page].written
  }

  ghost predicate Flows(s: State) {
    && (forall p :: 0 <= p < |s.pages| ==> Flow(s, s.pages[p]))
    && (forall k :: 0 <= k < |s.inflight| ==> InFlight(s, k))
    && (forall j, k :: 0 <= j < k < |s.inflight| ==> s.inflight[j].page != s.inflight[k].page)
  }

  ghost predicate BuffersOk(s: State) {
    s.conf.Valid() && |s.wbufs| == s.conf.wbufCount && BuffersConserved(s) && Flows(s)
  }

  lemma OwnBuffer(s: State, p: nat, q: nat)
    requires BuffersOk(s) && p < |s.pages| && q < |s.pages| && p != q && s.pages[p].wbuf.Some?
    ensures s.pages[q].wbuf != s.pages[p].wbuf
    ensures s.pages[p].wbuf.value < |s.wbufs|
  {
    assert Flow(s, s.pages[p]);
    if s.pages[q].wbuf == s.pages[p].wbuf {
      AttachedOnce(s.pages, p, q, s.pages[p].wbuf.value);
    }
  }

  lemma OffStack(s: State, p: nat)
    requires BuffersOk(s) && p < |s.pages|
    ensures forall w :: w in s.wbufStack ==> w < |s.wbufs| && s.pages[p].wbuf != Some(w)
  {
    forall w | w in s.wbufStack ensures w < |s.wbufs| && s.pages[p].wbuf != Some(w) {
      TimesIn(s.wbufStack, w);
      AttachedUpdate(s.pages, p, s.pages[p], w);
    }
  }

  /** The numbers below n. */
  function Below(n: nat): set<nat> {
    if n == 0 then {} else Below(n - 1) + {n - 1}
  }

  lemma {:induction false} BelowFacts(n: nat)
    ensures |Below(n)| == n && forall x: nat :: x in Below(n) <==> x < n
  {
    if n > 0 { BelowFacts(n - 1); }
  }

  function WbufSet(inflight: seq<WriteIo>): set<nat> {
    if inflight == [] then {} else {inflight[0].wbuf} + WbufSet(inflight[1..])
  }

  lemma {:induction false} WbufSetSize(inflight: seq<WriteIo>)
    requires forall j, k :: 0 <= j < k < |inflight| ==> inflight[j].wbuf != inflight[k].wbuf
    ensures |WbufSet(inflight)| == |inflight|
    ensures forall w :: w in WbufSet(inflight) ==> exists k :: 0 <= k < |inflight| && inflight[k].wbuf == w
  {
    if inflight != [] {
      var rest := inflight[1..];
      WbufSetSize(rest);
      forall w | w in WbufSet(inflight) ensures exists k :: 0 <= k < |inflight| && inflight[k].wbuf == w {
        if w in WbufSet(rest) {
          var k :| 0 <= k < |rest| && rest[k].wbuf == w;
          assert inflight[k + 1].wbuf == w;
        } else {
          assert inflight[0].wbuf == w;
        }
      }
    }
  }

  /** While a page has a buffer that is not full, an IO object is left for it:
  _submit_wbuf never finds the stack empty. */
  lemma IoAvailable(s: State, p: nat)
    requires BuffersOk(s) && p < |s.pages| && s.pages[p].wbuf.Some? && s.pages[p].wbuf.value < |s.wbufs|
    requires !s.wbufs[s.pages[p].wbuf.value].full
    ensures s.ioStack != []
  {
    var used := WbufSet(s.inflight);
    forall j, k | 0 <= j < k < |s.inflight| ensures s.inflight[j].wbuf != s.inflight[k].wbuf {
      assert InFlight(s, j) && InFlight(s, k);
      OwnBuffer(s, s.inflight[j].page, s.inflight[k].page);
    }
    WbufSetSize(s.inflight);
    var w := s.pages[p].wbuf.value;
    BelowFacts(s.conf.wbufCount);
    forall x | x in used ensures x in Below(s.conf.wbufCount) - {w} {
      var k :| 0 <= k < |s.inflight| && s.inflight[k].wbuf == x;
      assert InFlight(s, k);
    }
    Subset(used, Below(s.conf.wbufCount) - {w});
  }

  lemma {:induction false} Subset(a: set<nat>, b: set<nat>)
    requires forall x :: x in a ==> x in b
    ensures |a| <= |b|
  {
    if a != {} {
      var x :| x in a;
      Subset(a - {x}, b - {x});
    }
  }

  lemma NextFits(a: nat, w: nat, page: nat)
    requires w > 0 && a % w == 0 && page % w == 0 && a < page
    ensures a + w <= page && (a + w) % w == 0
  {
    var i, n := a / w, page / w;
    assert a == w * i && page == w * n;
    if n <= i { TimesMonotone(w, n, i); }
    TimesMonotone(w, i + 1, n);
    assert w * (i + 1) == a + w;
    ModAdd(a, w);
  }

  lemma ModAdd(a: nat, w: nat)
    requires w > 0
    ensures (a + w) % w == a % w
  {
    assert a + w == w * (a / w + 1) + a % w;
    DivUnique(a + w, w, a / w + 1, a % w);
  }

  /** What a step may do to a page without touching the flow of its buffers. */
  predicate SameFlow(g: Page, g': Page) {
    && g'.allotted == g.allotted && g'.written == g.written && g'.wbuf == g.wbuf && g'.active == g.active
    && g'.free == g.free && (g.free ==> g'.refcount == g.refcount)
  }

  /** Steps that leave buffers, IO and the flow of pages alone. */
  lemma BuffersFrame(s: State, s': State)
    requires BuffersOk(s) && s'.conf == s.conf && s'.wbufs == s.wbufs && s'.wbufStack == s.wbufStack
    requires s'.ioStack == s.ioStack && s'.inflight == s.inflight && |s'.pages| == |s.pages|
    requires forall p :: 0 <= p < |s.pages| ==> SameFlow(s.pages[p], s'.pages[p])
    ensures BuffersOk(s')
  {
    forall w: nat ensures Attached(s'.pages, w) == Attached(s.pages, w) {
      AttachedSame(s.pages, s'.pages, w);
    }
    forall p | 0 <= p < |s'.pages| ensures Flow(s', s'.pages[p]) {
      assert Flow(s, s.pages[p]) && SameFlow(s.pages[p], s'.pages[p]);
    }
    forall k | 0 <= k < |s'.inflight| ensures InFlight(s', k) {
      assert InFlight(s, k) && SameFlow(s.pages[s.inflight[k].page], s'.pages[s.inflight[k].page]);
    }
  }

  lemma {:induction false} AttachedSame(pages: seq<Page>, pages': seq<Page>, w: nat)
    requires |pages'| == |pages| && forall p :: 0 <= p < |pages| ==> pages'[p].wbuf == pages[p].wbuf
    ensures Attached(pages', w) == Attached(pages, w)
  {
    if pages != [] { AttachedSame(pages[1..], pages'[1..], w); }
  }

  lemma TakeBuffers(s: State, p: nat, b: nat)
    requires BuffersOk(s) && p < |s.pages| && s.pages[p].free && b < |s.pageBuckets| && s.pageFree > 0
    ensures BuffersOk(Take(s, p, b))
  {
    var s' := Take(s, p, b);
    assert Flow(s, s.pages[p]);
    forall w: nat ensures Attached(s'.pages, w) == Attached(s.pages, w) {
      AttachedSame(s.pages, s'.pages, w);
    }
    forall q | 0 <= q < |s'.pages| ensures Flow(s', s'.pages[q]) {
      assert Flow(s, s.pages[q]);
    }
    forall k | 0 <= k < |s'.inflight| ensures InFlight(s', k) {
      assert InFlight(s, k);
    }
  }

  lemma AllocateBuffers(s: State, b: nat, fb: nat)
    requires BuffersOk(s) && PagesOk(s) && fb < |s.freeBuckets| && b < |s.pageBuckets|
    ensures Candidate(s, fb).Some? ==> Candidate(s, fb).value < |s.pages| && s.pageFree > 0
    ensures BuffersOk(AllocatePage(s, b, fb))
  {
    if Candidate(s, fb).Some? {
      CandidateOk(s, fb);
      hide Flow, BuffersConserved;
      if fb != 0 && s.freeBuckets[fb] != [] {
        var s1 := s.(freeBuckets := s.freeBuckets[fb := s.freeBuckets[fb][1..]]);
        BuffersSameParts(s, s1);
        TakeBuffers(s1, s.freeBuckets[fb][0], b);
      } else {
        var s1 := s.(freelist := s.freelist[1..]);
        BuffersSameParts(s, s1);
        TakeBuffers(s1, s.freelist[0], b);
      }
    }
  }

  lemma BuffersSameParts(s: State, s': State)
    requires BuffersOk(s) && s'.conf == s.conf && s'.wbufs == s.wbufs && s'.wbufStack == s.wbufStack
    requires s'.ioStack == s.ioStack && s'.inflight == s.inflight && s'.pages == s.pages
    ensures BuffersOk(s')
  {
    BuffersFrame(s, s');
  }

  /** A page is freed only when it is not active, so it has no buffer. */
  lemma FreeBuffers(s: State, p: nat)
    requires BuffersOk(s) && p < |s.pages| && !s.pages[p].active && s.pages[p].refcount == 0
    requires s.pages[p].bucket < |s.pageBuckets| && s.pages[p].freeBucket < |s.freeBuckets|
    ensures BuffersOk(FreePage(s, p))
  {
    var s' := FreePage(s, p);
    hide Attached;
    assert Flow(s, s.pages[p]);
    forall w: nat ensures Attached(s'.pages, w) == Attached(s.pages, w) {
      AttachedSame(s.pages, s'.pages, w);
    }
    forall q | 0 <= q < |s'.pages| ensures Flow(s', s'.pages[q]) {
      assert Flow(s, s.pages[q]);
      FreedFlow(s, s', s.pages[q]);
    }
    forall k | 0 <= k < |s'.inflight| ensures InFlight(s', k) {
      assert InFlight(s, k);
    }
  }

  lemma FreedFlow(s: State, s': State, g: Page)
    requires Flow(s, g) && s'.conf == s.conf && s'.wbufs == s.wbufs
    ensures Flow(s', g) && (g.wbuf.None? && g.refcount == 0 ==> Flow(s', Freed(g)))
  {
    assert 0 % s.conf.wbufSize == 0;
  }

  lemma SubmitBuffers(s: State, p: nat)
    requires BuffersOk(s) && p < |s.pages| && s.pages[p].wbuf.Some? && s.pages[p].wbuf.value < |s.wbufs|
    requires !s.wbufs[s.pages[p].wbuf.value].full && |s.wbufs[s.pages[p].wbuf.value].buf| == s.conf.wbufSize
    ensures s.ioStack != [] && s.wbufs[s.pages[p].wbuf.value].free <= |s.wbufs[s.pages[p].wbuf.value].buf|
    ensures BuffersOk(Submit(s, p))
  {
    IoAvailable(s, p);
    assert Flow(s, s.pages[p]);
    var s' := Submit(s, p);
    hide BuffersConserved, Flow;
    SubmitConserves(s, p);
    forall q | 0 <= q < |s'.pages| ensures Flow(s', s'.pages[q]) {
      SubmitFlow(s, p, q);
    }
    forall k | 0 <= k < |s'.inflight| ensures InFlight(s', k) {
      if k < |s.inflight| {
        assert InFlight(s, k);
      } else {
        FlowBuffer(s, s.pages[p]);
      }
    }
    forall j | 0 <= j < |s.inflight| ensures s.inflight[j].page != p {
      assert InFlight(s, j);
    }
  }

  lemma FlowBuffer(s: State, g: Page)
    requires Flow(s, g) && g.wbuf.Some?
    ensures g.active && g.wbuf.value < |s.wbufs| && s.wbufs[g.wbuf.value].offset == g.written
  {}

  lemma SubmitFlow(s: State, p: nat, q: nat)
    requires BuffersOk(s) && p < |s.pages| && q < |s.pages| && s.pages[p].wbuf.Some?
    requires s.pages[p].wbuf.value < |s.wbufs|
    requires s.ioStack != [] && s.wbufs[s.pages[p].wbuf.value].free <= |s.wbufs[s.pages[p].wbuf.value].buf|
    ensures Flow(Submit(s, p), s.pages[q])
  {
    assert Flow(s, s.pages[q]);
  }

  lemma SubmitConserves(s: State, p: nat)
    requires BuffersConserved(s) && p < |s.pages| && s.pages[p].wbuf.Some? && s.pages[p].wbuf.value < |s.wbufs|
    requires s.ioStack != [] && s.wbufs[s.pages[p].wbuf.value].free <= |s.wbufs[s.pages[p].wbuf.value].buf|
    ensures BuffersConserved(Submit(s, p))
  {
    var s' := Submit(s, p);
    forall i: nat ensures Times(s'.ioStack, i) + InUse(s'.inflight, i) == if i < s.conf.wbufCount then 1 else 0 {
      hide Times;
      assert Times(s.ioStack, i) + InUse(s.inflight, i) == if i < s.conf.wbufCount then 1 else 0;
      TimesTail(s.ioStack, i);
      InUseConcat(s.inflight, [s'.inflight[|s.inflight|]], i);
    }
  }

  lemma AttachBuffers(s: State, p: nat)
    requires BuffersOk(s) && p < |s.pages| && s.pages[p].active && s.pages[p].wbuf.None?
    requires s.pages[p].allotted < s.conf.pageSize
    ensures s.wbufStack != [] ==> s.wbufStack[0] < |s.wbufs|
    ensures BuffersOk(Attach(s, p))
  {
    if s.wbufStack != [] {
      OffStack(s, p);
      var w := s.wbufStack[0];
      assert w in s.wbufStack;
      var s' := Attach(s, p);
      assert Flow(s, s.pages[p]);
      NextFits(s.pages[p].written, s.conf.wbufSize, s.conf.pageSize);
      hide BuffersConserved;
      AttachConserves(s, p);
      forall q | 0 <= q < |s'.pages| ensures Flow(s', s'.pages[q]) {
        assert Flow(s, s.pages[q]);
        OffStack(s, q);
      }
      forall k | 0 <= k < |s'.inflight| ensures InFlight(s', k) {
        assert InFlight(s, k);
        OffStack(s, s.inflight[k].page);
      }
    }
  }

  lemma AttachConserves(s: State, p: nat)
    requires BuffersConserved(s) && p < |s.pages| && s.pages[p].wbuf.None? && s.wbufStack != []
    requires s.wbufStack[0] < |s.wbufs|
    ensures BuffersConserved(Attach(s, p))
  {
    var s' := Attach(s, p);
    forall w: nat ensures Times(s'.wbufStack, w) + Attached(s'.pages, w) == if w < s.conf.wbufCount then 1 else 0 {
      hide Times;
      assert Times(s.wbufStack, w) + Attached(s.pages, w) == if w < s.conf.wbufCount then 1 else 0;
      TimesTail(s.wbufStack, w);
      AttachedUpdate(s.pages, p, s'.pages[p], w);
    }
  }

  lemma StoreBuffers(s: State, p: nat, data: seq<Byte>)
    requires BuffersOk(s) && p < |s.pages| && s.pages[p].wbuf.Some? && s.pages[p].wbuf.value < |s.wbufs|
    requires var wb := s.wbufs[s.pages[p].wbuf.value]; |data| <= wb.free <= |wb.buf| == s.conf.wbufSize
    ensures BuffersOk(Store(s, p, data))
  {
    var s' := Store(s, p, data);
    forall w: nat ensures Attached(s'.pages, w) == Attached(s.pages, w) {
      AttachedSame(s.pages, s'.pages, w);
    }
    forall q | 0 <= q < |s'.pages| ensures Flow(s', s'.pages[q]) {
      assert Flow(s, s.pages[q]);
    }
    forall k | 0 <= k < |s'.inflight| ensures InFlight(s', k) {
      assert InFlight(s, k);
    }
  }

  /** The buffer that is written fits the page. */
  lemma InFlightFits(s: State, k: nat)
    requires BuffersOk(s) && k < |s.inflight|
    ensures var io := s.inflight[k];
      && io.page < |s.pages| && io.wbuf < |s.wbufs| && s.pages[io.page].active
      && s.pages[io.page].wbuf == Some(io.wbuf) && io.offset == s.pages[io.page].written == s.wbufs[io.wbuf].offset
      && io.offset + s.conf.wbufSize == s.pages[io.page].allotted <= s.conf.pageSize
  {
    assert InFlight(s, k);
    assert Flow(s, s.pages[s.inflight[k].page]);
  }

  lemma PwriteBuffers(s: State, k: nat)
    requires BuffersOk(s) && k < |s.inflight| && s.inflight[k].page < |s.disk| && s.inflight[k].wbuf < |s.wbufs|
    requires s.inflight[k].offset + |s.wbufs[s.inflight[k].wbuf].buf| <= |s.disk[s.inflight[k].page]|
    ensures BuffersOk(Pwrite(s, k))
  {
    var s' := Pwrite(s, k);
    forall i: nat ensures InUse(s'.inflight, i) == InUse(s.inflight, i) {
      InUseWithout(s.inflight, k, i);
    }
    forall q | 0 <= q < |s'.pages| ensures Flow(s', s'.pages[q]) {
      assert Flow(s, s.pages[q]);
    }
    forall j | 0 <= j < |s'.inflight| ensures InFlight(s', j) {
      assert InFlight(s, j);
    }
  }

  /** The callback returns the buffer and the IO object that it used. */
  lemma FlushedBuffers(s: State, k: nat)
    requires BuffersOk(s) && k < |s.inflight|
    ensures s.inflight[k].page < |s.pages| && BuffersOk(Flushed(s, k))
  {
    InFlightFits(s, k);
    var s' := Flushed(s, k);
    var io := s.inflight[k];
    ModAdd(s.pages[io.page].written, s.conf.wbufSize);
    assert Flow(s, s.pages[io.page]);
    hide BuffersConserved;
    FlushedConserves(s, k);
    forall q | 0 <= q < |s'.pages| ensures Flow(s', s'.pages[q]) {
      assert Flow(s, s.pages[q]);
    }
    forall j | 0 <= j < |s'.inflight| ensures InFlight(s', j) {
      assert InFlight(s, if j < k then j else j + 1);
    }
  }

  lemma FlushedConserves(s: State, k: nat)
    requires BuffersConserved(s) && k < |s.inflight| && s.inflight[k].page < |s.pages|
    requires s.pages[s.inflight[k].page].wbuf == Some(s.inflight[k].wbuf)
    ensures BuffersConserved(Flushed(s, k))
  {
    var s' := Flushed(s, k);
    var io := s.inflight[k];
    forall w: nat ensures Times(s'.wbufStack, w) + Attached(s'.pages, w) == if w < s.conf.wbufCount then 1 else 0 {
      hide Times;
      assert Times(s.wbufStack, w) + Attached(s.pages, w) == if w < s.conf.wbufCount then 1 else 0;
      TimesCons(s.wbufStack, io.wbuf, w);
      AttachedUpdate(s.pages, io.page, s'.pages[io.page], w);
    }
    forall i: nat ensures Times(s'.ioStack, i) + InUse(s'.inflight, i) == if i < s.conf.wbufCount then 1 else 0 {
      hide Times;
      assert Times(s.ioStack, i) + InUse(s.inflight, i) == if i < s.conf.wbufCount then 1 else 0;
      TimesCons(s.ioStack, io.io, i);
      InUseWithout(s.inflight, k, i);
    }
  }
}

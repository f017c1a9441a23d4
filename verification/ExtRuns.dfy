/** The storage engine as a machine whose steps are the critical sections of its
writers, readers, IO threads and maintenance thread, in any order. */
module ExtRuns {
  import opened Basics
  import opened ExtState
  import opened ExtPages
  import opened ExtBuffers
  import opened ExtData

  datatype Step =
    /** extstore_write_request of the writer of bucket b, in three parts. */
    | Pick(b: nat, fb: nat) | Act(b: nat, data: seq<Byte>) | Retry(b: nat, fb: nat)
    /** The IO thread on a write. */
    | Write(k: nat) | Callback(k: nat)
    /** The IO thread on a read: the check under the page lock, and the rest. */
    | Accept(h: Handle) | Finish(k: nat)
    | Delete(page: nat, v: nat, count: nat, bytes: nat) | Close(page: nat, v: nat)
    /** The maintenance thread: one look at each page, then the eviction. */
    | Wake | Scan | Evict

  /** What the parts of the state that steps rewrite have in common. */
  ghost predicate Core(s: State) {
    Shape(s) && PagesOk(s) && BuffersOk(s) && DataOk(s) && RefsOk(s)
  }

  /** The head of a bucket list is full, so another page may be allocated. */
  predicate HeadFull(s: State, b: nat)
    requires b < |s.pageBuckets|
  {
    var list := s.pageBuckets[b];
    list != [] ==> list[0] < |s.pages| && s.pages[list[0]].allotted == s.conf.pageSize
  }

  ghost predicate AllFull(s: State, list: seq<nat>) {
    forall p :: p in list ==> p < |s.pages| && s.pages[p].allotted == s.conf.pageSize
  }

  ghost predicate TailFull(s: State, b: nat)
    requires b < |s.pageBuckets|
  {
    s.pageBuckets[b] != [] ==> AllFull(s, s.pageBuckets[b][1..])
  }

  /** A writer that is between locks still works on the head of its bucket, or
  every page of its bucket is full. */
  ghost predicate WriterOk(s: State, b: nat)
    requires b < |s.pageBuckets| && b < |s.writers|
  {
    && TailFull(s, b)
    && match s.writers[b]
       case Idle => true
       case NeedPage => HeadFull(s, b)
       case Picked(p) => p < |s.pages| && (HeadFull(s, b) || (s.pageBuckets[b] != [] && s.pageBuckets[b][0] == p))
  }

  ghost predicate WritersOk(s: State) {
    |s.pageBuckets| == |s.writers| && forall b :: 0 <= b < |s.writers| ==> WriterOk(s, b)
  }

  /** The page that the maintenance thread may evict stays out of use until then. */
  predicate LowOk(s: State, i: nat, low: Option<(nat, nat)>) {
    low.Some? ==> (
      && low.value.0 < i && low.value.0 < |s.pages|
      && var g := s.pages[low.value.0];
      && !g.active && !g.free && g.version == low.value.1 && g.freeBucket == 0)
  }

  predicate MaintOk(s: State) {
    s.maint.Scanning? ==> s.maint.i <= |s.pages| && LowOk(s, s.maint.i, s.maint.low)
  }

  ghost predicate Inv(s: State) { Core(s) && WritersOk(s) && MaintOk(s) }

  lemma InvCore(s: State)
    requires Inv(s)
    ensures Core(s)
  {}

  predicate Enabled(s: State, step: Step) {
    match step
    case Pick(b, fb) => b < |s.writers| && s.writers[b].Idle? && fb < |s.freeBuckets|
    case Act(b, data) => b < |s.writers| && s.writers[b].Picked? && |data| > 0
    case Retry(b, fb) => b < |s.writers| && s.writers[b].NeedPage? && fb < |s.freeBuckets|
    case Write(k) => k < |s.inflight| && !s.inflight[k].stored
    case Callback(k) => k < |s.inflight| && s.inflight[k].stored
    case Accept(h) => h in s.objects && h.page < |s.pages|
    case Finish(k) => k < |s.pending|
    case Delete(p, v, count, bytes) => p < |s.pages|
    case Close(p, v) => p < |s.pages|
    case Wake => s.maint.Asleep?
    case Scan => s.maint.Scanning? && s.maint.i < |s.pages|
    case Evict => s.maint.Scanning? && s.maint.i == |s.pages|
  }

  /** One page record changed in ways that neither lists, buffers nor bytes see. */
  function SetPage(s: State, p: nat, g: Page): State
    requires p < |s.pages|
  {
    s.(pages := s.pages[p := g])
  }

  function SetWriter(s: State, b: nat, w: Writer): State
    requires b < |s.writers|
  {
    s.(writers := s.writers[b := w])
  }

  /** Indices that every part of write_request relies on. */
  ghost predicate Ready(s: State, p: nat) {
    && Core(s) && p < |s.pages| && s.pages[p].active && !s.pages[p].free
    && (s.pages[p].wbuf.Some? ==> s.pages[p].wbuf.value < |s.wbufs|)
  }

  lemma ReadyWhenActive(s: State, p: nat)
    requires Core(s) && p < |s.pages| && s.pages[p].active
    ensures Ready(s, p)
  {
    assert Flow(s, s.pages[p]);
  }

  lemma AllocateCore(s: State, b: nat, fb: nat)
    requires Core(s) && fb < |s.freeBuckets| && b < |s.pageBuckets|
    ensures Candidate(s, fb).Some? ==> Candidate(s, fb).value < |s.pages| && s.pageFree > 0
    ensures Core(AllocatePage(s, b, fb))
  {
    AllocateKeepsPages(s, b, fb);
    AllocateBuffers(s, b, fb);
    AllocateData(s, b, fb);
    hide PagesOk, BuffersOk, DataOk;
    var s' := AllocatePage(s, b, fb);
    forall p | 0 <= p < |s'.pages| ensures s'.pages[p].refcount == Readers(s'.pending, p) {
      assert s.pages[p].refcount == Readers(s.pending, p);
    }
  }

  lemma FreeCore(s: State, p: nat)
    requires Core(s) && p < |s.pages| && !s.pages[p].free && !s.pages[p].active && s.pages[p].refcount == 0
    ensures s.pages[p].bucket < |s.pageBuckets| && s.pages[p].freeBucket < |s.freeBuckets|
    ensures Core(FreePage(s, p))
  {
    FreeKeepsPages(s, p);
    FreeBuffers(s, p);
    FreeData(s, p);
    hide PagesOk, BuffersOk, DataOk;
    var s' := FreePage(s, p);
    forall q | 0 <= q < |s'.pages| ensures s'.pages[q].refcount == Readers(s'.pending, q) {
      assert s.pages[q].refcount == Readers(s.pending, q);
    }
  }

  lemma SubmitCore(s: State, p: nat)
    requires Ready(s, p) && s.pages[p].wbuf.Some? && !s.wbufs[s.pages[p].wbuf.value].full
    ensures s.ioStack != [] && s.wbufs[s.pages[p].wbuf.value].free <= |s.wbufs[s.pages[p].wbuf.value].buf|
    ensures Core(Submit(s, p))
  {
    assert Flow(s, s.pages[p]);
    SubmitBuffers(s, p);
    SubmitData(s, p);
    PagesFrame(s, Submit(s, p));
  }

  lemma AttachCore(s: State, p: nat)
    requires Ready(s, p) && s.pages[p].wbuf.None? && s.pages[p].allotted < s.conf.pageSize
    ensures s.wbufStack != [] ==> s.wbufStack[0] < |s.wbufs|
    ensures Core(Attach(s, p))
  {
    AttachBuffers(s, p);
    AttachData(s, p);
    hide BuffersOk, DataOk;
    PagesFrame(s, Attach(s, p));
    var s' := Attach(s, p);
    forall q | 0 <= q < |s'.pages| ensures s'.pages[q].refcount == Readers(s'.pending, q) {
      assert s.pages[q].refcount == Readers(s.pending, q);
    }
  }

  lemma StoreCore(s: State, p: nat, data: seq<Byte>)
    requires Ready(s, p) && s.pages[p].wbuf.Some? && !s.wbufs[s.pages[p].wbuf.value].full
    requires 0 < |data| <= s.wbufs[s.pages[p].wbuf.value].free
    ensures s.wbufs[s.pages[p].wbuf.value].free <= |s.wbufs[s.pages[p].wbuf.value].buf| == s.conf.wbufSize
    ensures Core(Store(s, p, data))
    ensures |s.log| < VERSIONS ==> NextHandle(s, p, |data|) !in s.objects
  {
    assert Flow(s, s.pages[p]);
    StoreBuffers(s, p, data);
    StoreData(s, p, data);
    hide BuffersOk, DataOk;
    PagesFrame(s, Store(s, p, data));
    var s' := Store(s, p, data);
    forall q | 0 <= q < |s'.pages| ensures s'.pages[q].refcount == Readers(s'.pending, q) {
      assert s.pages[q].refcount == Readers(s.pending, q);
    }
  }

  lemma PwriteCore(s: State, k: nat)
    requires Core(s) && k < |s.inflight|
    ensures s.inflight[k].page < |s.disk| && s.inflight[k].wbuf < |s.wbufs|
    ensures s.inflight[k].offset + |s.wbufs[s.inflight[k].wbuf].buf| <= |s.disk[s.inflight[k].page]|
    ensures Core(Pwrite(s, k))
  {
    PwriteData(s, k);
    PwriteBuffers(s, k);
    hide BuffersOk, DataOk;
    PagesFrame(s, Pwrite(s, k));
  }

  lemma FlushedCore(s: State, k: nat)
    requires Core(s) && k < |s.inflight| && s.inflight[k].stored
    ensures s.inflight[k].page < |s.pages| && Core(Flushed(s, k))
  {
    FlushedData(s, k);
    FlushedBuffers(s, k);
    hide BuffersOk, DataOk;
    PagesFrame(s, Flushed(s, k));
    var s' := Flushed(s, k);
    forall q | 0 <= q < |s'.pages| ensures s'.pages[q].refcount == Readers(s'.pending, q) {
      assert s.pages[q].refcount == Readers(s.pending, q);
    }
  }

  /** Counters and the closed mark are nobody else's business. */
  lemma TweakCore(s: State, p: nat, g: Page)
    requires Core(s) && p < |s.pages|
    requires g == s.pages[p].(objCount := g.objCount, bytesUsed := g.bytesUsed, closed := g.closed)
    ensures Core(SetPage(s, p, g))
  {
    var s' := SetPage(s, p, g);
    PagesFrame(s, s');
    BuffersFrame(s, s');
    DataFrame(s, s');
  }

  lemma WriterCore(s: State, b: nat, w: Writer)
    requires Core(s) && b < |s.writers|
    ensures Core(SetWriter(s, b, w))
  {
    var s' := SetWriter(s, b, w);
    PagesFrame(s, s');
    BuffersFrame(s, s');
    DataFrame(s, s');
  }

  lemma MaintCore(s: State, m: Maint)
    requires Core(s)
    ensures Core(s.(maint := m))
  {
    var s' := s.(maint := m);
    PagesFrame(s, s');
    BuffersFrame(s, s');
    DataFrame(s, s');
  }

  /** The check of an IO thread on a read: a page that is gone or closed refuses
  it, a buffer serves it at once, and otherwise a reference keeps the page. */
  predicate Accepts(g: Page, h: Handle) { !g.free && !g.closed && g.version == h.version }

  predicate FromBuffer(g: Page, h: Handle) { g.active && h.offset >= g.written }

  function AcceptRead(s: State, h: Handle): State
    requires h.page < |s.pages|
  {
    var g := s.pages[h.page];
    if Accepts(g, h) && !FromBuffer(g, h) then
      SetPage(s, h.page, g.(refcount := g.refcount + 1)).(pending := s.pending + [h])
    else s
  }

  function FinishRead(s: State, k: nat): State
    requires k < |s.pending| && s.pending[k].page < |s.pages| && s.pages[s.pending[k].page].refcount > 0
  {
    var p := s.pending[k].page;
    SetPage(s, p, s.pages[p].(refcount := s.pages[p].refcount - 1)).(pending := s.pending[..k] + s.pending[k + 1..])
  }

  /** An object that is not in the buffer of its page is on disk. */
  lemma AcceptedIsOnDisk(s: State, h: Handle)
    requires BuffersOk(s) && ObjectsOk(s) && h in s.objects && h.page < |s.pages|
    requires Accepts(s.pages[h.page], h) && !FromBuffer(s.pages[h.page], h)
    ensures Pending(s, h)
  {
    assert Object(s, h);
    assert Flow(s, s.pages[h.page]);
  }

  lemma AcceptCore(s: State, h: Handle)
    requires Core(s) && h in s.objects && h.page < |s.pages|
    ensures Core(AcceptRead(s, h))
  {
    if Accepts(s.pages[h.page], h) && !FromBuffer(s.pages[h.page], h) {
      var s' := AcceptRead(s, h);
      AcceptRefs(s, h);
      PagesFrame(s, s');
      AcceptBuffers(s, h);
      AcceptData(s, h);
    }
  }

  lemma AcceptBuffers(s: State, h: Handle)
    requires BuffersOk(s) && h.page < |s.pages|
    ensures BuffersOk(AcceptRead(s, h))
  {
    BuffersFrame(s, AcceptRead(s, h));
  }

  lemma AcceptData(s: State, h: Handle)
    requires BuffersOk(s) && DataOk(s) && h in s.objects && h.page < |s.pages|
    requires Accepts(s.pages[h.page], h) && !FromBuffer(s.pages[h.page], h)
    ensures DataOk(AcceptRead(s, h))
  {
    var s' := AcceptRead(s, h);
    var s1 := s.(pages := s'.pages);
    DataFrame(s, s1);
    if |s.log| < VERSIONS { AcceptedIsOnDisk(s, h); }
    PendingData(s1, s');
  }

  /** Adding or removing accepted reads. */
  lemma PendingData(s: State, s': State)
    requires DataOk(s) && s' == s.(pending := s'.pending)
    requires |s.log| < VERSIONS ==> forall r :: r in s'.pending ==> r in s.pending || Pending(s, r)
    ensures DataOk(s')
  {
    if |s.log| < VERSIONS {
      forall r | r in s'.pending ensures Pending(s', r) {
        assert Pending(s, r);
      }
      forall r | r in s'.objects ensures Object(s', r) {
        assert Object(s, r);
      }
    }
    forall k | 0 <= k < |s'.inflight| ensures Copied(s', k) {
      assert Copied(s, k);
    }
  }

  lemma AcceptRefs(s: State, h: Handle)
    requires RefsOk(s) && h.page < |s.pages| && Accepts(s.pages[h.page], h)
    ensures RefsOk(AcceptRead(s, h))
  {
    var s' := AcceptRead(s, h);
    forall q | 0 <= q < |s'.pages| ensures s'.pages[q].refcount == Readers(s'.pending, q) {
      ReadersConcat(s.pending, [h], q);
      assert s.pages[q].refcount == Readers(s.pending, q);
    }
  }

  /** Every accepted disk read holds a reference on a page in use. */
  lemma PendingHolds(s: State, k: nat)
    requires Core(s) && k < |s.pending|
    ensures s.pending[k].page < |s.pages|
    ensures s.pages[s.pending[k].page].refcount > 0 && !s.pages[s.pending[k].page].free
  {
    var h := s.pending[k];
    ReadersIn(s.pending, h);
    assert s.pages[h.page].refcount == Readers(s.pending, h.page);
    assert Flow(s, s.pages[h.page]);
  }

  lemma FinishCore(s: State, k: nat)
    requires Core(s) && k < |s.pending|
    ensures s.pending[k].page < |s.pages|
    ensures s.pages[s.pending[k].page].refcount > 0 && Core(FinishRead(s, k))
  {
    PendingHolds(s, k);
    var s' := FinishRead(s, k);
    FinishRefs(s, k);
    PagesFrame(s, s');
    BuffersFrame(s, s');
    var s1 := s.(pages := s'.pages);
    DataFrame(s, s1);
    PendingData(s1, s');
  }

  lemma FinishRefs(s: State, k: nat)
    requires RefsOk(s) && k < |s.pending| && s.pending[k].page < |s.pages| && s.pages[s.pending[k].page].refcount > 0
    ensures RefsOk(FinishRead(s, k))
  {
    var s' := FinishRead(s, k);
    forall q | 0 <= q < |s'.pages| ensures s'.pages[q].refcount == Readers(s'.pending, q) {
      assert s.pending == s.pending[..k] + ([s.pending[k]] + s.pending[k + 1..]);
      ReadersConcat(s.pending[..k], [s.pending[k]] + s.pending[k + 1..], q);
      ReadersConcat([s.pending[k]], s.pending[k + 1..], q);
      ReadersConcat(s.pending[..k], s.pending[k + 1..], q);
      assert s.pages[q].refcount == Readers(s.pending, q);
    }
  }

  /** The buffer of p when it cannot take len more bytes goes to the IO threads;
  a page without a buffer gets one while there is room. */
  function MakeRoom(s: State, p: nat, len: nat): State
    requires Ready(s, p)
  {
    var g := s.pages[p];
    if g.wbuf.Some? && s.wbufs[g.wbuf.value].free < len && !s.wbufs[g.wbuf.value].full then
      SubmitCore(s, p);
      Submit(s, p)
    else if g.wbuf.None? && g.allotted < s.conf.pageSize then
      AttachCore(s, p);
      Attach(s, p)
    else s
  }

  predicate Fits(s: State, p: nat, len: nat)
    requires p < |s.pages|
  {
    var g := s.pages[p];
    g.wbuf.Some? && g.wbuf.value < |s.wbufs| && !s.wbufs[g.wbuf.value].full && s.wbufs[g.wbuf.value].free >= len
  }

  lemma MakeRoomReady(s: State, p: nat, len: nat)
    requires Ready(s, p)
    ensures Ready(MakeRoom(s, p, len), p)
  {
    var g := s.pages[p];
    if g.wbuf.Some? && s.wbufs[g.wbuf.value].free < len && !s.wbufs[g.wbuf.value].full {
      SubmitCore(s, p);
    } else if g.wbuf.None? && g.allotted < s.conf.pageSize {
      AttachCore(s, p);
    }
    hide Core;
  }

  predicate PageFull(s: State, p: nat)
    requires p < |s.pages| && (s.pages[p].active && s.pages[p].wbuf.Some? ==> s.pages[p].wbuf.value < |s.wbufs|)
  {
    var g := s.pages[p];
    !g.active || ((g.wbuf.None? || s.wbufs[g.wbuf.value].full) && g.allotted >= s.conf.pageSize)
  }

  /** write_request under the page lock, with the copy and extstore_write when it
  succeeds. */
  function ActOn(s: State, p: nat, data: seq<Byte>): State
    requires Ready(s, p) && |data| > 0
  {
    MakeRoomReady(s, p, |data|);
    var s1 := MakeRoom(s, p, |data|);
    if Fits(s1, p, |data|) then
      StoreCore(s1, p, data);
      Store(s1, p, data)
    else s1
  }

  lemma ActCore(s: State, p: nat, data: seq<Byte>)
    requires Ready(s, p) && |data| > 0
    ensures Core(ActOn(s, p, data))
  {
    MakeRoomReady(s, p, |data|);
    var s1 := MakeRoom(s, p, |data|);
    if Fits(s1, p, |data|) { StoreCore(s1, p, data); }
    hide Core;
  }

  /** The maintenance thread looks at page i. */
  function ScanPage(s: State): State
    requires Core(s) && s.maint.Scanning? && s.maint.i < |s.pages|
  {
    var i := s.maint.i;
    var g := s.pages[i];
    if g.active || g.free then s.(maint := s.maint.(i := i + 1))
    else
      var older := s.maint.low.None? || g.version < s.maint.low.value.1;
      var low := if g.objCount > 0 && !g.closed && g.freeBucket == 0 && older then Some((i, g.version))
          else s.maint.low;
      if (g.objCount == 0 || g.closed) && g.refcount == 0 then
        FreeCore(s, i);
        FreePage(s, i).(maint := Scanning(i + 1, false, low))
      else s.(maint := Scanning(i + 1, s.maint.evict, low))
  }

  /** After the scan it evicts the oldest page, if it still has to. */
  function EvictLow(s: State): State
    requires Core(s) && s.maint.Scanning? && LowOk(s, |s.pages|, s.maint.low)
  {
    if s.maint.evict && s.maint.low.Some? then
      var p := s.maint.low.value.0;
      var g := s.pages[p];
      if g.closed then s.(maint := Asleep)
      else
        var s1 := SetPage(s, p, g.(closed := true));
        TweakCore(s, p, g.(closed := true));
        if g.refcount == 0 then
          FreeCore(s1, p);
          FreePage(s1, p).(maint := Asleep)
        else s1.(maint := Asleep)
    else s.(maint := Asleep)
  }

  function Deleted(g: Page, count: nat, bytes: nat): Page {
    g.(bytesUsed := if g.bytesUsed >= bytes then g.bytesUsed - bytes else 0,
       objCount := if g.objCount >= count then g.objCount - count else 0)
  }

  /** write_request under the engine lock: the head of the bucket, or a new page. */
  function PickPage(s: State, b: nat, fb: nat): State
    requires Core(s) && b < |s.pageBuckets| && b < |s.writers| && fb < |s.freeBuckets|
  {
    if s.pageBuckets[b] != [] then SetWriter(s, b, Picked(s.pageBuckets[b][0]))
    else
      AllocateCore(s, b, fb);
      var s1 := AllocatePage(s, b, fb);
      if s1.pageBuckets[b] == [] then s1 else SetWriter(s1, b, Picked(s1.pageBuckets[b][0]))
  }

  /** And under the lock of the page that was picked. */
  function ActOnPicked(s: State, b: nat, data: seq<Byte>): State
    requires Inv(s) && b < |s.writers| && s.writers[b].Picked? && |data| > 0
  {
    var p := s.writers[b].page;
    PickedKnown(s, b);
    if PageFull(s, p) then SetWriter(s, b, NeedPage)
    else
      ReadyWhenActive(s, p);
      SetWriter(ActOn(s, p, data), b, Idle)
  }

  /** One step of one thread. */
  function Apply(s: State, step: Step): State
    requires Inv(s) && Enabled(s, step)
  {
    match step
    case Pick(b, fb) => PickPage(s, b, fb)
    case Act(b, data) => ActOnPicked(s, b, data)
    case Retry(b, fb) =>
      AllocateCore(s, b, fb);
      SetWriter(AllocatePage(s, b, fb), b, Idle)
    case Write(k) => PwriteCore(s, k); Pwrite(s, k)
    case Callback(k) => FlushedCore(s, k); Flushed(s, k)
    case Accept(h) => AcceptRead(s, h)
    case Finish(k) =>
      FinishCore(s, k);
      FinishRead(s, k)
    case Delete(p, v, count, bytes) =>
      if !s.pages[p].closed && s.pages[p].version == v then SetPage(s, p, Deleted(s.pages[p], count, bytes)) else s
    case Close(p, v) =>
      if !s.pages[p].closed && s.pages[p].version == v then SetPage(s, p, s.pages[p].(closed := true)) else s
    case Wake => s.(maint := Scanning(0, s.pageFree == 0 || s.freelist == [], None))
    case Scan => ScanPage(s)
    case Evict => EvictLow(s)
  }

  lemma PickedKnown(s: State, b: nat)
    requires Inv(s) && b < |s.writers| && s.writers[b].Picked?
    ensures s.writers[b].page < |s.pages|
    ensures var g := s.pages[s.writers[b].page]; g.active && g.wbuf.Some? ==> g.wbuf.value < |s.wbufs|
  {
    assert WriterOk(s, b);
    assert Flow(s, s.pages[s.writers[b].page]);
  }

  /** What most steps do to a page: a full one stays full, and one that is in
  use but no longer active stays as it is. */
  predicate Steady(g: Page, g': Page, full: nat) {
    && (g.allotted == full ==> g'.allotted == full)
    && (!g.active && !g.free ==> !g'.active && !g'.free && g'.version == g.version && g'.freeBucket == g.freeBucket)
  }

  ghost predicate SteadyStep(s: State, s': State) {
    && s'.pageBuckets == s.pageBuckets && s'.writers == s.writers && s'.maint == s.maint && s'.conf == s.conf
    && |s'.pages| == |s.pages| && forall p :: 0 <= p < |s.pages| ==> Steady(s.pages[p], s'.pages[p], s.conf.pageSize)
  }

  lemma SteadyKeeps(s: State, s': State)
    requires WritersOk(s) && MaintOk(s) && SteadyStep(s, s')
    ensures WritersOk(s') && MaintOk(s')
  {
    forall b | 0 <= b < |s'.writers| ensures WriterOk(s', b) {
      assert WriterOk(s, b);
    }
  }

  lemma SetWriterOk(s: State, b: nat, w: Writer)
    requires WritersOk(s) && MaintOk(s) && b < |s.writers|
    requires WriterOk(SetWriter(s, b, w), b)
    ensures WritersOk(SetWriter(s, b, w)) && MaintOk(SetWriter(s, b, w))
  {
    var s' := SetWriter(s, b, w);
    forall j | 0 <= j < |s'.writers| ensures WriterOk(s', j) {
      assert WriterOk(s, j);
    }
  }

  /** The assertion of _allocate_page holds, and gives what follows it. */
  lemma AllocateWriters(s: State, b: nat, fb: nat, w: Writer)
    requires Core(s) && WritersOk(s) && MaintOk(s) && b < |s.writers| && fb < |s.freeBuckets| && HeadFull(s, b)
    requires w.Idle? || (w.Picked? && Candidate(s, fb) == Some(w.page))
    ensures Candidate(s, fb).Some? ==> Candidate(s, fb).value < |s.pages| && s.pageFree > 0
    ensures var s' := SetWriter(AllocatePage(s, b, fb), b, w); WritersOk(s') && MaintOk(s')
  {
    AllocateCore(s, b, fb);
    hide Core;
    AllocateShape(s, b, fb);
    match Candidate(s, fb)
    case None =>
      assert WriterOk(s, b);
      SetWriterOk(s, b, w);
    case Some(p) =>
      CoreCandidate(s, fb);
      var s' := SetWriter(AllocatePage(s, b, fb), b, w);
      hide AllocatePage, Candidate;
      forall j | 0 <= j < |s'.writers| ensures WriterOk(s', j) {
        PushedWriter(s, s', b, p, w, j);
      }
      PushedMaint(s, s', p);
  }

  /** Page p, which was free, is the new head of bucket b. */
  lemma PushedWriter(s: State, s': State, b: nat, p: nat, w: Writer, j: nat)
    requires WritersOk(s) && p < |s.pages| && b < |s.writers| && j < |s.writers| && HeadFull(s, b)
    requires s'.pageBuckets == s.pageBuckets[b := [p] + s.pageBuckets[b]] && s'.writers == s.writers[b := w]
    requires |s'.pages| == |s.pages| && s'.pages == s.pages[p := s'.pages[p]]
    requires s'.pages[p].allotted == s.pages[p].allotted
    requires s'.conf == s.conf && (w.Idle? || w == Picked(p))
    ensures WriterOk(s', j)
  {
    assert WriterOk(s, j);
    var list := s.pageBuckets[b];
    if j == b {
      assert s'.pageBuckets[b][1..] == list;
      if list != [] { assert list == [list[0]] + list[1..]; }
    }
  }

  lemma PushedMaint(s: State, s': State, p: nat)
    requires MaintOk(s) && p < |s.pages| && s.pages[p].free && s'.maint == s.maint
    requires |s'.pages| == |s.pages| && s'.pages == s.pages[p := s'.pages[p]]
    ensures MaintOk(s')
  {}

  lemma AllocateShape(s: State, b: nat, fb: nat)
    requires fb < |s.freeBuckets| && b < |s.pageBuckets|
    requires Candidate(s, fb).Some? ==> Candidate(s, fb).value < |s.pages| && s.pageFree > 0
    ensures var s' := AllocatePage(s, b, fb);
      && s'.writers == s.writers && s'.maint == s.maint && s'.conf == s.conf && |s'.pages| == |s.pages|
      && match Candidate(s, fb)
         case None => s' == s
         case Some(p) =>
           && s'.pageBuckets == s.pageBuckets[b := [p] + s.pageBuckets[b]]
           && s'.pages == s.pages[p := s'.pages[p]] && s'.pages[p].allotted == s.pages[p].allotted && !s'.pages[p].free
           && s'.log == s.log + [p] && s'.pages[p].version == s.version && s'.pages[p].bucket == b
  {}

  lemma CoreCandidate(s: State, fb: nat)
    requires Core(s) && fb < |s.freeBuckets| && Candidate(s, fb).Some?
    ensures Candidate(s, fb).value < |s.pages| && s.pages[Candidate(s, fb).value].free
  {
    CandidateOk(s, fb);
  }

  lemma {:induction false} UnlinkedShape(list: seq<nat>, p: nat)
    requires p in list
    ensures list[0] == p ==> Unlinked(list, p) == list[1..]
    ensures list[0] != p ==> Unlinked(list, p) != [] && Unlinked(list, p)[0] == list[0]
    ensures list[0] != p ==> forall q :: q in Unlinked(list, p)[1..] ==> q in list[1..]
  {
    if list[0] != p {
      var rest := list[1..];
      UnlinkedShape(rest, p);
      assert Unlinked(list, p)[1..] == Unlinked(rest, p);
      forall q | q in Unlinked(rest, p) ensures q in rest {
        if rest[0] != p {
          assert Unlinked(rest, p) == [rest[0]] + Unlinked(rest, p)[1..];
        }
      }
    }
  }

  /** Taking a page out of a bucket list that is full behind its head. */
  lemma FreeWriters(s: State, p: nat)
    requires Core(s) && WritersOk(s) && p < |s.pages| && !s.pages[p].free && !s.pages[p].active
    requires s.pages[p].refcount == 0
    ensures s.pages[p].bucket < |s.pageBuckets| && s.pages[p].freeBucket < |s.freeBuckets|
    ensures WritersOk(FreePage(s, p))
  {
    hide Core, WriterOk;
    FreeCore(s, p);
    UsedInCore(s, p);
    var s' := FreePage(s, p);
    forall j | 0 <= j < |s'.writers| ensures WriterOk(s', j) {
      assert WriterOk(s, j);
      FreedElsewhere(s, p, j);
      FreeWriterAt(s, p, j);
    }
  }

  lemma UsedInCore(s: State, p: nat)
    requires Core(s) && p < |s.pages| && !s.pages[p].free && s.pages[p].bucket < |s.pageBuckets|
    ensures p in s.pageBuckets[s.pages[p].bucket]
  {
    UsedIsListed(s, p);
  }

  lemma FreeWriterAt(s: State, p: nat, j: nat)
    requires p < |s.pages| && j < |s.pageBuckets| && j < |s.writers| && WriterOk(s, j)
    requires s.pages[p].bucket < |s.pageBuckets| && s.pages[p].freeBucket < |s.freeBuckets|
    requires p in s.pageBuckets[s.pages[p].bucket] && p !in FreePage(s, p).pageBuckets[j]
    ensures WriterOk(FreePage(s, p), j)
  {
    var s' := FreePage(s, p);
    var list, list' := s.pageBuckets[j], s'.pageBuckets[j];
    if j == s.pages[p].bucket { UnlinkedShape(list, p); }
    if list' != [] {
      assert list'[0] in list';
      assert list' == [list'[0]] + list'[1..];
      if list != [] && list[0] == p && j == s.pages[p].bucket { assert list'[0] in list[1..]; }
      forall q | q in list'[1..] ensures q < |s'.pages| && s'.pages[q].allotted == s'.conf.pageSize {
        assert q in list' && q != p && q in list[1..];
      }
    }
  }

  /** The freed page is on no bucket list any more. */
  lemma FreedElsewhere(s: State, p: nat, j: nat)
    requires Core(s) && p < |s.pages| && !s.pages[p].free && j < |s.pageBuckets|
    requires s.pages[p].bucket < |s.pageBuckets| && s.pages[p].freeBucket < |s.freeBuckets|
    requires Core(FreePage(s, p))
    ensures p !in FreePage(s, p).pageBuckets[j]
  {
    assert UsedList(FreePage(s, p).pages, FreePage(s, p).pageBuckets[j], j);
  }

  lemma PickInv(s: State, b: nat, fb: nat)
    requires Inv(s) && Enabled(s, Pick(b, fb))
    ensures Inv(Apply(s, Pick(b, fb)))
  {
    hide Core, AllocatePage;
    if s.pageBuckets[b] != [] {
      HeadIsPage(s, b);
      assert WriterOk(s, b);
      SetWriterOk(s, b, Picked(s.pageBuckets[b][0]));
      WriterCore(s, b, Picked(s.pageBuckets[b][0]));
    } else {
      AllocateCore(s, b, fb);
      AllocateShape(s, b, fb);
      match Candidate(s, fb) {
        case None =>
        case Some(p) =>
          AllocateWriters(s, b, fb, Picked(p));
          WriterCore(AllocatePage(s, b, fb), b, Picked(p));
      }
    }
  }

  lemma HeadIsPage(s: State, b: nat)
    requires Core(s) && b < |s.pageBuckets| && s.pageBuckets[b] != []
    ensures s.pageBuckets[b][0] < |s.pages|
  {
    assert UsedList(s.pages, s.pageBuckets[b], b);
    assert s.pageBuckets[b][0] in s.pageBuckets[b];
  }

  lemma RetryInv(s: State, b: nat, fb: nat)
    requires Inv(s) && Enabled(s, Retry(b, fb))
    ensures Inv(Apply(s, Retry(b, fb)))
  {
    AllocateCore(s, b, fb);
    hide Core, AllocatePage;
    assert WriterOk(s, b);
    AllocateWriters(s, b, fb, Idle);
    AllocateShapeWriters(s, b, fb);
    WriterCore(AllocatePage(s, b, fb), b, Idle);
  }

  lemma AllocateShapeWriters(s: State, b: nat, fb: nat)
    requires fb < |s.freeBuckets| && b < |s.pageBuckets|
    requires Candidate(s, fb).Some? ==> Candidate(s, fb).value < |s.pages| && s.pageFree > 0
    ensures AllocatePage(s, b, fb).writers == s.writers
  {}

  /** A writer that finds its page full may ask for another. */
  lemma FullGivesHeadFull(s: State, b: nat)
    requires Inv(s) && b < |s.writers| && s.writers[b].Picked? && s.writers[b].page < |s.pages|
    requires var g := s.pages[s.writers[b].page]; g.active && g.wbuf.Some? ==> g.wbuf.value < |s.wbufs|
    requires PageFull(s, s.writers[b].page)
    ensures HeadFull(s, b)
  {
    var p := s.writers[b].page;
    assert WriterOk(s, b);
    assert Flow(s, s.pages[p]);
    if s.pageBuckets[b] != [] {
      assert UsedList(s.pages, s.pageBuckets[b], b);
      assert s.pageBuckets[b][0] in s.pageBuckets[b];
    }
  }

  lemma RoomSteady(s: State, p: nat, len: nat)
    requires Ready(s, p)
    ensures SteadyStep(s, MakeRoom(s, p, len))
  {
    hide Core;
    var g := s.pages[p];
    if g.wbuf.Some? && s.wbufs[g.wbuf.value].free < len && !s.wbufs[g.wbuf.value].full {
      SubmitCore(s, p);
    } else if g.wbuf.None? && g.allotted < s.conf.pageSize {
      AttachCore(s, p);
    }
  }

  lemma ActSteady(s: State, p: nat, data: seq<Byte>)
    requires Ready(s, p) && |data| > 0
    ensures SteadyStep(s, ActOn(s, p, data))
  {
    hide Core, MakeRoom;
    RoomSteady(s, p, |data|);
    MakeRoomReady(s, p, |data|);
    var s1 := MakeRoom(s, p, |data|);
    if Fits(s1, p, |data|) { StoreCore(s1, p, data); }
  }

  lemma ActInv(s: State, b: nat, data: seq<Byte>)
    requires Inv(s) && Enabled(s, Act(b, data))
    ensures Inv(Apply(s, Act(b, data)))
  {
    var p := s.writers[b].page;
    PickedKnown(s, b);
    assert WriterOk(s, b);
    if PageFull(s, p) {
      FullGivesHeadFull(s, b);
      SetWriterOk(s, b, NeedPage);
      WriterCore(s, b, NeedPage);
    } else {
      ReadyWhenActive(s, p);
      ActCore(s, p, data);
      ActSteady(s, p, data);
      hide Core, ActOn;
      var s1 := ActOn(s, p, data);
      SteadyKeeps(s, s1);
      assert WriterOk(s1, b);
      SetWriterOk(s1, b, Idle);
      WriterCore(s1, b, Idle);
    }
  }

  lemma WriteInv(s: State, step: Step)
    requires Inv(s) && Enabled(s, step) && (step.Write? || step.Callback?)
    ensures Inv(Apply(s, step))
  {
    hide Core;
    if step.Write? {
      PwriteCore(s, step.k);
      SteadyKeeps(s, Pwrite(s, step.k));
    } else {
      FlushedCore(s, step.k);
      FlushedSteady(s, step.k);
      SteadyKeeps(s, Flushed(s, step.k));
    }
  }

  lemma FlushedSteady(s: State, k: nat)
    requires Core(s) && k < |s.inflight|
    ensures s.inflight[k].page < |s.pages| && SteadyStep(s, Flushed(s, k))
  {
    InFlightFits(s, k);
  }

  lemma ReadInv(s: State, step: Step)
    requires Inv(s) && Enabled(s, step) && (step.Accept? || step.Finish?)
    ensures Inv(Apply(s, step))
  {
    hide Core;
    if step.Accept? {
      AcceptCore(s, step.h);
    } else {
      FinishCore(s, step.k);
    }
    SteadyKeeps(s, Apply(s, step));
  }

  lemma TweakInv(s: State, step: Step)
    requires Inv(s) && Enabled(s, step) && (step.Delete? || step.Close?)
    ensures Inv(Apply(s, step))
  {
    hide Core;
    var s' := Apply(s, step);
    var g' := s'.pages[step.page];
    assert s' == SetPage(s, step.page, g');
    TweakCore(s, step.page, g');
    TweakSteady(s, step.page, g');
    SteadyKeeps(s, s');
  }

  lemma TweakSteady(s: State, p: nat, g: Page)
    requires p < |s.pages| && g == s.pages[p].(objCount := g.objCount, bytesUsed := g.bytesUsed, closed := g.closed)
    ensures SteadyStep(s, SetPage(s, p, g))
  {}

  lemma ScanInv(s: State)
    requires Inv(s) && Enabled(s, Scan)
    ensures Inv(Apply(s, Scan))
  {
    hide Core;
    var i := s.maint.i;
    var g := s.pages[i];
    var s' := Apply(s, Scan);
    if !g.active && !g.free && (g.objCount == 0 || g.closed) && g.refcount == 0 {
      FreeCore(s, i);
      FreeWriters(s, i);
      MaintCore(FreePage(s, i), s'.maint);
      MaintOnly(FreePage(s, i), s'.maint);
    } else {
      MaintCore(s, s'.maint);
      MaintOnly(s, s'.maint);
    }
  }

  lemma MaintOnly(s: State, m: Maint)
    requires WritersOk(s)
    ensures WritersOk(s.(maint := m))
  {
    var s' := s.(maint := m);
    forall b | 0 <= b < |s'.writers| ensures WriterOk(s', b) {
      assert WriterOk(s, b);
    }
  }

  lemma EvictInv(s: State)
    requires Inv(s) && Enabled(s, Evict)
    ensures Inv(Apply(s, Evict))
  {
    hide Core;
    if s.maint.evict && s.maint.low.Some? && !s.pages[s.maint.low.value.0].closed {
      var p := s.maint.low.value.0;
      var s1 := SetPage(s, p, s.pages[p].(closed := true));
      TweakCore(s, p, s.pages[p].(closed := true));
      TweakSteady(s, p, s.pages[p].(closed := true));
      SteadyKeeps(s, s1);
      if s1.pages[p].refcount == 0 {
        FreeCore(s1, p);
        FreeWriters(s1, p);
        AsleepInv(FreePage(s1, p));
      } else {
        AsleepInv(s1);
      }
    } else {
      AsleepInv(s);
    }
  }

  lemma AsleepInv(s: State)
    requires Core(s) && WritersOk(s)
    ensures Inv(s.(maint := Asleep))
  {
    MaintCore(s, Asleep);
    hide Core;
    MaintOnly(s, Asleep);
  }

  /** Every step of every thread keeps everything. */
  lemma StepInv(s: State, step: Step)
    requires Inv(s) && Enabled(s, step)
    ensures Inv(Apply(s, step))
  {
    hide Inv, Apply;
    match step
    case Pick(b, fb) => PickInv(s, b, fb);
    case Act(b, data) => ActInv(s, b, data);
    case Retry(b, fb) => RetryInv(s, b, fb);
    case Write(k) => WriteInv(s, step);
    case Callback(k) => WriteInv(s, step);
    case Accept(h) => ReadInv(s, step);
    case Finish(k) => ReadInv(s, step);
    case Delete(p, v, count, bytes) => TweakInv(s, step);
    case Close(p, v) => TweakInv(s, step);
    case Wake => WakeInv(s);
    case Scan => ScanInv(s);
    case Evict => EvictInv(s);
  }

  lemma WakeInv(s: State)
    requires Inv(s) && Enabled(s, Wake)
    ensures Inv(Apply(s, Wake))
  {
    var m := Apply(s, Wake).maint;
    MaintCore(s, m);
    hide Core;
    MaintOnly(s, m);
  }
}

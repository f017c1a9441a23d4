/** What holds in every run of the storage engine. */
module ExtTheorems {
  import opened Basics
  import opened ExtState
  import opened ExtPages
  import opened ExtBuffers
  import opened ExtData
  import opened ExtRuns

  ghost predicate IsRun(s: State, steps: seq<Step>)
    requires Inv(s)
    decreases |steps|
  {
    steps == [] || (Enabled(s, steps[0]) && (StepInv(s, steps[0]); IsRun(Apply(s, steps[0]), steps[1..])))
  }

  ghost function Final(s: State, steps: seq<Step>): State
    requires Inv(s) && IsRun(s, steps)
    decreases |steps|
  {
    if steps == [] then s
    else
      StepInv(s, steps[0]);
      Final(Apply(s, steps[0]), steps[1..])
  }

  /** The invariant of all runs: no page is lost or listed twice, buffers and IO
  objects are conserved, and every byte is where the next read looks for it. */
  lemma {:induction false} RunInv(s: State, steps: seq<Step>)
    requires Inv(s) && IsRun(s, steps)
    ensures Inv(Final(s, steps))
    decreases |steps|
  {
    if steps != [] {
      StepInv(s, steps[0]);
      RunInv(Apply(s, steps[0]), steps[1..]);
    }
  }

  /** What a step may do to the use of a page: nothing, or take it off a free
  list under the next version, or, if nobody writes or reads it, free it. */
  predicate Turn(s: State, s': State, p: nat)
    requires p < |s.pages| && p < |s'.pages|
  {
    var g, g' := s.pages[p], s'.pages[p];
    || (g'.free == g.free && g'.version == g.version)
    || (g.free && !g'.free && g'.version == s.version && s'.log == s.log + [p])
    || (!g.free && g'.free && !g.active && g.refcount == 0 && s.maint.Scanning?)
  }

  /** The page that was allocated last. */
  function Newest(s: State): nat
    requires s.log != []
  {
    s.log[|s.log| - 1]
  }

  /** Page p was free and is in use now, under the version that was next. */
  predicate Took(s: State, s': State, p: nat) {
    && s'.log == s.log + [p] && p < |s.pages| && p < |s'.pages|
    && s.pages[p].free && !s'.pages[p].free && s'.pages[p].version == s.version
  }

  /** What was written is never taken back, and the log of allocations grows by
  at most one page, which is free until then and gets the next version. */
  ghost predicate Effect(s: State, s': State) {
    && |s'.pages| == |s.pages| && (forall p :: 0 <= p < |s.pages| ==> Turn(s, s', p))
    && (s'.log == s.log || (s'.log != [] && Took(s, s', Newest(s'))))
    && (|s.log| < VERSIONS ==> forall h :: h in s.objects ==> h in s'.objects && s'.objects[h] == s.objects[h])
  }

  lemma AllocateEffect(s: State, b: nat, fb: nat)
    requires Core(s) && fb < |s.freeBuckets| && b < |s.pageBuckets|
    ensures Candidate(s, fb).Some? ==> Candidate(s, fb).value < |s.pages| && s.pageFree > 0
    ensures Effect(s, AllocatePage(s, b, fb))
  {
    hide Core;
    AllocateCore(s, b, fb);
    AllocateShape(s, b, fb);
    if Candidate(s, fb).Some? { CoreCandidate(s, fb); }
    var s' := AllocatePage(s, b, fb);
    assert s'.objects == s.objects;
  }

  lemma ActEffect(s: State, p: nat, data: seq<Byte>)
    requires Ready(s, p) && |data| > 0
    ensures Effect(s, ActOn(s, p, data))
  {
    hide Core, MakeRoom;
    MakeRoomReady(s, p, |data|);
    var s1 := MakeRoom(s, p, |data|);
    RoomEffect(s, p, |data|);
    if Fits(s1, p, |data|) {
      StoreCore(s1, p, data);
    }
  }

  lemma RoomEffect(s: State, p: nat, len: nat)
    requires Ready(s, p)
    ensures var s' := MakeRoom(s, p, len);
      && s'.log == s.log && s'.objects == s.objects && |s'.pages| == |s.pages|
      && forall q :: 0 <= q < |s.pages| ==>
           s'.pages[q].free == s.pages[q].free && s'.pages[q].version == s.pages[q].version
  {
    hide Core;
    var g := s.pages[p];
    if g.wbuf.Some? && s.wbufs[g.wbuf.value].free < len && !s.wbufs[g.wbuf.value].full {
      SubmitCore(s, p);
    } else if g.wbuf.None? && g.allotted < s.conf.pageSize {
      AttachCore(s, p);
    }
  }

  lemma IoEffect(s: State, step: Step)
    requires Inv(s) && Enabled(s, step) && (step.Write? || step.Callback?)
    ensures Effect(s, Apply(s, step))
  {
    hide Core;
    if step.Write? { PwriteCore(s, step.k); } else { FlushedCore(s, step.k); }
  }

  lemma ReadEffect(s: State, step: Step)
    requires Inv(s) && Enabled(s, step) && (step.Accept? || step.Finish?)
    ensures Effect(s, Apply(s, step))
  {
    hide Core;
    if step.Finish? { FinishCore(s, step.k); }
  }

  lemma FreeEffect(s: State, p: nat, m: Maint)
    requires Core(s) && s.maint.Scanning? && p < |s.pages| && !s.pages[p].free && !s.pages[p].active
    requires s.pages[p].refcount == 0
    ensures s.pages[p].bucket < |s.pageBuckets| && s.pages[p].freeBucket < |s.freeBuckets|
    ensures Effect(s, FreePage(s, p).(maint := m))
  {
    hide Core;
    FreeCore(s, p);
  }

  lemma ScanEffect(s: State)
    requires Inv(s) && Enabled(s, Scan)
    ensures Effect(s, Apply(s, Scan))
  {
    hide Core, FreePage;
    var i := s.maint.i;
    var g := s.pages[i];
    if !g.active && !g.free && g.refcount == 0 {
      FreeEffect(s, i, Apply(s, Scan).maint);
    }
  }

  lemma EvictEffect(s: State)
    requires Inv(s) && Enabled(s, Evict)
    ensures Effect(s, Apply(s, Evict))
  {
    hide Core, FreePage;
    if s.maint.evict && s.maint.low.Some? {
      var p := s.maint.low.value.0;
      TweakCore(s, p, s.pages[p].(closed := true));
      var s1 := SetPage(s, p, s.pages[p].(closed := true));
      if !s.pages[p].closed && s.pages[p].refcount == 0 {
        FreeEffect(s1, p, Asleep);
        EffectAfterClose(s, s1, Apply(s, Evict));
      }
    }
  }

  lemma EffectAfterClose(s: State, s1: State, s2: State)
    requires Effect(s1, s2) && s1.log == s.log && s1.objects == s.objects && s1.version == s.version
    requires s1.maint == s.maint
    requires |s1.pages| == |s.pages|
    requires forall p :: 0 <= p < |s.pages| ==> s1.pages[p] == s.pages[p].(closed := s1.pages[p].closed)
    ensures Effect(s, s2)
  {
    forall p | 0 <= p < |s.pages| ensures Turn(s, s2, p) {
      assert Turn(s1, s2, p);
    }
  }

  lemma WriterEffect(s: State, step: Step)
    requires Inv(s) && Enabled(s, step) && (step.Pick? || step.Retry?)
    ensures Effect(s, Apply(s, step))
  {
    hide Core, AllocatePage, Effect;
    AllocateEffect(s, step.b, step.fb);
    var s' := Apply(s, step);
    if step.Pick? && s.pageBuckets[step.b] != [] {
      EffectSame(s, s');
    } else {
      EffectFrame(s, AllocatePage(s, step.b, step.fb), s');
    }
  }

  /** Only pages, log and objects matter to what a step has done. */
  lemma EffectFrame(s: State, s1: State, s2: State)
    requires Effect(s, s1) && s2.pages == s1.pages && s2.log == s1.log && s2.objects == s1.objects
    ensures Effect(s, s2)
  {
    hide Took;
    if s1.log != s.log {
      assert Took(s, s1, Newest(s1));
      TookFrame(s, s1, s2, Newest(s1));
    }
    forall p | 0 <= p < |s.pages| ensures Turn(s, s2, p) {
      assert Turn(s, s1, p);
    }
  }

  lemma TookFrame(s: State, s1: State, s2: State, p: nat)
    requires Took(s, s1, p) && s2.pages == s1.pages && s2.log == s1.log
    ensures Took(s, s2, p)
  {}

  lemma EffectSame(s: State, s': State)
    requires |s'.pages| == |s.pages| && s'.log == s.log && s'.objects == s.objects
    requires forall p :: 0 <= p < |s.pages| ==>
      s'.pages[p].free == s.pages[p].free && s'.pages[p].version == s.pages[p].version
    ensures Effect(s, s')
  {}

  lemma ActStepEffect(s: State, b: nat, data: seq<Byte>)
    requires Inv(s) && Enabled(s, Act(b, data))
    ensures Effect(s, Apply(s, Act(b, data)))
  {
    hide Core, ActOn, Effect;
    PickedKnown(s, b);
    var p, s' := s.writers[b].page, Apply(s, Act(b, data));
    if PageFull(s, p) {
      EffectSame(s, s');
    } else {
      ReadyWhenActive(s, p);
      ActEffect(s, p, data);
      EffectFrame(s, ActOn(s, p, data), s');
    }
  }

  lemma OtherEffect(s: State, step: Step)
    requires Inv(s) && Enabled(s, step) && (step.Delete? || step.Close? || step.Wake?)
    ensures Effect(s, Apply(s, step))
  {
    hide Core;
  }

  lemma StepEffect(s: State, step: Step)
    requires Inv(s) && Enabled(s, step)
    ensures Effect(s, Apply(s, step))
  {
    hide Inv, Apply, Effect;
    match step
    case Pick(b, fb) => WriterEffect(s, step);
    case Retry(b, fb) => WriterEffect(s, step);
    case Act(b, data) => ActStepEffect(s, b, data);
    case Write(k) => IoEffect(s, step);
    case Callback(k) => IoEffect(s, step);
    case Accept(h) => ReadEffect(s, step);
    case Finish(k) => ReadEffect(s, step);
    case Scan => ScanEffect(s);
    case Evict => EvictEffect(s);
    case _ => OtherEffect(s, step);
  }

  /** A write that succeeds records exactly the bytes it was given under a handle
  that names its page and generation, and that was never given out before. */
  lemma WriteRecords(s: State, b: nat, data: seq<Byte>)
    requires Inv(s) && Enabled(s, Act(b, data)) && |s.log| < VERSIONS
    ensures var s' := Apply(s, Act(b, data));
      s'.objects == s.objects || exists h :: Recorded(s, s', s.writers[b].page, h, data)
  {
    PickedKnown(s, b);
    var p := s.writers[b].page;
    if !PageFull(s, p) {
      ReadyWhenActive(s, p);
      ActRecords(s, p, data);
      hide Core, ActOn;
      var s1 := ActOn(s, p, data);
      if s1.objects != s.objects {
        var h :| Recorded(s, s1, p, h, data);
        assert Recorded(s, Apply(s, Act(b, data)), p, h, data);
      }
    }
  }

  ghost predicate Recorded(s: State, s': State, p: nat, h: Handle, data: seq<Byte>) {
    h !in s.objects && h.page == p && h.len == |data| && Live(s', h) && s'.objects == s.objects[h := data]
  }

  lemma ActRecords(s: State, p: nat, data: seq<Byte>)
    requires Ready(s, p) && |data| > 0 && |s.log| < VERSIONS
    ensures ActOn(s, p, data).objects == s.objects || exists h :: Recorded(s, ActOn(s, p, data), p, h, data)
  {
    hide Core, MakeRoom;
    MakeRoomReady(s, p, |data|);
    RoomEffect(s, p, |data|);
    var s1 := MakeRoom(s, p, |data|);
    if Fits(s1, p, |data|) {
      StoreCore(s1, p, data);
      assert Recorded(s, Store(s1, p, data), p, NextHandle(s1, p, |data|), data);
    }
  }

  /** The assertions of _read_from_wbuf hold for every accepted read of a handle,
  and the bytes it copies are the bytes that were written. */
  lemma BufferReadIsExact(s: State, h: Handle)
    requires Inv(s) && |s.log| < VERSIONS && h in s.objects && h.page < |s.pages|
    requires Accepts(s.pages[h.page], h) && FromBuffer(s.pages[h.page], h)
    ensures BufferHas(s, s.pages[h.page], h, s.objects[h])
  {
    assert Object(s, h);
    assert Flow(s, s.pages[h.page]);
  }

  /** At any moment of an accepted disk read, the disk holds the bytes that were
  written, and the page is in use and of the generation asked for. */
  lemma DiskReadIsExact(s: State, k: nat)
    requires Inv(s) && |s.log| < VERSIONS && k < |s.pending|
    ensures var h := s.pending[k];
      h in s.objects && h.len == |s.objects[h]| && Live(s, h) && s.pages[h.page].refcount > 0 &&
          OnDisk(s, h, s.objects[h])
  {
    var h := s.pending[k];
    PendingHolds(s, k);
    assert Pending(s, h);
    assert Object(s, h);
  }

  lemma EffectLog(s: State, s1: State)
    requires Effect(s, s1)
    ensures |s.log| <= |s1.log| && s1.log[..|s.log|] == s.log
  {}

  lemma {:induction false} RunGrows(s: State, steps: seq<Step>)
    requires Inv(s) && IsRun(s, steps)
    ensures |s.log| <= |Final(s, steps).log| && Final(s, steps).log[..|s.log|] == s.log
    ensures |Final(s, steps).log| < VERSIONS ==>
      forall h :: h in s.objects ==> h in Final(s, steps).objects && Final(s, steps).objects[h] == s.objects[h]
    decreases |steps|
  {
    hide Inv, Apply, Enabled, Turn, Took;
    if steps == [] {
      assert s.log[..|s.log|] == s.log;
    } else {
      StepInv(s, steps[0]);
      StepEffect(s, steps[0]);
      var s1 := Apply(s, steps[0]);
      RunGrows(s1, steps[1..]);
      EffectLog(s, s1);
      assert Final(s, steps).log[..|s.log|] == s1.log[..|s.log|];
    }
  }

  /** The main theorem: an object written in any reachable state reads back as
  the bytes that were written, however long after and whatever other threads did
  between, each time the read is accepted: from the buffer, or from disk at any
  time until the read is over. It holds as long as fewer than 2^32 pages have
  been allocated. */
  lemma ReadsReturnWhatWasWritten(s: State, h: Handle, steps: seq<Step>)
    requires Inv(s) && h in s.objects && IsRun(s, steps) && |Final(s, steps).log| < VERSIONS
    ensures ReadsAs(Final(s, steps), h, s.objects[h])
  {
    RunInv(s, steps);
    RunGrows(s, steps);
    ReadsNow(Final(s, steps), h);
  }

  /** Whichever way a read of h is served, it gets these bytes. */
  predicate ReadsAs(s: State, h: Handle, data: seq<Byte>) {
    && h.page < |s.pages|
    && (Accepts(s.pages[h.page], h) && FromBuffer(s.pages[h.page], h) ==> BufferHas(s, s.pages[h.page], h, data))
    && (h in s.pending ==> OnDisk(s, h, data))
  }

  /** The assertions of _read_from_wbuf, and what its memcpy copies. */
  predicate BufferHas(s: State, g: Page, h: Handle, data: seq<Byte>) {
    && g.wbuf.Some? && g.wbuf.value < |s.wbufs| && h.offset < g.written + s.conf.wbufSize
    && var wb := s.wbufs[g.wbuf.value];
    && wb.offset <= h.offset && h.offset - wb.offset + h.len <= |wb.buf|
    && wb.buf[h.offset - wb.offset..h.offset - wb.offset + h.len] == data
  }

  lemma ReadsNow(s: State, h: Handle)
    requires Inv(s) && h in s.objects && |s.log| < VERSIONS
    ensures ReadsAs(s, h, s.objects[h])
  {
    ObjectKnown(s, h);
    if h.page < |s.pages| && Accepts(s.pages[h.page], h) && FromBuffer(s.pages[h.page], h) {
      BufferReadIsExact(s, h);
    }
    if h in s.pending {
      var k :| 0 <= k < |s.pending| && s.pending[k] == h;
      DiskReadIsExact(s, k);
    }
    hide Inv;
  }

  lemma ObjectKnown(s: State, h: Handle)
    requires Inv(s) && h in s.objects && |s.log| < VERSIONS
    ensures h.page < |s.pages| && h.len == |s.objects[h]|
  {
    assert Object(s, h);
  }

  /** Which page is freed: never an active one, never one that is being read,
  and only by the maintenance thread. */
  lemma NoEarlyFree(s: State, step: Step, p: nat)
    requires Inv(s) && Enabled(s, step) && p < |s.pages| && !s.pages[p].free
    ensures p < |Apply(s, step).pages|
    ensures Apply(s, step).pages[p].free ==>
      s.maint.Scanning? && !s.pages[p].active && s.pages[p].refcount == 0 && p !in Reading(s)
  {
    StepEffect(s, step);
    NotRead(s, p);
    hide Inv, Apply;
    assert Turn(s, Apply(s, step), p);
  }

  /** The pages that accepted disk reads are on. */
  function Reading(s: State): set<nat> { set h | h in s.pending :: h.page }

  lemma NotRead(s: State, p: nat)
    requires Inv(s) && p < |s.pages|
    ensures s.pages[p].refcount == 0 ==> p !in Reading(s)
  {
    assert s.pages[p].refcount == Readers(s.pending, p);
    if p in Reading(s) {
      var h :| h in s.pending && h.page == p;
      ReadersIn(s.pending, h);
    }
  }

  /** The version of the i-th allocation. */
  function VersionOf(i: nat): nat { (1 + i) % VERSIONS }

  /** Versions tell two allocations apart exactly when they are not a multiple of
  2^32 allocations apart, and 0, which marks free pages, is given out at the
  2^32-th. */
  lemma VersionsRepeat(i: nat, j: nat)
    ensures VersionOf(i) == VersionOf(j) <==> (i - j) % VERSIONS == 0
    ensures VersionOf(i) == 0 <==> i % VERSIONS == VERSIONS - 1
  {}

  /** Page p is in use and holds generation v. */
  predicate Holds(s: State, p: nat, v: nat) {
    p < |s.pages| && !s.pages[p].free && s.pages[p].version == v
  }

  /** A page that does not hold generation v now has been freed since, or never
  had it; it will not have it again. */
  predicate Past(s: State, p: nat, v: nat) {
    p < |s.pages| && v <= |s.log| && !Holds(s, p, v)
  }

  lemma VersionKnown(s: State)
    requires Inv(s)
    ensures s.version == VersionOf(|s.log|)
  {}

  lemma StepPast(s: State, step: Step, p: nat, v: nat)
    requires Inv(s) && Enabled(s, step) && Past(s, p, v) && |Apply(s, step).log| < VERSIONS
    ensures Past(Apply(s, step), p, v)
  {
    StepEffect(s, step);
    VersionKnown(s);
    hide Inv, Apply, Turn, Past, VersionOf;
    PastPage(s, p, v);
    assert Turn(s, Apply(s, step), p);
    TurnPast(s, Apply(s, step), p, v);
  }

  lemma PastPage(s: State, p: nat, v: nat)
    requires Past(s, p, v)
    ensures p < |s.pages|
  {}

  lemma TurnPast(s: State, s': State, p: nat, v: nat)
    requires Past(s, p, v) && p < |s'.pages| && Turn(s, s', p) && s.version == VersionOf(|s.log|)
    requires |s.log| <= |s'.log| < VERSIONS
    ensures Past(s', p, v)
  {}

  /** A (page, version) pair is never issued twice: once a page has left a
  generation it never holds it again. */
  lemma {:induction false} NeverReissued(s: State, steps: seq<Step>, p: nat, v: nat)
    requires Inv(s) && IsRun(s, steps) && Past(s, p, v) && |Final(s, steps).log| < VERSIONS
    ensures !Holds(Final(s, steps), p, v)
    decreases |steps|
  {
    if steps != [] {
      StepInv(s, steps[0]);
      RunGrows(Apply(s, steps[0]), steps[1..]);
      StepPast(s, steps[0], p, v);
      NeverReissued(Apply(s, steps[0]), steps[1..], p, v);
    }
  }

  /** The list that page p belongs on. */
  function HomeOf(s: State, p: nat): seq<nat>
    requires p < |s.pages| && s.pages[p].bucket < |s.pageBuckets| && s.pages[p].freeBucket < |s.freeBuckets|
  {
    if !s.pages[p].free then s.pageBuckets[s.pages[p].bucket]
    else if s.pages[p].freeBucket == 0 then s.freelist else s.freeBuckets[s.pages[p].freeBucket]
  }

  /** Every page but page 0 is on exactly one list: the free list of its kind, or
  the list of its bucket; and page_free counts the free lists. */
  lemma PagesPartitioned(s: State, p: nat)
    requires Inv(s) && p < |s.pages|
    ensures Listings(s, p) == if p > 0 then 1 else 0
    ensures p > 0 ==> p in HomeOf(s, p)
    ensures s.pageFree == |s.freelist| + LenAll(s.freeBuckets)
  {
    if s.pages[p].free {
      if p > 0 { FreeIsListed(s, p); }
    } else {
      UsedIsListed(s, p);
    }
  }

  /** The assertions of _wbuf_cb and the arithmetic of the buffers: a page has at
  most its size allotted, what is not written is the attached buffer, and the
  callback finds its own buffer at the place the page has reached. */
  lemma CallbackAsserts(s: State, k: nat)
    requires Inv(s) && k < |s.inflight|
    ensures var io := s.inflight[k];
      && io.page < |s.pages| && io.wbuf < |s.wbufs|
      && s.pages[io.page].wbuf == Some(io.wbuf) && s.pages[io.page].written == s.wbufs[io.wbuf].offset
      && s.pages[io.page].active
  {
    InFlightFits(s, k);
  }

  /** The assertion of _allocate_page holds each time a writer calls it. */
  lemma AllocateAsserts(s: State, b: nat)
    requires Inv(s) && b < |s.writers|
    ensures (s.pageBuckets[b] == [] || s.writers[b].NeedPage?) ==> HeadFull(s, b)
  {
    assert WriterOk(s, b);
  }
}

/** An engine of one usable page whose version counter goes round: the page is
filled, written out, closed and freed 2^32 times, and then a handle of its first
generation is accepted and reads the bytes of the new one. */
module ExtWitness {
  import opened Basics
  import opened ExtState
  import opened ExtPages
  import opened ExtBuffers
  import opened ExtData
  import opened ExtRuns
  import opened ExtTheorems
  import opened ExtInit

  /** Pages, buffers and buckets are as small as extstore_init allows. */
  const SIZE: nat := 0x20_0000
  const SMALL := Conf(SIZE, SIZE, 1, 1)

  /** What the cycles leave behind: the last buffer, the bytes on disk, the log and
  the objects. */
  datatype Rest = Rest(wb: Wbuf, first: seq<Byte>, last: seq<Byte>, log: seq<nat>, objects: map<Handle, seq<Byte>>)

  predicate Sized(r: Rest) { |r.wb.buf| == |r.last| == SIZE }

  /** Between two cycles page 1 is free and nothing is under way. */
  function Resting(r: Rest): State {
    State(SMALL, [NewPage(0), NewPage(0)], [r.wb], [r.first, r.last], [1], [[]], [[]], 1, VersionOf(|r.log|),
          [0], [0], [], [], [Idle], Asleep, r.log, r.objects)
  }

  /** Page 1 in use under the version that is next. */
  function InUse1(r: Rest): Page { NewPage(0).(version := VersionOf(|r.log|), active := true, free := false) }

  /** After Pick. */
  function PickedState(r: Rest): State {
    Resting(r).(pages := [NewPage(0), InUse1(r)], freelist := [], pageBuckets := [[1]], pageFree := 0,
                version := VersionOf(|r.log| + 1), writers := [Picked(1)], log := r.log + [1])
  }

  function First(r: Rest): Handle { Handle(1, VersionOf(|r.log|), 0, SIZE) }

  /** After the byte is in the buffer. */
  function Held(r: Rest, b: seq<Byte>): State {
    PickedState(r).(
      pages := [NewPage(0), InUse1(r).(allotted := SIZE, objCount := 1, bytesUsed := SIZE, wbuf := Some(0))],
      wbufs := [Wbuf(b, 0, 0, false)], wbufStack := [], writers := [Idle], objects := r.objects[First(r) := b])
  }

  /** The buffer is with the IO threads, before and after the pwrite. */
  function Sent(r: Rest, b: seq<Byte>, stored: bool): State {
    Held(r, b).(wbufs := [Wbuf(b, 0, 0, true)], disk := [r.first, if stored then b else r.last], ioStack := [],
                inflight := [WriteIo(0, 1, 0, 0, stored)])
  }

  /** The page is written in full, and closed or not. */
  function Full(r: Rest, b: seq<Byte>, closed: bool, m: Maint): State {
    Sent(r, b, true).(
      pages := [NewPage(0), InUse1(r).(allotted := SIZE, objCount := 1, bytesUsed := SIZE, written := SIZE,
          active := false,
                                       closed := closed)],
      wbufStack := [0], ioStack := [0], inflight := [], maint := m)
  }

  /** What one cycle with byte b makes of it. */
  function Next(r: Rest, b: seq<Byte>): Rest {
    Rest(Wbuf(b, 0, 0, true), r.first, b, r.log + [1], r.objects[First(r) := b])
  }

  ghost predicate Reaches(s: State, steps: seq<Step>, t: State) {
    Inv(s) && IsRun(s, steps) && Final(s, steps) == t
  }

  lemma ReachStep(s: State, step: Step, t: State)
    requires Inv(s) && Enabled(s, step) && Apply(s, step) == t
    ensures Inv(t) && Reaches(s, [step], t)
  {
    StepInv(s, step);
    hide Inv, Enabled, Apply;
    var steps := [step];
    assert steps[1..] == [];
    assert IsRun(t, steps[1..]) && Final(t, steps[1..]) == t;
  }

  lemma {:induction false} ReachThen(s: State, a: seq<Step>, t: State, b: seq<Step>, u: State)
    requires Reaches(s, a, t) && Reaches(t, b, u)
    ensures Reaches(s, a + b, u)
    decreases |a|
  {
    hide Inv, Enabled, Apply;
    if a == [] {
      assert a + b == b;
    } else {
      StepInv(s, a[0]);
      ReachThen(Apply(s, a[0]), a[1..], t, b, u);
      assert (a + b)[1..] == a[1..] + b;
    }
  }

  lemma PickRest(r: Rest)
    requires Inv(Resting(r))
    ensures Reaches(Resting(r), [Pick(0, 0)], PickedState(r)) && Inv(PickedState(r))
  {
    var s, t := Resting(r), PickedState(r);
    hide Inv;
    assert Enabled(s, Pick(0, 0));
    assert AllocatePage(s, 0, 0) == t.(writers := [Idle]) by {
      NextIs(|r.log|);
      assert s.freelist[1..] == [];
      assert [1] + s.pageBuckets[0] == [1];
    }
    assert Apply(s, Pick(0, 0)) == t;
    ReachStep(s, Pick(0, 0), t);
  }

  lemma NextIs(n: nat)
    ensures NextVersion(VersionOf(n)) == VersionOf(n + 1)
  {}

  lemma ActPicked(r: Rest, b: seq<Byte>)
    requires |b| == SIZE
    requires Inv(PickedState(r)) && Sized(r)
    ensures Reaches(PickedState(r), [Act(0, b)], Held(r, b)) && Inv(Held(r, b))
  {
    var s, t := PickedState(r), Held(r, b);
    assert Enabled(s, Act(0, b));
    hide Inv, Core;
    InvCore(s);
    PickedKnown(s, 0);
    ReadyWhenActive(s, 1);
    var s1 := MakeRoom(s, 1, SIZE);
    MakeRoomReady(s, 1, SIZE);
    assert s1 == Attach(s, 1);
    assert s1.wbufStack == [];
    assert s1.pages == [NewPage(0), InUse1(r).(allotted := SIZE, wbuf := Some(0))];
    assert s1.wbufs == [Wbuf(r.wb.buf, SIZE, 0, false)];
    assert Fits(s1, 1, SIZE);
    assert Splice(r.wb.buf, 0, b) == b;
    assert NextHandle(s1, 1, SIZE) == First(r);
    assert Store(s1, 1, b) == t.(writers := [Picked(1)]);
    assert ActOn(s, 1, b) == Store(s1, 1, b);
    assert Apply(s, Act(0, b)) == t;
    ReachStep(s, Act(0, b), t);
  }

  lemma PickHeld(r: Rest, b: seq<Byte>)
    requires |b| == SIZE
    requires Inv(Held(r, b))
    ensures Reaches(Held(r, b), [Pick(0, 0)], Held(r, b).(writers := [Picked(1)]))
    ensures Inv(Held(r, b).(writers := [Picked(1)]))
  {
    var s := Held(r, b);
    hide Inv, AllocatePage;
    assert Enabled(s, Pick(0, 0));
    assert Apply(s, Pick(0, 0)) == s.(writers := [Picked(1)]);
    ReachStep(s, Pick(0, 0), s.(writers := [Picked(1)]));
  }

  lemma ActFull(r: Rest, b: seq<Byte>)
    requires |b| == SIZE
    requires Inv(Held(r, b).(writers := [Picked(1)]))
    ensures Reaches(Held(r, b).(writers := [Picked(1)]), [Act(0, b)], Sent(r, b, false)) && Inv(Sent(r, b, false))
  {
    var s, t := Held(r, b).(writers := [Picked(1)]), Sent(r, b, false);
    assert Enabled(s, Act(0, b));
    hide Inv, Core;
    InvCore(s);
    PickedKnown(s, 0);
    ReadyWhenActive(s, 1);
    SubmitCore(s, 1);
    assert b[..SIZE] + Zeros(0) == b;
    assert MakeRoom(s, 1, SIZE) == Submit(s, 1) == t.(writers := [Picked(1)]);
    assert ActOn(s, 1, b) == t.(writers := [Picked(1)]);
    assert Apply(s, Act(0, b)) == t;
    ReachStep(s, Act(0, b), t);
  }

  lemma WriteOut(r: Rest, b: seq<Byte>)
    requires |b| == |r.last| == SIZE
    requires Inv(Sent(r, b, false))
    ensures Reaches(Sent(r, b, false), [Write(0)], Sent(r, b, true)) && Inv(Sent(r, b, true))
  {
    var s, t := Sent(r, b, false), Sent(r, b, true);
    assert Enabled(s, Write(0));
    hide Inv, Core;
    InvCore(s);
    PwriteCore(s, 0);
    assert Splice(r.last, 0, b) == b;
    assert Pwrite(s, 0) == t;
    ReachStep(s, Write(0), t);
  }

  lemma FlushedIs(r: Rest, b: seq<Byte>)
    ensures Flushed(Sent(r, b, true), 0) == Full(r, b, false, Asleep)
  {
    var s := Sent(r, b, true);
    hide VersionOf;
    assert s.inflight[..0] + s.inflight[1..] == [];
  }

  lemma CallBack(r: Rest, b: seq<Byte>)
    requires |b| == SIZE
    requires Inv(Sent(r, b, true))
    ensures Reaches(Sent(r, b, true), [Callback(0)], Full(r, b, false, Asleep)) && Inv(Full(r, b, false, Asleep))
  {
    var s, t := Sent(r, b, true), Full(r, b, false, Asleep);
    assert Enabled(s, Callback(0));
    hide Inv, Core, Flushed;
    InvCore(s);
    FlushedCore(s, 0);
    FlushedIs(r, b);
    ReachStep(s, Callback(0), t);
  }

  lemma CloseFull(r: Rest, b: seq<Byte>)
    requires Inv(Full(r, b, false, Asleep))
    ensures var t := Full(r, b, true, Asleep);
      Inv(t) && Reaches(Full(r, b, false, Asleep), [Close(1, VersionOf(|r.log|))], t)
  {
    var s, t := Full(r, b, false, Asleep), Full(r, b, true, Asleep);
    var close := Close(1, VersionOf(|r.log|));
    hide Inv;
    assert Enabled(s, close);
    assert Apply(s, close) == t;
    ReachStep(s, close, t);
  }

  lemma WakeAndScan(r: Rest, b: seq<Byte>)
    requires Inv(Full(r, b, true, Asleep))
    ensures var t := Full(r, b, true, Scanning(1, true, None));
      Inv(t) && Reaches(Full(r, b, true, Asleep), [Wake] + [Scan], t)
  {
    var s, s1 := Full(r, b, true, Asleep), Full(r, b, true, Scanning(0, true, None));
    var t := Full(r, b, true, Scanning(1, true, None));
    hide Inv, FreePage, Reaches;
    assert Enabled(s, Wake) && Enabled(s1, Scan);
    assert Apply(s, Wake) == s1;
    ReachStep(s, Wake, s1);
    assert Apply(s1, Scan) == t;
    ReachStep(s1, Scan, t);
    ReachThen(s, [Wake], s1, [Scan], t);
  }

  lemma FreeFull(r: Rest, b: seq<Byte>)
    ensures FreePage(Full(r, b, true, Scanning(1, true, None)), 1).(maint := Asleep) == Resting(Next(r, b))
  {
    var s := Full(r, b, true, Scanning(1, true, None));
    hide VersionOf;
    var list := [1];
    assert list[1..] == [];
    assert s.pageBuckets[0] == list && Unlinked(list, 1) == [];
    assert s.pageBuckets[0 := []] == [[]];
    assert [1] + s.freelist == [1];
    assert s.pages[1 := Freed(s.pages[1])] == [NewPage(0), NewPage(0)];
  }

  lemma ScanFull(r: Rest, b: seq<Byte>)
    requires Inv(Full(r, b, true, Scanning(1, true, None))) && |b| == SIZE
    ensures var s1 := Resting(Next(r, b)).(maint := Scanning(2, false, None));
      Inv(s1) && Reaches(Full(r, b, true, Scanning(1, true, None)), [Scan], s1)
  {
    var s := Full(r, b, true, Scanning(1, true, None));
    var s1 := Resting(Next(r, b)).(maint := Scanning(2, false, None));
    hide Inv, Core, FreePage, VersionOf, Resting, Next;
    assert Enabled(s, Scan);
    InvCore(s);
    FreeCore(s, 1);
    FreeFull(r, b);
    assert Apply(s, Scan) == s1;
    ReachStep(s, Scan, s1);
  }

  lemma FreeAndSleep(r: Rest, b: seq<Byte>)
    requires Inv(Full(r, b, true, Scanning(1, true, None))) && |b| == SIZE
    ensures var t := Resting(Next(r, b));
      Inv(t) && Reaches(Full(r, b, true, Scanning(1, true, None)), [Scan] + [Evict], t)
  {
    var s, t := Full(r, b, true, Scanning(1, true, None)), Resting(Next(r, b));
    var s1 := t.(maint := Scanning(2, false, None));
    hide Inv, FreePage, Reaches;
    ScanFull(r, b);
    assert Enabled(s1, Evict);
    assert Apply(s1, Evict) == t;
    ReachStep(s1, Evict, t);
    ReachThen(s, [Scan], s1, [Evict], t);
  }

  lemma StoreObject(r: Rest, b: seq<Byte>)
    requires |b| == SIZE
    requires Inv(Resting(r)) && Sized(r)
    ensures Inv(Held(r, b)) && Reaches(Resting(r), [Pick(0, 0)] + [Act(0, b)], Held(r, b))
  {
    hide Inv, Reaches;
    PickRest(r);
    ActPicked(r, b);
    ReachThen(Resting(r), [Pick(0, 0)], PickedState(r), [Act(0, b)], Held(r, b));
  }

  /** From the byte in the buffer to the free page. */
  function Flushing(r: Rest, b: seq<Byte>): seq<Step> {
    [Pick(0, 0)] + [Act(0, b)] + [Write(0)] + [Callback(0)] + [Close(1, VersionOf(|r.log|))]
    + ([Wake] + [Scan]) + ([Scan] + [Evict])
  }

  lemma FlushAndFree(r: Rest, b: seq<Byte>)
    requires |b| == |r.last| == SIZE
    requires Inv(Held(r, b))
    ensures Inv(Resting(Next(r, b))) && Reaches(Held(r, b), Flushing(r, b), Resting(Next(r, b)))
  {
    hide Inv, Reaches, Sent, Full, Resting, Next;
    var s := Held(r, b);
    PickHeld(r, b);
    ActFull(r, b);
    var steps := [Pick(0, 0)] + [Act(0, b)];
    ReachThen(s, [Pick(0, 0)], s.(writers := [Picked(1)]), [Act(0, b)], Sent(r, b, false));
    WriteOut(r, b);
    ReachThen(s, steps, Sent(r, b, false), [Write(0)], Sent(r, b, true));
    CallBack(r, b);
    ReachThen(s, steps + [Write(0)], Sent(r, b, true), [Callback(0)], Full(r, b, false, Asleep));
    var close := [Close(1, VersionOf(|r.log|))];
    CloseFull(r, b);
    ReachThen(s, steps + [Write(0)] + [Callback(0)], Full(r, b, false, Asleep), close, Full(r, b, true, Asleep));
    WakeAndScan(r, b);
    var t := Full(r, b, true, Scanning(1, true, None));
    ReachThen(s, steps + [Write(0)] + [Callback(0)] + close, Full(r, b, true, Asleep), [Wake] + [Scan], t);
    FreeAndSleep(r, b);
    ReachThen(s, steps + [Write(0)] + [Callback(0)] + close + ([Wake] + [Scan]), t, [Scan] + [Evict],
        Resting(Next(r, b)));
  }

  /** Any number of cycles. */
  lemma {:induction false} Cycles(r: Rest, n: nat) returns (steps: seq<Step>, r': Rest)
    requires Inv(Resting(r)) && Sized(r)
    ensures Reaches(Resting(r), steps, Resting(r')) && Inv(Resting(r'))
    ensures |r'.log| == |r.log| + n && Sized(r')
    decreases n
  {
    if n == 0 {
      steps, r' := [], r;
      hide Inv;
    } else {
      var b := Zeros(SIZE);
      StoreObject(r, b);
      FlushAndFree(r, b);
      var first := [Pick(0, 0)] + [Act(0, b)];
      hide Inv, Reaches, Held, Resting;
      ReachThen(Resting(r), first, Held(r, b), Flushing(r, b), Resting(Next(r, b)));
      var rest;
      rest, r' := Cycles(Next(r, b), n - 1);
      steps := first + Flushing(r, b) + rest;
      ReachThen(Resting(r), first + Flushing(r, b), Resting(Next(r, b)), rest, Resting(r'));
    }
  }

  /** The engine as extstore_init leaves it. */
  const START := Rest(Wbuf(Zeros(SIZE), SIZE, 0, false), Zeros(SIZE), Zeros(SIZE), [], map[])

  lemma StartIsBlank()
    ensures var s := Blank(SMALL, [0, 0]); var fs := Resting(START);
      && |s.pages| == 2 && s.pages[1].freeBucket < |s.freeBuckets|
      && fs == AddFree(s, 1).(wbufStack := fs.wbufStack, ioStack := fs.ioStack)
      && fs == s.(freelist := fs.freelist, freeBuckets := fs.freeBuckets, pageFree := fs.pageFree,
                  wbufStack := fs.wbufStack, ioStack := fs.ioStack)
  {
    var s, fs := Blank(SMALL, [0, 0]), Resting(START);
    assert s.pages == fs.pages && s.wbufs == fs.wbufs && s.disk == fs.disk;
    assert s.freeBuckets == fs.freeBuckets && s.pageBuckets == fs.pageBuckets && s.writers == fs.writers;
    assert [1] + s.freelist == fs.freelist;
  }

  lemma StartInv()
    ensures Inv(Resting(START)) && Resting(START).log == []
  {
    var s, kinds := Blank(SMALL, [0, 0]), [0, 0];
    BlankListed(SMALL, kinds);
    assert s.pages[1].free;
    StackPush([], 0);
    assert [0] + [] == [0];
    StartIsBlank();
    hide Blank, Listed, Inv, Stacked, AddFree;
    AddFreeListed(s, 1);
    ListedFrame(AddFree(s, 1), Resting(START));
    FreshInv(Resting(START), SMALL, kinds);
  }

  /** A read of h is served from the buffer and gets these bytes. */
  predicate ReadsFromBuffer(s: State, h: Handle, data: seq<Byte>) {
    && h.page < |s.pages| && Accepts(s.pages[h.page], h) && FromBuffer(s.pages[h.page], h)
    && BufferHas(s, s.pages[h.page], h, data)
  }

  /** Without the bound on allocations the main theorem fails, for all bytes: an
  engine that has just been started records `was` under a handle, and after some
  run that handle is accepted and reads `other`. */
  lemma StaleRead(was: seq<Byte>, other: seq<Byte>) returns (s: State, h: Handle, steps: seq<Step>)
    requires |was| == |other| == SIZE
    ensures Aligned(SMALL) && Inv(Resting(START)) && Reaches(Resting(START), [Pick(0, 0)] + [Act(0, was)], s)
    ensures h in s.objects && s.objects[h] == was && Inv(s) && IsRun(s, steps)
    ensures ReadsFromBuffer(Final(s, steps), h, other)
    ensures was != other ==> !ReadsAs(Final(s, steps), h, s.objects[h])
  {
    StartInv();
    StoreObject(START, was);
    s, h := Held(START, was), First(START);
    FlushAndFree(START, was);
    var r := Next(START, was);
    var more, r' := Cycles(r, VERSIONS - 1);
    StoreObject(r', other);
    var t := Held(r', other);
    hide Inv, Reaches, Held;
    ReachThen(s, Flushing(START, was), Resting(r), more, Resting(r'));
    steps := Flushing(START, was) + more + ([Pick(0, 0)] + [Act(0, other)]);
    ReachThen(s, Flushing(START, was) + more, Resting(r'), [Pick(0, 0)] + [Act(0, other)], t);
    ReachedIs(s, steps, t);
    FirstHeld(START, was);
    SameHandle(START, r', other);
  }

  lemma ReachedIs(s: State, steps: seq<Step>, t: State)
    requires Reaches(s, steps, t)
    ensures Inv(s) && IsRun(s, steps) && Final(s, steps) == t
  {}

  lemma FirstHeld(r: Rest, b: seq<Byte>)
    ensures First(r) in Held(r, b).objects && Held(r, b).objects[First(r)] == b
  {}

  lemma SameHandle(r: Rest, r': Rest, b: seq<Byte>)
    requires r.log == [] && |r'.log| == VERSIONS && |b| == SIZE
    ensures ReadsFromBuffer(Held(r', b), First(r), b)
    ensures forall was: seq<Byte> :: was != b && |was| == SIZE ==> !ReadsAs(Held(r', b), First(r), was)
  {
    assert b[0..SIZE] == b;
  }
}

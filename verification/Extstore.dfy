/** extstore.c in its own form: the engine's structures rewritten in place. */
module Extstore {
  import opened Basics
  import opened ExtState
  import opened ExtPages
  import opened ExtBuffers
  import opened ExtData
  import opened ExtRuns
  import opened ExtTheorems
  import opened ExtInit
  import opened ExtLayout

  /** Why extstore_init refuses a configuration. */
  datatype Refusal = BadWbufSize | NeedMoreWbuf | NeedMoreBuckets | PageWbufAlignment | TooManyPages

  class Engine {
    /** The store_engine with its pages, buffers, queues and disk. */
    var s: State

    ghost predicate Valid()
      reads this
    {
      Inv(s)
    }

    /** extstore_init, after its checks: kinds are the free buckets of the pages. */
    constructor (conf: Conf, kinds: seq<nat>)
      requires conf.Valid() && |kinds| > 0 && forall i :: 0 <= i < |kinds| ==> kinds[i] < conf.buckets
      ensures Valid() && s.conf == conf && |s.pages| == |kinds| && s.log == [] && s.objects == map[]
      ensures forall p :: 0 <= p < |kinds| ==> s.pages[p] == NewPage(kinds[p])
    {
      s := Blank(conf, kinds);
      new;
      BlankListed(conf, kinds);
      ghost var blank := s;
      var i := |kinds| - 1;
      while i > 0
        invariant 0 <= i < |kinds| && Listed(s, i + 1)
        invariant s == blank.(freelist := s.freelist, freeBuckets := s.freeBuckets, pageFree := s.pageFree)
        invariant |s.freeBuckets| == conf.buckets
      {
        AddFreeListed(s, i);
        ghost var next := AddFree(s, i);
        s := s.(pageFree := s.pageFree + 1);
        var fb := s.pages[i].freeBucket;
        if fb == 0 {
          s := s.(freelist := [i] + s.freelist);
        } else {
          s := s.(freeBuckets := s.freeBuckets[fb := [i] + s.freeBuckets[fb]]);
        }
        assert s == next;
        i := i - 1;
      }
      ghost var listed := s;
      i := 0;
      while i < conf.wbufCount
        invariant 0 <= i <= conf.wbufCount
        invariant s == listed.(wbufStack := s.wbufStack, ioStack := s.ioStack)
        invariant Stacked(s.wbufStack, i) && Stacked(s.ioStack, i)
      {
        StackPush(s.wbufStack, i);
        StackPush(s.ioStack, i);
        s := s.(wbufStack := [i] + s.wbufStack, ioStack := [i] + s.ioStack);
        i := i + 1;
      }
      ListedFrame(listed, s);
      FreshInv(s, conf, kinds);
    }

    /** _allocate_page; its assertions are the precondition HeadFull, and that
    page_free is positive when a list of its kind is not empty. */
    method AllocatePage(b: nat, fb: nat) returns (p: Option<nat>)
      requires Core(s) && b < |s.pageBuckets| && fb < |s.freeBuckets| && HeadFull(s, b)
      modifies this
      ensures p == Candidate(old(s), fb)
      ensures p.Some? ==> p.value < |old(s).pages| && old(s).pageFree > 0
      ensures s == ExtState.AllocatePage(old(s), b, fb)
    {
      hide Core;
      AllocateCore(s, b, fb);
      p := None;
      if fb != 0 && s.freeBuckets[fb] != [] {
        assert s.pageFree > 0;
        p := Some(s.freeBuckets[fb][0]);
        s := s.(freeBuckets := s.freeBuckets[fb := s.freeBuckets[fb][1..]]);
      }
      if p.None? && s.freelist != [] {
        p := Some(s.freelist[0]);
        s := s.(freelist := s.freelist[1..]);
      }
      if s.pageFree > 0 && p.Some? {
        var g := s.pages[p.value];
        s := s.(pageBuckets := s.pageBuckets[b := [p.value] + s.pageBuckets[b]]);
        g := g.(active := true);
        g := g.(free := false);
        g := g.(closed := false);
        g := g.(version := s.version);
        g := g.(bucket := b);
        s := s.(pages := s.pages[p.value := g], version := NextVersion(s.version), pageFree := s.pageFree - 1,
                log := s.log + [p.value]);
      }
    }

    /** _allocate_wbuf. */
    method AllocateWbuf(p: nat)
      requires Ready(s, p) && s.pages[p].wbuf.None? && s.pages[p].allotted < s.conf.pageSize
      modifies this
      ensures old(s).wbufStack != [] ==> old(s).wbufStack[0] < |old(s).wbufs|
      ensures s == Attach(old(s), p) && Ready(s, p)
    {
      AttachCore(s, p);
      hide Core;
      if s.wbufStack != [] {
        var w := s.wbufStack[0];
        s := s.(wbufStack := s.wbufStack[1..]);
        var g, wb := s.pages[p], s.wbufs[w];
        wb := wb.(offset := g.allotted);
        g := g.(allotted := g.allotted + s.conf.wbufSize);
        wb := wb.(free := s.conf.wbufSize, full := false);
        g := g.(wbuf := Some(w));
        s := s.(pages := s.pages[p := g], wbufs := s.wbufs[w := wb]);
      }
    }

    /** _submit_wbuf, and the caller's mark on the buffer. The IO stack is never
    empty here. */
    method SubmitWbuf(p: nat)
      requires Ready(s, p) && s.pages[p].wbuf.Some? && !s.wbufs[s.pages[p].wbuf.value].full
      modifies this
      ensures old(s).ioStack != []
      ensures old(s).wbufs[old(s).pages[p].wbuf.value].free <= |old(s).wbufs[old(s).pages[p].wbuf.value].buf|
      ensures s == Submit(old(s), p) && Ready(s, p)
    {
      SubmitCore(s, p);
      hide Core;
      var io := s.ioStack[0];
      s := s.(ioStack := s.ioStack[1..]);
      var w := s.pages[p].wbuf.value;
      var wb := s.wbufs[w];
      wb := wb.(buf := wb.buf[..|wb.buf| - wb.free] + Zeros(wb.free));
      s := s.(inflight := s.inflight + [WriteIo(io, p, w, wb.offset, false)]);
      wb := wb.(full := true);
      s := s.(wbufs := s.wbufs[w := wb]);
    }

    /** The copy of an object into the buffer, and extstore_write. */
    method StoreObject(p: nat, data: seq<Byte>) returns (h: Handle)
      requires Ready(s, p) && s.pages[p].wbuf.Some? && !s.wbufs[s.pages[p].wbuf.value].full
      requires 0 < |data| <= s.wbufs[s.pages[p].wbuf.value].free
      modifies this
      ensures old(s).wbufs[old(s).pages[p].wbuf.value].free <=
        |old(s).wbufs[old(s).pages[p].wbuf.value].buf| == old(s).conf.wbufSize
      ensures s == Store(old(s), p, data) && h == NextHandle(old(s), p, |data|)
    {
      StoreCore(s, p, data);
      hide Core;
      var g := s.pages[p];
      var w := g.wbuf.value;
      var wb := s.wbufs[w];
      var at := |wb.buf| - wb.free;
      wb := wb.(buf := Splice(wb.buf, at, data));
      h := Handle(p, g.version, wb.offset + (s.conf.wbufSize - wb.free), |data|);
      wb := wb.(free := wb.free - |data|);
      g := g.(bytesUsed := g.bytesUsed + |data|, objCount := g.objCount + 1);
      s := s.(wbufs := s.wbufs[w := wb], pages := s.pages[p := g], objects := s.objects[h := data]);
    }

    /** extstore_write_request up to the first unlock of the engine. */
    method PickPage(b: nat, fb: nat) returns (p: Option<nat>)
      requires Valid() && Enabled(s, Pick(b, fb))
      modifies this
      ensures s == Apply(old(s), Pick(b, fb)) && Valid()
      ensures p.Some? <==> s.writers[b] == Picked(if p.Some? then p.value else 0)
    {
      PickInv(s, b, fb);
      AllocateCore(s, b, fb);
      AllocateShape(s, b, fb);
      AllocateShapeWriters(s, b, fb);
      hide Inv, Core;
      if s.pageBuckets[b] != [] {
        p := Some(s.pageBuckets[b][0]);
      } else {
        InvCore(s);
        p := AllocatePage(b, fb);
      }
      hide ExtState.AllocatePage;
      if p.Some? {
        s := s.(writers := s.writers[b := Picked(p.value)]);
      }
    }

    /** extstore_write_request under the page lock, with the caller's copy and
    extstore_write when a buffer is handed over. */
    method WriteTo(b: nat, data: seq<Byte>) returns (h: Option<Handle>)
      requires Valid() && Enabled(s, Act(b, data))
      modifies this
      ensures s == Apply(old(s), Act(b, data)) && Valid()
      ensures s.objects == if h.Some? then old(s).objects[h.value := data] else old(s).objects
      ensures h.Some? ==> h.value.page == old(s).writers[b].page && h.value.len == |data|
      ensures h.Some? && |s.log| < VERSIONS ==> h.value !in old(s).objects && Live(s, h.value)
    {
      hide Inv, Core, ActOn;
      ActInv(s, b, data);
      PickedKnown(s, b);
      InvCore(s);
      var p := s.writers[b].page;
      var g := s.pages[p];
      h := None;
      if !g.active || ((g.wbuf.None? || s.wbufs[g.wbuf.value].full) && g.allotted >= s.conf.pageSize) {
        s := s.(writers := s.writers[b := NeedPage]);
        return;
      }
      ReadyWhenActive(s, p);
      ActSteady(s, p, data);
      h := WriteActive(p, data);
      s := s.(writers := s.writers[b := Idle]);
    }

    /** The buffer that cannot take len more bytes is submitted, and a page without
    one gets one while there is room. */
    method GetRoom(p: nat, len: nat)
      requires Ready(s, p)
      modifies this
      ensures s == MakeRoom(old(s), p, len) && Ready(s, p)
    {
      hide Core;
      MakeRoomReady(s, p, len);
      var wbuf := s.pages[p].wbuf;
      if wbuf.Some? && s.wbufs[wbuf.value].free < len && !s.wbufs[wbuf.value].full {
        SubmitWbuf(p);
      }
      if s.pages[p].wbuf.None? && s.pages[p].allotted < s.conf.pageSize {
        AllocateWbuf(p);
      }
    }

    method WriteActive(p: nat, data: seq<Byte>) returns (h: Option<Handle>)
      requires Ready(s, p) && |data| > 0
      modifies this
      ensures s == ActOn(old(s), p, data)
      ensures s.objects == if h.Some? then old(s).objects[h.value := data] else old(s).objects
      ensures h.Some? ==> h.value.page == p && h.value.len == |data|
      ensures h.Some? && |s.log| < VERSIONS ==> h.value !in old(s).objects && Live(s, h.value)
    {
      hide Core, MakeRoom;
      RoomEffect(s, p, |data|);
      GetRoom(p, |data|);
      var wbuf := s.pages[p].wbuf;
      h := None;
      if wbuf.Some? && !s.wbufs[wbuf.value].full && s.wbufs[wbuf.value].free >= |data| {
        StoreCore(s, p, data);
        var handle := StoreObject(p, data);
        h := Some(handle);
      }
    }

    /** The second _allocate_page of extstore_write_request. */
    method RetryPage(b: nat, fb: nat)
      requires Valid() && Enabled(s, Retry(b, fb))
      modifies this
      ensures s == Apply(old(s), Retry(b, fb)) && Valid()
    {
      RetryInv(s, b, fb);
      InvCore(s);
      AllocateAsserts(s, b);
      hide Inv, Core;
      var p := AllocatePage(b, fb);
      AllocateShapeWriters(old(s), b, fb);
      hide ExtState.AllocatePage;
      s := s.(writers := s.writers[b := Idle]);
    }

    /** _wbuf_cb, with its assertions. */
    method WbufCallback(k: nat)
      requires Valid() && Enabled(s, Callback(k))
      modifies this
      ensures s == Apply(old(s), Callback(k)) && Valid()
    {
      WriteInv(s, Callback(k));
      CallbackAsserts(s, k);
      hide Inv;
      var io := s.inflight[k];
      var g := s.pages[io.page];
      assert g.wbuf == Some(io.wbuf);
      assert g.written == s.wbufs[io.wbuf].offset;
      g := g.(written := g.written + s.conf.wbufSize);
      g := g.(wbuf := None);
      if g.written == s.conf.pageSize {
        g := g.(active := false);
      }
      s := s.(pages := s.pages[io.page := g], inflight := s.inflight[..k] + s.inflight[k + 1..]);
      s := s.(wbufStack := [io.wbuf] + s.wbufStack);
      s := s.(ioStack := [io.io] + s.ioStack);
    }

    /** The pwrite of the IO thread. */
    method WriteBuffer(k: nat)
      requires Valid() && Enabled(s, Write(k))
      modifies this
      ensures s == Apply(old(s), Write(k)) && Valid()
    {
      WriteInv(s, Write(k));
      InvCore(s);
      PwriteCore(s, k);
      hide Inv, Core;
      var io := s.inflight[k];
      s := s.(disk := s.disk[io.page := Splice(s.disk[io.page], io.offset, s.wbufs[io.wbuf].buf)],
              inflight := s.inflight[k := io.(stored := true)]);
    }

    /** The IO thread on a read: refused, served from the buffer, or left to the
    disk with a reference taken. */
    method AcceptRead(h: Handle) returns (ok: bool, bytes: Option<seq<Byte>>)
      requires Valid() && Enabled(s, Accept(h)) && |s.log| < VERSIONS
      modifies this
      ensures s == Apply(old(s), Accept(h)) && Valid()
      ensures ok == Accepts(old(s).pages[h.page], h)
      ensures bytes.Some? ==> bytes.value == s.objects[h]
      ensures ok && bytes.None? <==> s.pending == old(s).pending + [h]
    {
      hide Inv, Apply;
      AcceptStep(s, h);
      if Accepts(s.pages[h.page], h) && FromBuffer(s.pages[h.page], h) {
        BufferReadIsExact(s, h);
      }
      var g := s.pages[h.page];
      ok, bytes := false, None;
      if !g.free && !g.closed && g.version == h.version {
        ok := true;
        if g.active && h.offset >= g.written {
          var wb := s.wbufs[g.wbuf.value];
          assert h.offset < g.written + s.conf.wbufSize;
          bytes := Some(wb.buf[h.offset - wb.offset..h.offset - wb.offset + h.len]);
        } else {
          g := g.(refcount := g.refcount + 1);
          s := s.(pages := s.pages[h.page := g], pending := s.pending + [h]);
        }
      }
    }

    /** The pread, the callback, and the reference given back. */
    method FinishRead(k: nat) returns (bytes: seq<Byte>)
      requires Valid() && Enabled(s, Finish(k)) && |s.log| < VERSIONS
      modifies this
      ensures s == Apply(old(s), Finish(k)) && Valid()
      ensures old(s).pending[k] in s.objects && bytes == s.objects[old(s).pending[k]]
    {
      hide Inv, Core, Apply, OnDisk;
      DiskReadIsExact(s, k);
      FinishStep(s, k);
      DiskBytes(s, s.pending[k], s.objects[s.pending[k]]);
      var h := s.pending[k];
      bytes := s.disk[h.page][h.offset..h.offset + h.len];
      var g := s.pages[h.page];
      g := g.(refcount := g.refcount - 1);
      s := s.(pages := s.pages[h.page := g], pending := s.pending[..k] + s.pending[k + 1..]);
    }

    /** extstore_delete. */
    method DeleteObjects(page: nat, version: nat, count: nat, bytes: nat) returns (ret: int)
      requires Valid() && page < |s.pages|
      modifies this
      ensures s == Apply(old(s), Delete(page, version, count, bytes)) && Valid()
      ensures ret == if old(s).pages[page].closed || old(s).pages[page].version != version then -1 else 0
    {
      TweakInv(s, Delete(page, version, count, bytes));
      hide Inv;
      var g := s.pages[page];
      ret := 0;
      if !g.closed && g.version == version {
        if g.bytesUsed >= bytes {
          g := g.(bytesUsed := g.bytesUsed - bytes);
        } else {
          g := g.(bytesUsed := 0);
        }
        if g.objCount >= count {
          g := g.(objCount := g.objCount - count);
        } else {
          g := g.(objCount := 0);
        }
        s := s.(pages := s.pages[page := g]);
      } else {
        ret := -1;
      }
    }

    /** extstore_close_page. */
    method ClosePage(page: nat, version: nat)
      requires Valid() && page < |s.pages|
      modifies this
      ensures s == Apply(old(s), Close(page, version)) && Valid()
    {
      TweakInv(s, Close(page, version));
      hide Inv;
      var g := s.pages[page];
      if !g.closed && g.version == version {
        s := s.(pages := s.pages[page := g.(closed := true)]);
      }
    }

    /** _free_page. */
    method FreePage(p: nat)
      requires Core(s) && p < |s.pages| && !s.pages[p].free && !s.pages[p].active && s.pages[p].refcount == 0
      modifies this
      ensures old(s).pages[p].bucket < |old(s).pageBuckets| && old(s).pages[p].freeBucket < |old(s).freeBuckets|
      ensures s == ExtState.FreePage(old(s), p) && Core(s)
    {
      FreeCore(s, p);
      UsedIsListed(s, p);
      hide Core, PagesOk;
      var g := s.pages[p];
      var rest := UnlinkPage(s.pageBuckets[g.bucket], p);
      s := s.(pageBuckets := s.pageBuckets[g.bucket := rest]);
      g := g.(version := 0, objCount := 0, bytesUsed := 0, allotted := 0, written := 0, bucket := 0);
      g := g.(active := false, closed := false, free := true);
      s := s.(pages := s.pages[p := g]);
      if g.freeBucket != 0 {
        s := s.(freeBuckets := s.freeBuckets[g.freeBucket := [p] + s.freeBuckets[g.freeBucket]]);
      } else {
        s := s.(freelist := [p] + s.freelist);
      }
      s := s.(pageFree := s.pageFree + 1);
    }

    /** The maintenance thread wakes up and decides whether it has to evict. */
    method StartMaint()
      requires Valid() && Enabled(s, Wake)
      modifies this
      ensures s == Apply(old(s), Wake) && Valid()
    {
      WakeInv(s);
      hide Inv;
      var evict := false;
      if s.pageFree == 0 || s.freelist == [] {
        evict := true;
      }
      s := s.(maint := Scanning(0, evict, None));
    }

    /** Its look at the next page. */
    method ScanPage()
      requires Valid() && Enabled(s, Scan)
      modifies this
      ensures s == Apply(old(s), Scan) && Valid()
    {
      ScanInv(s);
      InvCore(s);
      hide Inv;
      var i, evict, low := s.maint.i, s.maint.evict, s.maint.low;
      var g := s.pages[i];
      if !g.active && !g.free {
        if g.objCount > 0 && !g.closed {
          if g.freeBucket == 0 && (low.None? || g.version < low.value.1) {
            low := Some((i, g.version));
          }
        }
        if (g.objCount == 0 || g.closed) && g.refcount == 0 {
          FreePage(i);
          evict := false;
        }
      }
      hide Core, ExtState.FreePage;
      s := s.(maint := Scanning(i + 1, evict, low));
    }

    /** The eviction at the end of its scan. */
    method EvictOldest()
      requires Valid() && Enabled(s, Evict)
      modifies this
      ensures s == Apply(old(s), Evict) && Valid()
    {
      EvictInv(s);
      InvCore(s);
      hide Inv;
      if s.maint.evict && s.maint.low.Some? {
        var p := s.maint.low.value.0;
        var g := s.pages[p];
        if !g.closed {
          TweakCore(s, p, g.(closed := true));
          hide Core;
          s := s.(pages := s.pages[p := g.(closed := true)]);
          if g.refcount == 0 {
            FreePage(p);
          }
        }
      }
      hide ExtState.FreePage;
      s := s.(maint := Asleep);
    }
  }

  /** The walk of _free_page that unlinks a page from the list of its bucket. */
  method UnlinkPage(list: seq<nat>, p: nat) returns (rest: seq<nat>)
    ensures rest == Unlinked(list, p)
  {
    var i := 0;
    while i < |list|
      invariant 0 <= i <= |list|
      invariant Unlinked(list, p) == list[..i] + Unlinked(list[i..], p)
    {
      UnlinkedFrom(list, p, i);
      if list[i] == p {
        return list[..i] + list[i + 1..];
      }
      i := i + 1;
    }
    return list;
  }

  /** One turn of the walk. */
  lemma UnlinkedFrom(list: seq<nat>, p: nat, i: nat)
    requires i < |list|
    ensures list[i] == p ==> list[..i] + Unlinked(list[i..], p) == list[..i] + list[i + 1..]
    ensures list[i] != p ==> list[..i] + Unlinked(list[i..], p) == list[..i + 1] + Unlinked(list[i + 1..], p)
  {
    assert list[i..][1..] == list[i + 1..] && list[..i + 1] == list[..i] + [list[i]];
    assert list[..i] + ([list[i]] + Unlinked(list[i + 1..], p)) == list[..i] + [list[i]] + Unlinked(list[i + 1..], p);
  }

  lemma DiskBytes(s: State, h: Handle, data: seq<Byte>)
    requires OnDisk(s, h, data) && |data| == h.len
    ensures h.page < |s.disk| && h.offset + h.len <= |s.disk[h.page]|
    ensures s.disk[h.page][h.offset..h.offset + h.len] == data
  {}

  lemma AcceptStep(s: State, h: Handle)
    requires Inv(s) && Enabled(s, Accept(h))
    ensures Apply(s, Accept(h)) == ExtRuns.AcceptRead(s, h) && Inv(Apply(s, Accept(h)))
  {
    ReadInv(s, Accept(h));
  }

  lemma FinishStep(s: State, k: nat)
    requires Inv(s) && Enabled(s, Finish(k))
    ensures Core(s) && s.pending[k].page < |s.pages| && s.pages[s.pending[k].page].refcount > 0
    ensures Apply(s, Finish(k)) == ExtRuns.FinishRead(s, k) && Inv(Apply(s, Finish(k)))
  {
    FinishCore(s, k);
    ReadInv(s, Finish(k));
  }

  /** extstore_init: the checks in their order, the pages spread over the files,
  and the engine over the pages with the free buckets of their files. */
  method Init(conf: Conf, files: seq<File>) returns (refused: Option<Refusal>, e: Engine?, places: seq<Place>)
    requires conf.wbufSize > 0 && Total(files) > 0
    requires conf.buckets > 0 ==> forall f :: 0 <= f < |files| ==> files[f].freeBucket < conf.buckets
    ensures refused.None? <==> conf.Valid() && Aligned(conf) && Total(files) < 0xFFFF
    ensures refused.None? <==> e != null
    ensures match refused
      case None => true
      case Some(BadWbufSize) => conf.pageSize % conf.wbufSize != 0
      case Some(NeedMoreWbuf) => conf.buckets > conf.wbufCount
      case Some(NeedMoreBuckets) => conf.buckets == 0
      case Some(PageWbufAlignment) => !Aligned(conf)
      case Some(TooManyPages) => Total(files) >= 0xFFFF
    ensures e != null ==> fresh(e) && e.Valid() && e.s.conf == conf && |e.s.pages| == |places| == Total(files)
    ensures e != null ==> forall p :: 0 <= p < |places| ==> (
      && e.s.pages[p] == NewPage(places[p].freeBucket) && places[p].file < |files|
      && places[p].offset + conf.pageSize <= files[places[p].file].pageCount * conf.pageSize
      && forall q :: 0 <= q < p ==> Apart(places[q], places[p], conf.pageSize))
  {
    refused, e, places := None, null, [];
    if conf.pageSize % conf.wbufSize != 0 {
      refused := Some(BadWbufSize);
    } else if conf.buckets > conf.wbufCount {
      refused := Some(NeedMoreWbuf);
    } else if conf.buckets < 1 {
      refused := Some(NeedMoreBuckets);
    } else if !Aligned(conf) {
      refused := Some(PageWbufAlignment);
    } else if Total(files) >= 0xFFFF {
      refused := Some(TooManyPages);
    } else {
      places := Interleave(files, conf.pageSize);
      var kinds := seq(|places|, i requires 0 <= i < |places| => places[i].freeBucket);
      e := new Engine(conf, kinds);
    }
  }
}

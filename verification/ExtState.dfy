/** The storage engine of extstore.c as values: its pages, write buffers, page
lists, IO in flight and disk, and what each step under a lock does to them. */
module ExtState {
  import opened Basics

  /** What extstore_init is given and checks. */
  datatype Conf = Conf(pageSize: nat, wbufSize: nat, wbufCount: nat, buckets: nat) {
    predicate Valid() { wbufSize > 0 && pageSize % wbufSize == 0 && 1 <= buckets <= wbufCount }
  }

  /** extstore_init also refuses sizes that are not multiples of 2 MiB. */
  predicate Aligned(conf: Conf) { conf.pageSize % 0x20_0000 == 0 && conf.wbufSize % 0x20_0000 == 0 }

  datatype Page = Page(
    version: nat, refcount: nat, allotted: nat, written: nat, bucket: nat, freeBucket: nat,
    active: bool, closed: bool, free: bool, objCount: nat, bytesUsed: nat, wbuf: Option<nat>)

  datatype Wbuf = Wbuf(buf: seq<Byte>, free: nat, offset: nat, full: bool)

  /** A write handed to the IO threads. `stored` says that its pwrite is done and
  its callback is next. */
  datatype WriteIo = WriteIo(io: nat, page: nat, wbuf: nat, offset: nat, stored: bool)

  /** What extstore_write returns, and what a read asks for. */
  datatype Handle = Handle(page: nat, version: nat, offset: nat, len: nat)

  /** Where the writer of a bucket stands between two locks. */
  datatype Writer = Idle | Picked(page: nat) | NeedPage

  /** Where the maintenance thread stands: `low` is low_page with low_version. */
  datatype Maint = Asleep | Scanning(i: nat, evict: bool, low: Option<(nat, nat)>)

  /** `log` lists the pages in the order they were allocated, and `objects` the
  bytes copied in for each handle that was given out. */
  datatype State = State(
    conf: Conf, pages: seq<Page>, wbufs: seq<Wbuf>, disk: seq<seq<Byte>>,
    freelist: seq<nat>, freeBuckets: seq<seq<nat>>, pageBuckets: seq<seq<nat>>, pageFree: nat, version: nat,
    wbufStack: seq<nat>, ioStack: seq<nat>, inflight: seq<WriteIo>, pending: seq<Handle>,
    writers: seq<Writer>, maint: Maint,
    log: seq<nat>, objects: map<Handle, seq<Byte>>)

  /** e->version is an unsigned int that starts at 1. */
  const VERSIONS: nat := 0x1_0000_0000

  function NextVersion(v: nat): nat { (v + 1) % VERSIONS }

  /** Sizes of everything; they never change. */
  ghost predicate Shape(s: State) {
    && s.conf.Valid() && |s.pages| > 0
    && |s.disk| == |s.pages| && (forall p :: 0 <= p < |s.disk| ==> |s.disk[p]| == s.conf.pageSize)
    && |s.wbufs| == s.conf.wbufCount && (forall w :: 0 <= w < |s.wbufs| ==> |s.wbufs[w].buf| == s.conf.wbufSize)
    && |s.freeBuckets| == |s.pageBuckets| == |s.writers| == s.conf.buckets
  }

  /** The page at the head of a free list becomes the head of bucket b. */
  function Take(s: State, p: nat, b: nat): State
    requires p < |s.pages| && b < |s.pageBuckets| && s.pageFree > 0
  {
    s.(pages := s.pages[p := s.pages[p].(active := true, free := false, closed := false, version := s.version,
        bucket := b)],
       pageBuckets := s.pageBuckets[b := [p] + s.pageBuckets[b]],
       pageFree := s.pageFree - 1, version := NextVersion(s.version), log := s.log + [p])
  }

  /** The free page that _allocate_page would take. */
  function Candidate(s: State, fb: nat): Option<nat>
    requires fb < |s.freeBuckets|
  {
    if fb != 0 && s.freeBuckets[fb] != [] then Some(s.freeBuckets[fb][0])
    else if s.freelist != [] then Some(s.freelist[0])
    else None
  }

  /** _allocate_page. */
  function AllocatePage(s: State, b: nat, fb: nat): State
    requires fb < |s.freeBuckets| && b < |s.pageBuckets|
    requires Candidate(s, fb).Some? ==> Candidate(s, fb).value < |s.pages| && s.pageFree > 0
  {
    if fb != 0 && s.freeBuckets[fb] != [] then
      Take(s.(freeBuckets := s.freeBuckets[fb := s.freeBuckets[fb][1..]]), s.freeBuckets[fb][0], b)
    else if s.freelist != [] then
      Take(s.(freelist := s.freelist[1..]), s.freelist[0], b)
    else s
  }

  /** A bucket list without page p. */
  function Unlinked(list: seq<nat>, p: nat): seq<nat> {
    if list == [] then [] else if list[0] == p then list[1..] else [list[0]] + Unlinked(list[1..], p)
  }

  function Freed(g: Page): Page {
    g.(version := 0, objCount := 0, bytesUsed := 0, allotted := 0, written := 0, bucket := 0,
       active := false, closed := false, free := true)
  }

  /** _free_page. */
  function FreePage(s: State, p: nat): State
    requires p < |s.pages| && s.pages[p].bucket < |s.pageBuckets| && s.pages[p].freeBucket < |s.freeBuckets|
  {
    var g := s.pages[p];
    var s1 := s.(pages := s.pages[p := Freed(g)],
                 pageBuckets := s.pageBuckets[g.bucket := Unlinked(s.pageBuckets[g.bucket], p)],
                 pageFree := s.pageFree + 1);
    if g.freeBucket != 0 then s1.(freeBuckets := s.freeBuckets[g.freeBucket := [p] + s.freeBuckets[g.freeBucket]])
    else s1.(freelist := [p] + s.freelist)
  }

  /** _submit_wbuf, and the mark that the caller puts on the buffer. */
  function Submit(s: State, p: nat): State
    requires p < |s.pages| && s.pages[p].wbuf.Some? && s.pages[p].wbuf.value < |s.wbufs| && s.ioStack != []
    requires s.wbufs[s.pages[p].wbuf.value].free <= |s.wbufs[s.pages[p].wbuf.value].buf|
  {
    var w := s.pages[p].wbuf.value;
    var wb := s.wbufs[w];
    s.(wbufs := s.wbufs[w := wb.(buf := wb.buf[..|wb.buf| - wb.free] + Zeros(wb.free), full := true)],
       ioStack := s.ioStack[1..],
       inflight := s.inflight + [WriteIo(s.ioStack[0], p, w, wb.offset, false)])
  }

  /** _allocate_wbuf. */
  function Attach(s: State, p: nat): State
    requires p < |s.pages| && (s.wbufStack != [] ==> s.wbufStack[0] < |s.wbufs|)
  {
    if s.wbufStack == [] then s
    else
      var w := s.wbufStack[0];
      var g := s.pages[p];
      s.(wbufs := s.wbufs[w := s.wbufs[w].(offset := g.allotted, free := s.conf.wbufSize, full := false)],
         pages := s.pages[p := g.(allotted := g.allotted + s.conf.wbufSize, wbuf := Some(w))],
         wbufStack := s.wbufStack[1..])
  }

  /** The handle that the next write to page p gets. */
  function NextHandle(s: State, p: nat, len: nat): Handle
    requires p < |s.pages| && s.pages[p].wbuf.Some? && s.pages[p].wbuf.value < |s.wbufs|
    requires s.wbufs[s.pages[p].wbuf.value].free <= s.conf.wbufSize
  {
    var wb := s.wbufs[s.pages[p].wbuf.value];
    Handle(p, s.pages[p].version, wb.offset + (s.conf.wbufSize - wb.free), len)
  }

  function Splice(a: seq<Byte>, at: nat, data: seq<Byte>): (r: seq<Byte>)
    requires at + |data| <= |a|
    ensures |r| == |a|
  {
    a[..at] + data + a[at + |data|..]
  }

  /** The copy into the buffer and extstore_write. */
  function Store(s: State, p: nat, data: seq<Byte>): State
    requires p < |s.pages| && s.pages[p].wbuf.Some? && s.pages[p].wbuf.value < |s.wbufs|
    requires var wb := s.wbufs[s.pages[p].wbuf.value]; |data| <= wb.free <= |wb.buf| == s.conf.wbufSize
  {
    var g := s.pages[p];
    var w := g.wbuf.value;
    var wb := s.wbufs[w];
    s.(wbufs := s.wbufs[w := wb.(buf := Splice(wb.buf, |wb.buf| - wb.free, data), free := wb.free - |data|)],
       pages := s.pages[p := g.(objCount := g.objCount + 1, bytesUsed := g.bytesUsed + |data|)],
       objects := s.objects[NextHandle(s, p, |data|) := data])
  }

  /** pwrite of a whole buffer. */
  function Pwrite(s: State, k: nat): State
    requires k < |s.inflight| && s.inflight[k].page < |s.disk| && s.inflight[k].wbuf < |s.wbufs|
    requires s.inflight[k].offset + |s.wbufs[s.inflight[k].wbuf].buf| <= |s.disk[s.inflight[k].page]|
  {
    var io := s.inflight[k];
    s.(disk := s.disk[io.page := Splice(s.disk[io.page], io.offset, s.wbufs[io.wbuf].buf)],
       inflight := s.inflight[k := io.(stored := true)])
  }

  /** _wbuf_cb. */
  function Flushed(s: State, k: nat): State
    requires k < |s.inflight| && s.inflight[k].page < |s.pages|
  {
    var io := s.inflight[k];
    var g := s.pages[io.page];
    var written := g.written + s.conf.wbufSize;
    s.(pages := s.pages[io.page := g.(written := written, wbuf := None, active := g.active &&
        written != s.conf.pageSize)],
       wbufStack := [io.wbuf] + s.wbufStack, ioStack := [io.io] + s.ioStack,
       inflight := s.inflight[..k] + s.inflight[k + 1..])
  }
}

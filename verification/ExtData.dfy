/** The bytes of every object: where they are until their page is freed. */
module ExtData {
  import opened Basics
  import opened ExtState
  import opened ExtPages
  import opened ExtBuffers

  /** The page of the handle still holds the generation that the handle names. */
  predicate Live(s: State, h: Handle) {
    h.page < |s.pages| && !s.pages[h.page].free && s.pages[h.page].version == h.version
  }

  predicate OnDisk(s: State, h: Handle, data: seq<Byte>) {
    && h.page < |s.disk| && h.offset + |data| <= |s.disk[h.page]|
    && s.disk[h.page][h.offset..h.offset + |data|] == data
  }

  predicate InBuffer(s: State, g: Page, h: Handle, data: seq<Byte>) {
    && g.wbuf.Some? && g.wbuf.value < |s.wbufs|
    && var wb := s.wbufs[g.wbuf.value];
    && g.written <= h.offset && h.offset - g.written + |data| <= |wb.buf| - wb.free
    && wb.buf[h.offset - g.written..h.offset - g.written + |data|] == data
  }

  /** Objects below `written` are on disk, the others in the attached buffer. */
  predicate Stored(s: State, h: Handle, data: seq<Byte>)
    requires h.page < |s.pages|
  {
    var g := s.pages[h.page];
    if h.offset < g.written then h.offset + |data| <= g.written && OnDisk(s, h, data) else InBuffer(s, g, h, data)
  }

  ghost predicate Object(s: State, h: Handle)
    requires h in s.objects
  {
    && h.page < |s.pages| && h.len == |s.objects[h]| > 0 && 1 <= h.version <= |s.log|
    && (Live(s, h) ==> Stored(s, h, s.objects[h]))
  }

  /** An accepted disk read is for a live object below `written`. */
  predicate Pending(s: State, h: Handle) {
    h in s.objects && Live(s, h) && h.offset + h.len <= s.pages[h.page].written
  }

  /** After its pwrite, the buffer of an IO is on disk. */
  predicate Copied(s: State, k: nat)
    requires k < |s.inflight|
  {
    var io := s.inflight[k];
    io.stored ==> (
      && io.page < |s.disk| && io.wbuf < |s.wbufs| && io.offset + |s.wbufs[io.wbuf].buf| <= |s.disk[io.page]|
      && s.disk[io.page][io.offset..io.offset + |s.wbufs[io.wbuf].buf|] == s.wbufs[io.wbuf].buf)
  }

  predicate VersionOk(g: Page, issued: nat) { g.version <= issued && (!g.free ==> g.version > 0) }

  /** While the version counter has not wrapped, versions name generations. */
  ghost predicate VersionsOk(s: State) {
    && s.version == (1 + |s.log|) % VERSIONS
    && (|s.log| < VERSIONS ==> forall p :: 0 <= p < |s.pages| ==> VersionOk(s.pages[p], |s.log|))
  }

  ghost predicate ObjectsOk(s: State) {
    && (forall h :: h in s.objects ==> Object(s, h))
    && (forall h :: h in s.pending ==> Pending(s, h))
  }

  ghost predicate DataOk(s: State) {
    && VersionsOk(s) && (|s.log| < VERSIONS ==> ObjectsOk(s))
    && (forall k :: 0 <= k < |s.inflight| ==> Copied(s, k))
  }

  /** How many accepted disk reads are under way on page p. */
  function Readers(pending: seq<Handle>, p: nat): nat {
    if pending == [] then 0 else (if pending[0].page == p then 1 else 0) + Readers(pending[1..], p)
  }

  lemma {:induction false} ReadersConcat(a: seq<Handle>, b: seq<Handle>, p: nat)
    ensures Readers(a + b, p) == Readers(a, p) + Readers(b, p)
  {
    if a == [] {
      assert a + b == b;
    } else {
      assert (a + b)[1..] == a[1..] + b;
      ReadersConcat(a[1..], b, p);
    }
  }

  lemma {:induction false} ReadersIn(pending: seq<Handle>, h: Handle)
    requires h in pending
    ensures Readers(pending, h.page) > 0
  {
    if pending[0] != h { ReadersIn(pending[1..], h); }
  }

  ghost predicate RefsOk(s: State) {
    && (forall p :: 0 <= p < |s.pages| ==> s.pages[p].refcount == Readers(s.pending, p))
    && (forall h :: h in s.pending ==> h.page < |s.pages|)
  }

  /** What the placement of objects depends on in a page. */
  predicate SamePlace(g: Page, g': Page) {
    g'.free == g.free && g'.version == g.version && g'.written == g.written && g'.wbuf == g.wbuf
  }

  lemma DataFrame(s: State, s': State)
    requires DataOk(s) && |s'.pages| == |s.pages| && s'.wbufs == s.wbufs && s'.disk == s.disk
    requires s'.inflight == s.inflight
    requires s'.version == s.version && s'.log == s.log && s'.objects == s.objects && s'.pending == s.pending
    requires forall p :: 0 <= p < |s.pages| ==> SamePlace(s.pages[p], s'.pages[p])
    ensures DataOk(s')
  {
    forall h | h in s.objects && Object(s, h) ensures Object(s', h) {}
    forall h | Pending(s, h) ensures Pending(s', h) {}
    forall k | 0 <= k < |s'.inflight| ensures Copied(s', k) {
      assert Copied(s, k);
    }
    forall p | 0 <= p < |s.pages| && VersionOk(s.pages[p], |s.log|) ensures VersionOk(s'.pages[p], |s.log|) {
      assert SamePlace(s.pages[p], s'.pages[p]);
    }
  }

  /** A new generation of a page: handles of earlier ones are dead. */
  lemma TakeData(s: State, p: nat, b: nat)
    requires DataOk(s) && p < |s.pages| && s.pages[p].free && b < |s.pageBuckets| && s.pageFree > 0
    ensures DataOk(Take(s, p, b))
  {
    var s' := Take(s, p, b);
    hide Object, Copied;
    if |s'.log| < VERSIONS {
      assert s.version == |s'.log|;
      forall h | h in s'.objects ensures Object(s', h) {
        assert Object(s, h);
        TakenObject(s, p, b, h);
      }
      forall h | h in s'.pending ensures Pending(s', h) {
        assert Pending(s, h);
      }
    }
    forall k | 0 <= k < |s'.inflight| ensures Copied(s', k) {
      assert Copied(s, k);
      CopiedFrame(s, k, s', k);
    }
  }

  lemma TakenObject(s: State, p: nat, b: nat, h: Handle)
    requires p < |s.pages| && s.pages[p].free && b < |s.pageBuckets| && s.pageFree > 0
    requires h in s.objects && Object(s, h) && s.version == |s.log| + 1
    ensures Object(Take(s, p, b), h)
  {
  }

  lemma AllocateData(s: State, b: nat, fb: nat)
    requires DataOk(s) && PagesOk(s) && fb < |s.freeBuckets| && b < |s.pageBuckets|
    ensures Candidate(s, fb).Some? ==> Candidate(s, fb).value < |s.pages| && s.pageFree > 0
    ensures DataOk(AllocatePage(s, b, fb))
  {
    if Candidate(s, fb).Some? {
      CandidateOk(s, fb);
      var s1 := if fb != 0 && s.freeBuckets[fb] != []
                then s.(freeBuckets := s.freeBuckets[fb := s.freeBuckets[fb][1..]])
                else s.(freelist := s.freelist[1..]);
      DataFrame(s, s1);
      hide DataOk, PagesOk;
      TakeData(s1, Candidate(s, fb).value, b);
    }
  }

  /** Nobody is reading from a page that is freed. */
  lemma FreeData(s: State, p: nat)
    requires DataOk(s) && RefsOk(s) && p < |s.pages| && s.pages[p].refcount == 0
    requires s.pages[p].bucket < |s.pageBuckets| && s.pages[p].freeBucket < |s.freeBuckets|
    ensures DataOk(FreePage(s, p))
  {
    var s' := FreePage(s, p);
    hide Copied, Object, Readers;
    if |s'.log| < VERSIONS {
      forall h | h in s'.objects ensures Object(s', h) {
        assert Object(s, h);
        FreedObject(s, p, h);
      }
      forall h | h in s'.pending ensures Pending(s', h) {
        assert Pending(s, h);
        ReadersIn(s.pending, h);
      }
    }
    forall k | 0 <= k < |s'.inflight| ensures Copied(s', k) {
      assert Copied(s, k);
      CopiedFrame(s, k, s', k);
    }
  }

  lemma FreedObject(s: State, p: nat, h: Handle)
    requires p < |s.pages| && s.pages[p].bucket < |s.pageBuckets| && s.pages[p].freeBucket < |s.freeBuckets|
    requires h in s.objects && Object(s, h)
    ensures Object(FreePage(s, p), h)
  {
  }

  lemma SubmitData(s: State, p: nat)
    requires DataOk(s) && BuffersOk(s) && Shape(s) && p < |s.pages| && s.pages[p].wbuf.Some? && s.ioStack != []
    requires s.pages[p].wbuf.value < |s.wbufs| && !s.wbufs[s.pages[p].wbuf.value].full
    requires s.wbufs[s.pages[p].wbuf.value].free <= s.conf.wbufSize
    ensures s.wbufs[s.pages[p].wbuf.value].free <= |s.wbufs[s.pages[p].wbuf.value].buf|
    ensures DataOk(Submit(s, p))
  {
    var s' := Submit(s, p);
    var w := s.pages[p].wbuf.value;
    assert s'.wbufs[w].buf[..|s.wbufs[w].buf| - s.wbufs[w].free] ==
        s.wbufs[w].buf[..|s.wbufs[w].buf| - s.wbufs[w].free];
    if |s'.log| < VERSIONS {
      forall h | h in s'.objects ensures Object(s', h) {
        assert Object(s, h);
        BufferPrefix(s, s', h, w);
      }
      forall h | h in s'.pending ensures Pending(s', h) {
        assert Pending(s, h);
      }
    }
    forall k | 0 <= k < |s'.inflight| ensures Copied(s', k) {
      if k < |s.inflight| {
        assert Copied(s, k) && InFlight(s, k);
      }
    }
  }

  /** A write past the objects in buffer w, as long as it shrinks nothing. */
  lemma BufferPrefix(s: State, s': State, h: Handle, w: nat)
    requires h in s.objects && h in s'.objects && s'.objects[h] == s.objects[h] && Object(s, h)
    requires s'.log == s.log && |s'.pages| == |s.pages| && SamePlace(s.pages[h.page], s'.pages[h.page])
    requires s'.disk == s.disk && w < |s.wbufs| == |s'.wbufs| && s'.wbufs == s.wbufs[w := s'.wbufs[w]]
    requires var n := |s.wbufs[w].buf| - s.wbufs[w].free;
      0 <= n <= |s'.wbufs[w].buf| && n <= |s'.wbufs[w].buf| - s'.wbufs[w].free &&
      s'.wbufs[w].buf[..n] == s.wbufs[w].buf[..n]
    ensures Object(s', h)
  {
    var g := s.pages[h.page];
    if Live(s, h) && h.offset >= g.written && g.wbuf == Some(w) {
      var n := |s.wbufs[w].buf| - s.wbufs[w].free;
      var at := h.offset - g.written;
      var to := at + |s.objects[h]|;
      assert s.wbufs[w].buf[..n][at..to] == s.wbufs[w].buf[at..to];
      assert s'.wbufs[w].buf[..n][at..to] == s'.wbufs[w].buf[at..to];
    }
  }

  lemma AttachData(s: State, p: nat)
    requires DataOk(s) && BuffersOk(s) && p < |s.pages| && s.pages[p].wbuf.None?
    ensures s.wbufStack != [] ==> s.wbufStack[0] < |s.wbufs|
    ensures DataOk(Attach(s, p))
  {
    if s.wbufStack != [] {
      OffStack(s, p);
      var w := s.wbufStack[0];
      assert w in s.wbufStack;
      var s' := Attach(s, p);
      hide Object, Copied;
      if |s'.log| < VERSIONS {
        forall h | h in s'.objects ensures Object(s', h) {
          assert Object(s, h);
          AttachedObject(s, p, h);
        }
        forall h | h in s'.pending ensures Pending(s', h) {
          assert Pending(s, h);
        }
      }
      forall k | 0 <= k < |s'.inflight| ensures Copied(s', k) {
        assert Copied(s, k) && InFlight(s, k);
        OffStack(s, s.inflight[k].page);
        CopiedOther(s, k, s', w);
      }
    }
  }

  lemma AttachedObject(s: State, p: nat, h: Handle)
    requires BuffersOk(s) && p < |s.pages| && s.pages[p].wbuf.None? && s.wbufStack != [] && s.wbufStack[0] < |s.wbufs|
    requires h in s.objects && Object(s, h)
    ensures Object(Attach(s, p), h)
  {
    ObjectPage(s, h);
    OffStack(s, h.page);
    assert s.wbufStack[0] in s.wbufStack;
    hide BuffersOk;
  }

  lemma ObjectPage(s: State, h: Handle)
    requires h in s.objects && Object(s, h)
    ensures h.page < |s.pages|
  {}

  /** A change of a buffer that is not in flight. */
  lemma CopiedOther(s: State, k: nat, s': State, w: nat)
    requires k < |s.inflight| && s'.inflight == s.inflight && s'.disk == s.disk && |s'.wbufs| == |s.wbufs|
    requires s.inflight[k].wbuf != w && forall i :: 0 <= i < |s.wbufs| && i != w ==> s'.wbufs[i] == s.wbufs[i]
    requires Copied(s, k)
    ensures Copied(s', k)
  {}

  lemma NextIsNew(s: State, p: nat, len: nat)
    requires ObjectsOk(s) && BuffersOk(s) && Shape(s) && p < |s.pages|
    requires s.pages[p].wbuf.Some? && s.pages[p].wbuf.value < |s.wbufs|
    requires s.wbufs[s.pages[p].wbuf.value].free <= s.conf.wbufSize
    ensures NextHandle(s, p, len) !in s.objects
  {
    assert Flow(s, s.pages[p]);
  }

  /** A write adds its object, in the buffer, under a new handle. */
  lemma StoreData(s: State, p: nat, data: seq<Byte>)
    requires DataOk(s) && BuffersOk(s) && Shape(s) && p < |s.pages| && s.pages[p].wbuf.Some? && !s.pages[p].free
    requires s.pages[p].wbuf.value < |s.wbufs| && !s.wbufs[s.pages[p].wbuf.value].full && |data| > 0
    requires |data| <= s.wbufs[s.pages[p].wbuf.value].free <= s.conf.wbufSize
    ensures |s.wbufs[s.pages[p].wbuf.value].buf| == s.conf.wbufSize
    ensures DataOk(Store(s, p, data))
    ensures |s.log| < VERSIONS ==> NextHandle(s, p, |data|) !in s.objects
  {
    var s' := Store(s, p, data);
    var w := s.pages[p].wbuf.value;
    var n := |s.wbufs[w].buf| - s.wbufs[w].free;
    assert s'.wbufs[w].buf[..n] == s.wbufs[w].buf[..n];
    assert s'.wbufs[w].buf[n..n + |data|] == data;
    if |s'.log| < VERSIONS {
      NextIsNew(s, p, |data|);
      assert Flow(s, s.pages[p]);
      forall h | h in s'.objects ensures Object(s', h) {
        if h in s.objects {
          assert Object(s, h);
          BufferPrefix(s, s', h, w);
        }
      }
      forall h | h in s'.pending ensures Pending(s', h) {
        assert Pending(s, h);
      }
    }
    forall k | 0 <= k < |s'.inflight| ensures Copied(s', k) {
      assert Copied(s, k) && InFlight(s, k);
    }
  }

  /** A pwrite lands past everything that is on the disk page. */
  lemma PwriteObject(s: State, k: nat, h: Handle)
    requires h in s.objects && Object(s, h) && k < |s.inflight|
    requires var io := s.inflight[k];
      && io.page < |s.disk| && io.wbuf < |s.wbufs| && io.offset + |s.wbufs[io.wbuf].buf| <= |s.disk[io.page]|
      && io.page < |s.pages| && io.offset == s.pages[io.page].written
    ensures Object(Pwrite(s, k), h)
  {
    var io := s.inflight[k];
    var s' := Pwrite(s, k);
    assert s'.disk[io.page][..io.offset] == s.disk[io.page][..io.offset];
    if h.page == io.page && Live(s, h) && h.offset < io.offset {
      var to := h.offset + |s.objects[h]|;
      assert s'.disk[io.page][..io.offset][h.offset..to] == s'.disk[io.page][h.offset..to];
      assert s.disk[io.page][..io.offset][h.offset..to] == s.disk[io.page][h.offset..to];
    }
  }

  lemma PwriteCopied(s: State, k: nat, j: nat)
    requires k < |s.inflight| && j < |s.inflight| && Copied(s, j)
    requires j != k ==> s.inflight[j].page != s.inflight[k].page
    requires var io := s.inflight[k];
      io.page < |s.disk| && io.wbuf < |s.wbufs| && io.offset + |s.wbufs[io.wbuf].buf| <= |s.disk[io.page]|
    ensures Copied(Pwrite(s, k), j)
  {
    var io := s.inflight[k];
    var buf := s.wbufs[io.wbuf].buf;
    assert Pwrite(s, k).disk[io.page][io.offset..io.offset + |buf|] == buf;
  }

  lemma PwriteData(s: State, k: nat)
    requires DataOk(s) && BuffersOk(s) && Shape(s) && k < |s.inflight|
    ensures s.inflight[k].page < |s.disk| && s.inflight[k].wbuf < |s.wbufs|
    ensures s.inflight[k].offset + |s.wbufs[s.inflight[k].wbuf].buf| <= |s.disk[s.inflight[k].page]|
    ensures DataOk(Pwrite(s, k))
  {
    InFlightFits(s, k);
    var s' := Pwrite(s, k);
    hide Copied, Object, InFlight, Flow;
    if |s'.log| < VERSIONS {
      forall h | h in s'.objects ensures Object(s', h) {
        assert Object(s, h);
        PwriteObject(s, k, h);
      }
      forall h | h in s'.pending ensures Pending(s', h) {
        assert Pending(s, h);
      }
    }
    forall j | 0 <= j < |s'.inflight| ensures Copied(s', j) {
      assert Copied(s, j);
      PwriteCopied(s, k, j);
    }
  }

  lemma SliceOfSlice(a: seq<Byte>, from: nat, n: nat, at: nat, to: nat)
    requires from + n <= |a| && at <= to <= n
    ensures a[from..from + n][at..to] == a[from + at..from + to]
  {
    var x, y := a[from..from + n][at..to], a[from + at..from + to];
    assert |x| == |y| && forall i :: 0 <= i < |x| ==> x[i] == y[i];
  }

  lemma FlushedObject(s: State, k: nat, h: Handle)
    requires h in s.objects && Object(s, h) && k < |s.inflight| && s.inflight[k].stored && Copied(s, k)
    requires var io := s.inflight[k];
      && io.page < |s.pages| && io.wbuf < |s.wbufs| && s.pages[io.page].wbuf == Some(io.wbuf)
      && io.offset == s.pages[io.page].written && |s.wbufs[io.wbuf].buf| == s.conf.wbufSize
    ensures Object(Flushed(s, k), h)
  {
    var io := s.inflight[k];
    var buf := s.wbufs[io.wbuf].buf;
    if h.page == io.page && Live(s, h) && h.offset >= io.offset {
      var at := h.offset - io.offset;
      var to := at + |s.objects[h]|;
      SliceOfSlice(s.disk[io.page], io.offset, |buf|, at, to);
    }
  }

  /** The callback moves `written` past bytes that the pwrite has put there. */
  lemma FlushedData(s: State, k: nat)
    requires DataOk(s) && BuffersOk(s) && Shape(s) && k < |s.inflight| && s.inflight[k].stored
    ensures s.inflight[k].page < |s.pages| && DataOk(Flushed(s, k))
  {
    InFlightFits(s, k);
    var s' := Flushed(s, k);
    hide BuffersOk, Copied;
    if |s'.log| < VERSIONS {
      forall h | h in s'.objects ensures Object(s', h) {
        hide Object;
        assert Object(s, h);
        FlushedObject(s, k, h);
      }
      forall h | h in s'.pending ensures Pending(s', h) {
        assert Pending(s, h);
      }
    }
    forall j | 0 <= j < |s'.inflight| ensures Copied(s', j) {
      var i := if j < k then j else j + 1;
      assert Copied(s, i);
      CopiedFrame(s, i, s', j);
    }
  }

  lemma CopiedFrame(s: State, i: nat, s': State, j: nat)
    requires i < |s.inflight| && j < |s'.inflight| && s'.inflight[j] == s.inflight[i] && Copied(s, i)
    requires s'.disk == s.disk && s'.wbufs == s.wbufs
    ensures Copied(s', j)
  {
  }
}
